/** fakeshell/term/editor.go: the line editor and its redraw. */
module Editor {
  import opened Common
  import opened Terminal
  import opened Keys

  const DEFAULT_MAX_LEN: nat := 1024
  const MAX_HISTORY: nat := 200

  const KEY_CTRL_A: Key := 0x01
  const KEY_CTRL_C: Key := 0x03
  const KEY_CTRL_D: Key := 0x04
  const KEY_CTRL_E: Key := 0x05
  const KEY_TAB: Key := 0x09
  const KEY_CTRL_K: Key := 0x0b
  const KEY_CTRL_L: Key := 0x0c
  const KEY_CTRL_U: Key := 0x15
  const KEY_CTRL_W: Key := 0x17

  // ---- render ---------------------------------------------------------------------------------

  /** Back to the prompt's first row. */
  function GoHome(cursorRow: nat): seq<Token> { (if cursorRow > 0 then [Up(cursorRow)] else []) + [Cr] }

  /** Leave the pending-wrap state behind and clear what follows the text. */
  function Finish(w: nat, end: nat): seq<Token>
    requires w > 0
  {
    (if end > 0 && end % w == 0 then [Cr] + [Lf] else []) + [EraseBelow]
  }

  /** From the end of the text to the cell `target`. */
  function GoTo(w: nat, end: nat, target: nat): seq<Token>
    requires w > 0
  {
    (if end / w > target / w then [Up(end / w - target / w)] else []) + [Cr]
    + if target % w > 0 then [Right(target % w)] else []
  }

  /** Everything one call of render makes the terminal do. */
  function RenderTokens(w: nat, cursorRow: nat, prompt: seq<Rune>, line: seq<Rune>, pos: nat): seq<Token>
    requires w > 0
  {
    var plen := |VisibleText(prompt)|;
    GoHome(cursorRow) + (Tokenize(prompt) + LineTokens(line)) + Finish(w, plen + |line|) + GoTo(w, plen + |line|, plen + pos)
  }

  /** The terminal shows `text` wrapped from row `base`, nothing after it, the cursor on cell `cur`
      of the text, and above row `base` what `kept` had there. */
  ghost predicate Shows(t: Term, w: nat, base: nat, text: seq<Rune>, cur: nat, kept: map<int, Rune>)
    requires w > 0
  {
    && Holds(t.cells, kept, Cell(w, base, 0), text)
    && BlankFrom(t.cells, Cell(w, base, 0) + |text|)
    && t.row == base + cur / w && t.col == cur % w && !t.pending
  }

  lemma GoHomeLands(t: Term, w: nat, base: nat, cursorRow: nat)
    requires t.row == base + cursorRow
    ensures FeedAll(t, w, GoHome(cursorRow)) == Term(base, 0, false, t.cells)
  {
    if cursorRow > 0 {
      FeedSnoc(t, w, [Up(cursorRow)], Cr);
      FeedOne(t, w, Up(cursorRow));
    } else {
      assert GoHome(cursorRow) == [Cr];
      FeedOne(t, w, Cr);
    }
  }

  /** Where the terminal stands after drawing n cells from row base: at the right margin it waits in
      the pending-wrap state, otherwise it is on cell n. */
  lemma AfterText(t: Term, w: nat, base: nat, n: nat)
    requires w > 0 && Valid(t, w) && base <= t.row && NextCell(t, w) == Cell(w, base, 0) + n
    requires if n == 0 then !t.pending else t.pending || t.col > 0
    ensures t.pending <==> n > 0 && n % w == 0
    ensures t.pending ==> t.row + 1 == base + n / w
    ensures !t.pending ==> t.row == base + n / w && t.col == n % w
  {
    var q := t.row - base;
    assert t.row * w == base * w + q * w;
    if t.pending {
      assert (q + 1) * w == q * w + w;
      RowAndCol(n, w, q + 1, 0);
    } else {
      RowAndCol(n, w, q, t.col);
    }
  }

  lemma EraseRest(t: Term, w: nat, from: int, text: seq<Rune>, kept: map<int, Rune>)
    requires Cell(w, t.row, t.col) == from + |text| && Holds(t.cells, kept, from, text)
    ensures var u := Feed(t, w, EraseBelow);
      && Holds(u.cells, kept, from, text) && BlankFrom(u.cells, from + |text|)
      && u.row == t.row && u.col == t.col && !u.pending
  {
  }

  lemma FinishLands(t: Term, w: nat, base: nat, text: seq<Rune>, kept: map<int, Rune>)
    requires w > 0 && Valid(t, w) && base <= t.row && NextCell(t, w) == Cell(w, base, 0) + |text|
    requires if text == [] then !t.pending else t.pending || t.col > 0
    requires Holds(t.cells, kept, Cell(w, base, 0), text)
    ensures var u := FeedAll(t, w, Finish(w, |text|));
      && Holds(u.cells, kept, Cell(w, base, 0), text) && BlankFrom(u.cells, Cell(w, base, 0) + |text|)
      && u.row == base + |text| / w && u.col == |text| % w && !u.pending
  {
    var n := |text|;
    AfterText(t, w, base, n);
    CellOf(n, w, base);
    var mid := t.(row := base + n / w, col := n % w, pending := false);
    if n > 0 && n % w == 0 {
      FeedOne(t, w, Cr);
      FeedSnoc(t, w, [Cr], Lf);
      FeedSnoc(t, w, [Cr] + [Lf], EraseBelow);
    } else {
      assert Finish(w, n) == [EraseBelow];
      FeedOne(t, w, EraseBelow);
    }
    EraseRest(mid, w, Cell(w, base, 0), text, kept);
  }

  lemma GoToLands(t: Term, w: nat, base: nat, end: nat, target: nat)
    requires w > 0 && target <= end && t.row == base + end / w && !t.pending
    ensures FeedAll(t, w, GoTo(w, end, target)) == Term(base + target / w, target % w, false, t.cells)
  {
    CellOf(target, w, base);
    DivMonotone(target, end, w);
    var up := if end / w > target / w then [Up(end / w - target / w)] else [];
    var right := if target % w > 0 then [Right(target % w)] else [];
    var there := Term(base + target / w, 0, false, t.cells);
    if up != [] {
      FeedOne(t, w, Up(end / w - target / w));
    }
    FeedSnoc(t, w, up, Cr);
    assert FeedAll(t, w, up + [Cr]) == there;
    FeedAppend(t, w, up + [Cr], right);
    if right != [] {
      FeedOne(there, w, Right(target % w));
    }
  }

  lemma DivMonotone(a: nat, b: nat, w: nat)
    requires w > 0 && a <= b
    ensures a / w <= b / w
  {
    var qa, qb := a / w, b / w;
    assert a == qa * w + a % w && b == qb * w + b % w;
    assert (qb + 1) * w == qb * w + w;
    if qb < qa {
      MulMonotone(qb + 1, qa, w);
    }
  }

  /** One redraw, from any state whose cursor is `cursorRow` rows below the prompt's first row. */
  lemma RenderShows(t: Term, w: nat, base: nat, cursorRow: nat, prompt: seq<Rune>, line: seq<Rune>, pos: nat)
    requires w > 0 && t.row == base + cursorRow && pos <= |line| && SgrOnly(prompt)
    ensures var text := VisibleText(prompt) + line;
      var u := FeedAll(t, w, RenderTokens(w, cursorRow, prompt, line, pos));
      && Shows(u, w, base, text, |VisibleText(prompt)| + pos, t.cells)
      && u.row == base + (|VisibleText(prompt)| + pos) / w
  {
    hide FeedAll, VisibleText, Tokenize, LineTokens, GoHome, Finish, GoTo, Holds, BlankFrom, Cell, Valid;
    var text, plen := VisibleText(prompt) + line, |VisibleText(prompt)|;
    var home, draw := GoHome(cursorRow), Tokenize(prompt) + LineTokens(line);
    var fin, goto := Finish(w, plen + |line|), GoTo(w, plen + |line|, plen + pos);
    var t1 := Term(base, 0, false, t.cells);
    GoHomeLands(t, w, base, cursorRow);
    FeedAppend(t, w, home, draw);
    DrawPrompt(t1, w, prompt, line);
    DrawText(t1, w, base, text);
    var t2 := FeedAll(t1, w, draw);
    FeedAppend(t, w, home + draw, fin);
    FinishLands(t2, w, base, text, t.cells);
    var t3 := FeedAll(t2, w, fin);
    FeedAppend(t, w, home + draw + fin, goto);
    GoToLands(t3, w, base, |text|, plen + pos);
  }

  lemma DrawPrompt(t: Term, w: nat, prompt: seq<Rune>, line: seq<Rune>)
    requires SgrOnly(prompt)
    ensures FeedAll(t, w, Tokenize(prompt) + LineTokens(line)) == FeedAll(t, w, LineTokens(VisibleText(prompt) + line))
  {
    FeedAppend(t, w, Tokenize(prompt), LineTokens(line));
    PromptDraws(t, w, prompt);
    FeedAppend(t, w, LineTokens(VisibleText(prompt)), LineTokens(line));
    LineTokensAppend(VisibleText(prompt), line);
  }

  // ---- the text render writes -----------------------------------------------------------------------

  function CountedText(n: nat, final: Rune): seq<Rune> { if n > 0 then ControlText(Decimal(n), final) else [] }

  /** The string one call of render writes. */
  function RenderText(w: nat, cursorRow: nat, prompt: seq<Rune>, line: seq<Rune>, pos: nat): seq<Rune>
    requires w > 0
  {
    var plen := |VisibleText(prompt)|;
    var end, target := plen + |line|, plen + pos;
    CountedText(cursorRow, 65) + [CR_RUNE] + prompt + line
    + (if end > 0 && end % w == 0 then [CR_RUNE, LF_RUNE] else []) + ControlText([], 74)
    + CountedText(Max(end / w - target / w, 0), 65) + [CR_RUNE] + CountedText(target % w, 67)
  }

  /** Text that is read as exactly these tokens, with nothing left open. */
  predicate Writes(s: seq<Rune>, toks: seq<Token>) { ParserAfter(s) == Showing && Tokenize(s) == toks }

  lemma WritesBoth(a: seq<Rune>, xs: seq<Token>, b: seq<Rune>, ys: seq<Token>)
    requires Writes(a, xs) && Writes(b, ys)
    ensures Writes(a + b, xs + ys)
  {
    hide Tokenize, ParserAfter;
    TokenizeAppend(a, b);
  }

  lemma CountedWrites(n: nat)
    ensures Writes(CountedText(n, 65), if n > 0 then [Up(n)] else [])
    ensures Writes(CountedText(n, 67), if n > 0 then [Right(n)] else [])
  {
    hide Tokenize, ParserAfter;
    TokenizeNone();
    if n > 0 {
      TokenizeCounted(n);
    }
  }

  lemma GoHomeWrites(cursorRow: nat)
    ensures Writes(CountedText(cursorRow, 65) + [CR_RUNE], GoHome(cursorRow))
  {
    CountedWrites(cursorRow);
    TokenizeBreak();
    hide Tokenize, ParserAfter, CountedText;
    WritesBoth(CountedText(cursorRow, 65), if cursorRow > 0 then [Up(cursorRow)] else [], [CR_RUNE], [Cr]);
  }

  lemma FinishWrites(w: nat, end: nat)
    requires w > 0
    ensures Writes((if end > 0 && end % w == 0 then [CR_RUNE, LF_RUNE] else []) + ControlText([], 74), Finish(w, end))
  {
    hide Tokenize, ParserAfter, ControlText;
    TokenizeNone();
    TokenizeBreak();
    TokenizeErase();
    var full := end > 0 && end % w == 0;
    WritesBoth(if full then [CR_RUNE, LF_RUNE] else [], if full then [Cr] + [Lf] else [], ControlText([], 74), [EraseBelow]);
  }

  lemma MovesWrite(up: nat, right: nat)
    ensures Writes(CountedText(up, 65) + [CR_RUNE] + CountedText(right, 67), GoHome(up) + if right > 0 then [Right(right)] else [])
  {
    hide Tokenize, ParserAfter, CountedText, GoHome;
    GoHomeWrites(up);
    CountedWrites(right);
    WritesBoth(CountedText(up, 65) + [CR_RUNE], GoHome(up), CountedText(right, 67), if right > 0 then [Right(right)] else []);
  }

  lemma GoToWrites(w: nat, end: nat, target: nat)
    requires w > 0
    ensures Writes(CountedText(Max(end / w - target / w, 0), 65) + [CR_RUNE] + CountedText(target % w, 67), GoTo(w, end, target))
  {
    MovesWrite(Max(end / w - target / w, 0), target % w);
    hide Writes, CountedText;
  }

  /** The terminal reads the string render writes as the moves, the text and the erase that it means. */
  lemma RenderWrites(w: nat, cursorRow: nat, prompt: seq<Rune>, line: seq<Rune>, pos: nat)
    requires w > 0 && SgrOnly(prompt) && Plainly(line)
    ensures Writes(RenderText(w, cursorRow, prompt, line, pos), RenderTokens(w, cursorRow, prompt, line, pos))
  {
    hide Tokenize, ParserAfter, VisibleText, ScanOf, Finish, GoTo, GoHome, ControlText, CountedText, LineTokens;
    var plen := |VisibleText(prompt)|;
    var end, target := plen + |line|, plen + pos;
    PromptWrites(prompt);
    TokenizeLine(line);
    GoHomeWrites(cursorRow);
    FinishWrites(w, end);
    GoToWrites(w, end, target);
    var home, text := CountedText(cursorRow, 65) + [CR_RUNE], prompt + line;
    var fin := (if end > 0 && end % w == 0 then [CR_RUNE, LF_RUNE] else []) + ControlText([], 74);
    var goto := CountedText(Max(end / w - target / w, 0), 65) + [CR_RUNE] + CountedText(target % w, 67);
    WritesBoth(prompt, Tokenize(prompt), line, LineTokens(line));
    WritesBoth(home, GoHome(cursorRow), text, Tokenize(prompt) + LineTokens(line));
    WritesBoth(home + text, GoHome(cursorRow) + (Tokenize(prompt) + LineTokens(line)), fin, Finish(w, end));
    WritesBoth(home + text + fin, GoHome(cursorRow) + (Tokenize(prompt) + LineTokens(line)) + Finish(w, end), goto, GoTo(w, end, target));
    assert RenderText(w, cursorRow, prompt, line, pos) == home + text + fin + goto;
  }

  lemma PromptWrites(prompt: seq<Rune>)
    requires SgrOnly(prompt)
    ensures Writes(prompt, Tokenize(prompt))
  {
    PromptDraws(Term(0, 0, false, map[]), 1, prompt);
  }

  // ---- where the prompt stands ------------------------------------------------------------------------

  /** The prompt's first row, and the screen as it was when that row was started. */
  datatype Place = Place(base: nat, above: map<int, Rune>)

  /** The screen that keeps what is above the place, then has the text, then nothing. */
  function Page(w: nat, place: Place, text: seq<Rune>): map<int, Rune>
  {
    var from := Cell(w, place.base, 0);
    (map k | k in place.above && k < from :: place.above[k]) + (map k | from <= k < from + |text| :: RuneAt(text, from, k))
  }

  function RuneAt(text: seq<Rune>, from: int, k: int): Rune
    requires from <= k < from + |text|
  {
    text[k - from]
  }

  /** The terminal with the text wrapped from the place on and the cursor on cell `cur` of it. */
  function Drawn(w: nat, place: Place, text: seq<Rune>, cur: nat): Term
    requires w > 0
  {
    Term(place.base + cur / w, cur % w, false, Page(w, place, text))
  }

  /** Above the place the screen is as it was. */
  ghost predicate Untouched(cells: map<int, Rune>, w: nat, place: Place)
  {
    forall k :: k < Cell(w, place.base, 0) ==>
      (k in cells <==> k in place.above) && (k in cells ==> cells[k] == place.above[k])
  }

  lemma PageOf(cells: map<int, Rune>, w: nat, place: Place, text: seq<Rune>)
    requires Holds(cells, place.above, Cell(w, place.base, 0), text) && BlankFrom(cells, Cell(w, place.base, 0) + |text|)
    ensures cells == Page(w, place, text)
  {
    hide Cell;
  }

  lemma PageUntouched(w: nat, place: Place, text: seq<Rune>)
    ensures Untouched(Page(w, place, text), w, place) && BlankFrom(Page(w, place, text), Cell(w, place.base, 0) + |text|)
  {
    hide Cell;
  }

  lemma ShowsDrawn(t: Term, w: nat, place: Place, text: seq<Rune>, cur: nat, kept: map<int, Rune>)
    requires w > 0 && Shows(t, w, place.base, text, cur, kept) && Untouched(kept, w, place)
    ensures t == Drawn(w, place, text, cur)
  {
    HoldsAlso(t.cells, kept, w, place, text);
    PageOf(t.cells, w, place, text);
  }

  lemma HoldsAlso(cells: map<int, Rune>, kept: map<int, Rune>, w: nat, place: Place, text: seq<Rune>)
    requires Holds(cells, kept, Cell(w, place.base, 0), text) && Untouched(kept, w, place)
    ensures Holds(cells, place.above, Cell(w, place.base, 0), text)
  {
    hide Cell;
  }

  /** The rows a text takes before the next one can begin. */
  function Height(w: nat, n: nat): nat
    requires w > 0
  {
    if n > 0 && n % w == 0 then n / w else n / w + 1
  }

  /** Where the text below a drawn text begins. */
  function NextRowOf(w: nat, place: Place, text: seq<Rune>): Place
    requires w > 0
  {
    Place(place.base + |text| / w + 1, Page(w, place, text))
  }

  lemma BreakLands(w: nat, place: Place, text: seq<Rune>)
    requires w > 0
    ensures var below := NextRowOf(w, place, text);
      FeedAll(Drawn(w, place, text, |text|), w, [Cr] + [Lf]) == Term(below.base, 0, false, below.above)
  {
    hide Page;
    var t := Drawn(w, place, text, |text|);
    FeedOne(t, w, Cr);
    FeedSnoc(t, w, [Cr], Lf);
  }

  lemma RowsBelow(w: nat, base: nat, n: nat)
    requires w > 0
    ensures Cell(w, base, 0) + n <= Cell(w, base + n / w + 1, 0)
  {
    CellOf(n, w, base);
    assert (base + n / w + 1) * w == (base + n / w) * w + w;
  }

  /** Listing some text between two line breaks. */
  lemma ListingLands(w: nat, place: Place, text: seq<Rune>, listing: seq<Rune>)
    requires w > 0
    ensures var below := NextRowOf(w, place, text);
      var u := FeedAll(Drawn(w, place, text, |text|), w, [Cr] + [Lf] + LineTokens(listing) + ([Cr] + [Lf]));
      u.row == below.base + Height(w, |listing|) && u.cells == Page(w, below, listing)
  {
    hide Page, FeedAll, Holds, BlankFrom, Cell, LineTokens, Valid, Height, NextCell;
    var below, t := NextRowOf(w, place, text), Drawn(w, place, text, |text|);
    var t1 := Term(below.base, 0, false, below.above);
    BreakLands(w, place, text);
    PageUntouched(w, place, text);
    RowsBelow(w, place.base, |text|);
    BlankLater(below.above, Cell(w, place.base, 0) + |text|, Cell(w, below.base, 0));
    DrawText(t1, w, below.base, listing);
    DrawBlank(t1, w, below.base, listing);
    var u := FeedAll(t1, w, LineTokens(listing));
    PageOf(u.cells, w, below, listing);
    FeedAppend(t, w, [Cr] + [Lf], LineTokens(listing));
    FeedAppend(t, w, [Cr] + [Lf] + LineTokens(listing), [Cr] + [Lf]);
    AfterListing(u, w, below.base, |listing|);
  }

  lemma BlankLater(cells: map<int, Rune>, j: int, k: int)
    requires BlankFrom(cells, j) && j <= k
    ensures BlankFrom(cells, k)
  {
  }

  lemma AfterListing(u: Term, w: nat, base: nat, n: nat)
    requires w > 0 && Valid(u, w) && base <= u.row && NextCell(u, w) == Cell(w, base, 0) + n
    requires if n == 0 then !u.pending else u.pending || u.col > 0
    ensures var v := FeedAll(u, w, [Cr] + [Lf]); v.row == base + Height(w, n) && v.cells == u.cells
  {
    AfterText(u, w, base, n);
    FeedOne(u, w, Cr);
    FeedSnoc(u, w, [Cr], Lf);
  }

  // ---- editing keys -----------------------------------------------------------------------------

  /** Proposes a new line and cursor, and the choices to list when the completion is ambiguous. */
  type Completer = (seq<Rune>, nat) -> (seq<Rune>, int, seq<seq<Rune>>)

  /** The local variables of ReadLine. */
  datatype Line = Line(text: seq<Rune>, pos: nat, hist: nat, draft: seq<Rune>)

  /** What a key does to the screen besides changing the line. */
  datatype Effect = Nothing | Redraw | ClearScreen | ListChoices(choices: seq<seq<Rune>>) | Ring

  datatype Verdict = Edited(l: Line, effect: Effect) | Entered | Interrupted | EndOfFile

  datatype Config = Config(history: seq<seq<Rune>>, maxLen: nat, complete: Option<Completer>)

  /** unicode.IsSpace. */
  predicate IsSpace(r: Rune)
  {
    || 0x09 <= r <= 0x0d || r == 0x20 || r == 0x85 || r == 0xA0 || r == 0x1680 || 0x2000 <= r <= 0x200a
    || r == 0x2028 || r == 0x2029 || r == 0x202f || r == 0x205f || r == 0x3000
  }

  /** Going left from i over spaces, or over everything else. */
  function SkipLeft(text: seq<Rune>, i: nat, spaces: bool): (k: nat)
    requires i <= |text|
    ensures k <= i
    ensures forall j :: k <= j < i ==> IsSpace(text[j]) == spaces
    ensures k > 0 ==> IsSpace(text[k - 1]) != spaces
  {
    if i > 0 && IsSpace(text[i - 1]) == spaces then SkipLeft(text, i - 1, spaces) else i
  }

  function WordStart(text: seq<Rune>, pos: nat): nat
    requires pos <= |text|
  {
    SkipLeft(text, SkipLeft(text, pos, true), false)
  }

  function Clamp(p: int, n: nat): nat { Min(Max(p, 0), n) }

  predicate LineOk(c: Config, l: Line)
  {
    l.pos <= |l.text| && l.hist <= |c.history|
  }

  function EditTab(c: Config, l: Line): Verdict
    requires LineOk(c, l)
  {
    if c.complete.None? then Edited(l, Nothing)
    else
      var (text, pos, choices) := c.complete.value(l.text, l.pos);
      var l' := if |text| <= c.maxLen then l.(text := text, pos := Clamp(pos, |text|)) else l;
      Edited(l', if choices != [] then ListChoices(choices) else Redraw)
  }

  function EditHistory(c: Config, l: Line, up: bool): Verdict
    requires LineOk(c, l)
  {
    if up then
      if l.hist == 0 then Edited(l, Nothing)
      else
        var draft := if l.hist == |c.history| then l.text else l.draft;
        var text := c.history[l.hist - 1];
        Edited(Line(text, |text|, l.hist - 1, draft), Redraw)
    else if l.hist >= |c.history| then Edited(l, Nothing)
    else
      var text := if l.hist + 1 == |c.history| then l.draft else c.history[l.hist + 1];
      Edited(Line(text, |text|, l.hist + 1, l.draft), Redraw)
  }

  predicate Erases(k: Key)
  {
    k == KEY_CTRL_D || k == KEY_DELETE || k == KEY_BACKSPACE || k == KEY_CTRL_U || k == KEY_CTRL_K || k == KEY_CTRL_W
  }

  /** The keys that remove text. */
  function Erase(l: Line, k: Key): Line
    requires l.pos <= |l.text|
  {
    var text, pos := l.text, l.pos;
    if k == KEY_CTRL_D || k == KEY_DELETE then
      if pos < |text| then l.(text := text[..pos] + text[pos + 1..]) else l
    else if k == KEY_BACKSPACE then
      if pos > 0 then l.(text := text[..pos - 1] + text[pos..], pos := pos - 1) else l
    else if k == KEY_CTRL_U then l.(text := text[pos..], pos := 0)
    else if k == KEY_CTRL_K then l.(text := text[..pos])
    else if k == KEY_CTRL_W then
      var start := WordStart(text, pos);
      l.(text := text[..start] + text[pos..], pos := start)
    else l
  }

  predicate Moves(k: Key)
  {
    k == KEY_LEFT || k == KEY_RIGHT || k == KEY_HOME || k == KEY_CTRL_A || k == KEY_END || k == KEY_CTRL_E
  }

  /** The keys that move the cursor. */
  function Move(l: Line, k: Key): Line
  {
    if k == KEY_LEFT then if l.pos > 0 then l.(pos := l.pos - 1) else l
    else if k == KEY_RIGHT then if l.pos < |l.text| then l.(pos := l.pos + 1) else l
    else if k == KEY_HOME || k == KEY_CTRL_A then l.(pos := 0)
    else if k == KEY_END || k == KEY_CTRL_E then l.(pos := |l.text|)
    else l
  }

  function Insert(c: Config, l: Line, k: Key): Verdict
    requires l.pos <= |l.text|
  {
    if |l.text| >= c.maxLen then Edited(l, Ring)
    else Edited(l.(text := l.text[..l.pos] + [k] + l.text[l.pos..], pos := l.pos + 1), Redraw)
  }

  /** One pass of ReadLine's switch. */
  function Edit(c: Config, l: Line, k: Key): Verdict
    requires LineOk(c, l)
  {
    if k == KEY_ENTER then Entered
    else if k == KEY_CTRL_C then Interrupted
    else if k == KEY_CTRL_D && l.text == [] then EndOfFile
    else if Erases(k) then Edited(Erase(l, k), Redraw)
    else if Moves(k) then Edited(Move(l, k), Redraw)
    else if k == KEY_CTRL_L then Edited(l, ClearScreen)
    else if k == KEY_UP || k == KEY_DOWN then EditHistory(c, l, k == KEY_UP)
    else if k == KEY_TAB then EditTab(c, l)
    else if Printable(k) then Insert(c, l, k)
    else Edited(l, Nothing)
  }

  /** A key that writes nothing, or only rings the bell, leaves the line alone. */
  lemma QuietKeys(c: Config, l: Line, k: Key)
    requires LineOk(c, l)
    ensures var v := Edit(c, l, k); v.Edited? && (v.effect.Nothing? || v.effect.Ring?) ==> v.l == l
  {
  }

  // ---- the editing keys against a simple editor --------------------------------------------------

  /** A line as the text before the cursor and the text after it. */
  datatype Halves = Halves(left: seq<Rune>, right: seq<Rune>)

  function HalvesOf(l: Line): Halves
    requires l.pos <= |l.text|
  {
    Halves(l.text[..l.pos], l.text[l.pos..])
  }

  /** Without its last run of spaces, or of anything else. */
  function DropRun(s: seq<Rune>, spaces: bool): seq<Rune>
  {
    if s != [] && IsSpace(s[|s| - 1]) == spaces then DropRun(s[..|s| - 1], spaces) else s
  }

  function Init(s: seq<Rune>): seq<Rune> { if s == [] then [] else s[..|s| - 1] }

  function Tail(s: seq<Rune>): seq<Rune> { if s == [] then [] else s[1..] }

  /** What each editing key means. */
  function Meaning(c: Config, h: Halves, k: Key): Halves
  {
    if k == KEY_CTRL_D || k == KEY_DELETE then h.(right := Tail(h.right))
    else if k == KEY_BACKSPACE then h.(left := Init(h.left))
    else if k == KEY_CTRL_U then h.(left := [])
    else if k == KEY_CTRL_K then h.(right := [])
    else if k == KEY_CTRL_W then h.(left := DropRun(DropRun(h.left, true), false))
    else if k == KEY_LEFT then
      if h.left == [] then h else Halves(Init(h.left), [h.left[|h.left| - 1]] + h.right)
    else if k == KEY_RIGHT then
      if h.right == [] then h else Halves(h.left + [h.right[0]], Tail(h.right))
    else if k == KEY_HOME || k == KEY_CTRL_A then Halves([], h.left + h.right)
    else if k == KEY_END || k == KEY_CTRL_E then Halves(h.left + h.right, [])
    else if |h.left| + |h.right| < c.maxLen then h.(left := h.left + [k]) else h
  }

  lemma {:induction false} DropsRun(text: seq<Rune>, i: nat, spaces: bool)
    requires i <= |text|
    ensures DropRun(text[..i], spaces) == text[..SkipLeft(text, i, spaces)]
  {
    hide IsSpace;
    if i > 0 && IsSpace(text[i - 1]) == spaces {
      assert text[..i][..i - 1] == text[..i - 1];
      DropsRun(text, i - 1, spaces);
    }
  }

  lemma EraseMeans(c: Config, l: Line, k: Key)
    requires l.pos <= |l.text| && Erases(k)
    ensures Erase(l, k).pos <= |Erase(l, k).text| && HalvesOf(Erase(l, k)) == Meaning(c, HalvesOf(l), k)
  {
    hide DropRun, SkipLeft;
    var text, pos := l.text, l.pos;
    DropsRun(text, pos, true);
    DropsRun(text, SkipLeft(text, pos, true), false);
    var start := if k == KEY_CTRL_W then WordStart(text, pos) else if k == KEY_BACKSPACE && pos > 0 then pos - 1 else pos;
    if k == KEY_CTRL_D || k == KEY_DELETE {
      if pos < |text| {
        CutHalves(text, pos, pos + 1);
      }
    } else {
      CutHalves(text, start, pos);
    }
  }

  /** Cutting text[i..j] leaves what was before it and what was after it. */
  lemma CutHalves(text: seq<Rune>, i: nat, j: nat)
    requires i <= j <= |text|
    ensures var t := text[..i] + text[j..]; t[..i] == text[..i] && t[i..] == text[j..]
  {
  }

  lemma MoveMeans(c: Config, l: Line, k: Key)
    requires l.pos <= |l.text| && Moves(k)
    ensures Move(l, k).pos <= |Move(l, k).text| && HalvesOf(Move(l, k)) == Meaning(c, HalvesOf(l), k)
  {
    WholeText(l.text, l.pos);
    if k == KEY_LEFT && l.pos > 0 {
      CursorLeft(l.text, l.pos);
    } else if k == KEY_RIGHT && l.pos < |l.text| {
      CursorLeft(l.text, l.pos + 1);
    }
  }

  lemma WholeText(text: seq<Rune>, pos: nat)
    requires pos <= |text|
    ensures text[..pos] + text[pos..] == text && text[..|text|] == text && text[..0] == [] && text[|text|..] == [] && text[0..] == text
  {
  }

  /** Moving left takes the last rune before the cursor to the front of what follows. */
  lemma CursorLeft(text: seq<Rune>, pos: nat)
    requires 0 < pos <= |text|
    ensures text[pos - 1..] == [text[pos - 1]] + text[pos..] && text[..pos] == text[..pos - 1] + [text[pos - 1]]
    ensures Init(text[..pos]) == text[..pos - 1] && Tail(text[pos - 1..]) == text[pos..]
  {
  }

  lemma InsertMeans(c: Config, l: Line, k: Key)
    requires l.pos <= |l.text| && !Erases(k) && !Moves(k)
    ensures var v := Insert(c, l, k); v.Edited? && v.l.pos <= |v.l.text| && HalvesOf(v.l) == Meaning(c, HalvesOf(l), k)
  {
    var t := l.text[..l.pos] + [k] + l.text[l.pos..];
    assert t[..l.pos + 1] == l.text[..l.pos] + [k] && t[l.pos + 1..] == l.text[l.pos..];
  }

  /** The index arithmetic of ReadLine's switch does to the line what the keys mean. */
  lemma KeysMean(c: Config, l: Line, k: Key)
    requires LineOk(c, l)
    requires Erases(k) || Moves(k) || Printable(k)
    ensures var v := Edit(c, l, k);
      if k == KEY_CTRL_D && l.text == [] then v.EndOfFile?
      else v.Edited? && v.l.pos <= |v.l.text| && HalvesOf(v.l) == Meaning(c, HalvesOf(l), k)
  {
    hide Meaning, HalvesOf, Erase, Move, Insert, EditHistory, EditTab;
    if Erases(k) {
      EraseMeans(c, l, k);
    } else if Moves(k) {
      MoveMeans(c, l, k);
    } else {
      InsertMeans(c, l, k);
    }
  }

  /** Pressing Up or Down several times. */
  function Recall(c: Config, l: Line, times: nat, up: bool): (r: Line)
    requires LineOk(c, l)
    ensures LineOk(c, r)
  {
    if times == 0 then l else EditHistory(c, Recall(c, l, times - 1, up), up).l
  }

  /** Going up shows the history from its end; the line being edited is kept as the draft. */
  lemma {:induction false} GoingUp(c: Config, l: Line, k: nat)
    requires LineOk(c, l) && l.hist == |c.history| && k <= |c.history|
    ensures var h := |c.history| - k;
      Recall(c, l, k, true) == if k == 0 then l else Line(c.history[h], |c.history[h]|, h, l.text)
  {
    if k > 0 {
      GoingUp(c, l, k - 1);
    }
  }

  lemma {:induction false} GoingDown(c: Config, l: Line, k: nat)
    requires LineOk(c, l) && k <= |c.history| - l.hist
    ensures var h := l.hist + k;
      var text := if h == |c.history| then l.draft else c.history[h];
      Recall(c, l, k, false) == if k == 0 then l else Line(text, |text|, h, l.draft)
  {
    if k > 0 {
      GoingDown(c, l, k - 1);
    }
  }

  /** Looking through the history loses nothing: as many steps down as up give the edited line back. */
  lemma HistoryRoundTrip(c: Config, l: Line, k: nat)
    requires LineOk(c, l) && l.hist == |c.history| && 0 < k <= |c.history|
    ensures Recall(c, Recall(c, l, k, true), k, false) == Line(l.text, |l.text|, l.hist, l.text)
  {
    hide Recall;
    GoingUp(c, l, k);
    GoingDown(c, Recall(c, l, k, true), k);
  }

  /** The keys that neither erase, move nor insert. Tab takes the completer's line if it fits, with the
      cursor kept inside it; Ctrl-L and unknown keys leave the line alone; at the ends of the history Up and
      Down do nothing. */
  lemma OtherKeysMean(c: Config, l: Line, k: Key)
    requires LineOk(c, l) && k != KEY_ENTER && k != KEY_CTRL_C && !Erases(k) && !Moves(k) && !Printable(k)
    ensures !(0x20 <= k <= 0x10FFFF && k != 0x7f)
    ensures k == KEY_CTRL_L ==> Edit(c, l, k) == Edited(l, ClearScreen)
    ensures k == KEY_TAB && c.complete.None? ==> Edit(c, l, k) == Edited(l, Nothing)
    ensures k == KEY_TAB && c.complete.Some? ==>
      var (text, pos, choices) := c.complete.value(l.text, l.pos);
      var v := Edit(c, l, k);
      && v.Edited? && (if choices == [] then v.effect.Redraw? else v.effect == ListChoices(choices))
      && v.l == (if |text| <= c.maxLen
                 then Line(text, if pos < 0 then 0 else if pos > |text| then |text| else pos, l.hist, l.draft) else l)
    ensures k == KEY_UP && l.hist == 0 ==> Edit(c, l, k) == Edited(l, Nothing)
    ensures k == KEY_DOWN && l.hist == |c.history| ==> Edit(c, l, k) == Edited(l, Nothing)
    ensures k !in {KEY_CTRL_L, KEY_TAB, KEY_UP, KEY_DOWN} ==> Edit(c, l, k) == Edited(l, Nothing)
  {
  }

  // ---- what a line may hold ------------------------------------------------------------------------

  predicate Clean(s: seq<Rune>) { forall i :: 0 <= i < |s| ==> Printable(s[i]) }

  /** Printable text no longer than the limit. */
  predicate Fits(c: Config, s: seq<Rune>) { Clean(s) && |s| <= c.maxLen }

  predicate CleanAll(ss: seq<seq<Rune>>) { forall i :: 0 <= i < |ss| ==> Clean(ss[i]) }

  /** A completer proposes and lists printable text. */
  ghost predicate Proposes(f: Completer) { forall s, p :: Clean(s) ==> Clean(f(s, p).0) && CleanAll(f(s, p).2) }

  ghost predicate ConfigOk(c: Config)
  {
    && (forall i :: 0 <= i < |c.history| ==> Fits(c, c.history[i]))
    && (c.complete.Some? ==> Proposes(c.complete.value))
  }

  predicate TextOk(c: Config, l: Line) { LineOk(c, l) && Fits(c, l.text) && Fits(c, l.draft) }

  lemma CutClean(s: seq<Rune>, i: nat, j: nat)
    requires i <= j <= |s| && Clean(s)
    ensures Clean(s[..i] + s[j..]) && Clean(s[j..]) && Clean(s[..i])
  {
  }

  lemma InsertClean(s: seq<Rune>, i: nat, r: Rune)
    requires i <= |s| && Clean(s) && Printable(r)
    ensures Clean(s[..i] + [r] + s[i..])
  {
  }

  lemma HistoryClean(c: Config, i: nat)
    requires ConfigOk(c) && i < |c.history|
    ensures Fits(c, c.history[i])
  {
  }

  lemma EraseFits(c: Config, l: Line, k: Key)
    requires TextOk(c, l)
    ensures TextOk(c, Erase(l, k))
  {
    var text, pos := l.text, l.pos;
    hide Clean;
    CutClean(text, pos, pos);
    CutClean(text, WordStart(text, pos), pos);
    if pos < |text| {
      CutClean(text, pos, pos + 1);
    }
    if pos > 0 {
      CutClean(text, pos - 1, pos);
    }
  }

  lemma RecallFits(c: Config, l: Line, up: bool)
    requires ConfigOk(c) && TextOk(c, l)
    ensures TextOk(c, EditHistory(c, l, up).l)
  {
    hide Clean, ConfigOk;
    if 0 < l.hist {
      HistoryClean(c, l.hist - 1);
    }
    if l.hist + 1 < |c.history| {
      HistoryClean(c, l.hist + 1);
    }
  }

  lemma TabFits(c: Config, l: Line)
    requires ConfigOk(c) && TextOk(c, l)
    ensures TextOk(c, EditTab(c, l).l)
  {
    if c.complete.Some? {
      assert Clean(c.complete.value(l.text, l.pos).0);
    }
  }

  /** Whatever is typed, recalled or completed, the line stays printable and within its limit: every
      rune of it occupies exactly one cell. */
  lemma EditKeepsText(c: Config, l: Line, k: Key)
    requires ConfigOk(c) && TextOk(c, l)
    ensures var v := Edit(c, l, k); v.Edited? ==> TextOk(c, v.l)
  {
    hide Clean, ConfigOk, Erase, EditHistory, EditTab;
    EraseFits(c, l, k);
    RecallFits(c, l, k == KEY_UP);
    TabFits(c, l);
    if Printable(k) {
      InsertClean(l.text, l.pos, k);
    }
  }

  lemma ListsClean(c: Config, l: Line, k: Key)
    requires ConfigOk(c) && TextOk(c, l)
    ensures var v := Edit(c, l, k); v.Edited? && v.effect.ListChoices? ==> CleanAll(v.effect.choices)
  {
    hide Clean, Erase, Move;
    if c.complete.Some? {
      assert CleanAll(c.complete.value(l.text, l.pos).2);
    }
  }

  lemma {:induction false} JoinClean(choices: seq<seq<Rune>>)
    requires CleanAll(choices)
    ensures Plainly(Join(choices))
  {
    if |choices| > 1 {
      JoinClean(choices[1..]);
    }
  }

  // ---- whole calls of ReadLine ----------------------------------------------------------------------

  /** What the select of ReadLine may deliver. */
  datatype Input = Press(key: Key) | ChannelClosed | TimedOut | ContextDone

  datatype Result = Text(text: seq<Rune>) | ErrInterrupt | ErrEof | ErrIdle | ErrContext

  /** ReadLine still waits for input, or has returned. */
  datatype Progress = Reading(l: Line) | Returned(r: Result)

  function Advance(c: Config, l: Line, i: Input): Progress
    requires LineOk(c, l)
  {
    match i
    case ChannelClosed => Returned(ErrEof)
    case TimedOut => Returned(ErrIdle)
    case ContextDone => Returned(ErrContext)
    case Press(k) =>
      match Edit(c, l, k)
      case Edited(l', _) => Reading(l')
      case Entered => Returned(Text(l.text))
      case Interrupted => Returned(ErrInterrupt)
      case EndOfFile => Returned(ErrEof)
  }

  /** The state of a call after the given inputs; those after a return are not read. */
  function ReadAll(c: Config, inputs: seq<Input>): (p: Progress)
    ensures p.Reading? ==> LineOk(c, p.l)
  {
    if inputs == [] then Reading(Line([], 0, |c.history|, []))
    else
      var p := ReadAll(c, inputs[..|inputs| - 1]);
      if p.Returned? then p else Advance(c, p.l, inputs[|inputs| - 1])
  }

  predicate Blank(s: seq<Rune>) { forall i :: 0 <= i < |s| ==> IsSpace(s[i]) }

  /** addHistory: no blank lines, no immediate repeats, at most the last 200. */
  function AddHistory(history: seq<seq<Rune>>, line: seq<Rune>): seq<seq<Rune>>
  {
    if Blank(line) || (history != [] && history[|history| - 1] == line) then history
    else Suffix(history + [line], MAX_HISTORY)
  }

  /** strings.Join(choices, "  "). */
  function Join(choices: seq<seq<Rune>>): seq<Rune>
  {
    if choices == [] then [] else if |choices| == 1 then choices[0] else choices[0] + [0x20, 0x20] + Join(choices[1..])
  }

  /** Where the prompt stands after a key, given the edited line and the key's effect. */
  function Moved(w: nat, prompt: seq<Rune>, place: Place, l: Line, effect: Effect): Place
    requires w > 0
  {
    match effect
    case ClearScreen => Place(0, map[])
    case ListChoices(choices) =>
      var below := NextRowOf(w, place, VisibleText(prompt) + l.text);
      Place(below.base + Height(w, |Join(choices)|), Page(w, below, Join(choices)))
    case _ => place
  }

  /** Where the prompt stands after the given inputs. */
  function PlaceAfter(c: Config, w: nat, prompt: seq<Rune>, start: Place, inputs: seq<Input>): Place
    requires w > 0
  {
    if inputs == [] then start
    else
      var init, last := inputs[..|inputs| - 1], inputs[|inputs| - 1];
      var p, here := ReadAll(c, init), PlaceAfter(c, w, prompt, start, init);
      if p.Returned? || !last.Press? then here
      else match Edit(c, p.l, last.key)
        case Edited(l, effect) => Moved(w, prompt, here, l, effect)
        case _ => here
  }

  lemma FreshUntouched(w: nat, place: Place)
    ensures Untouched(place.above, w, place)
  {
  }

  lemma DrawnUntouched(w: nat, place: Place, text: seq<Rune>, cur: nat)
    requires w > 0
    ensures Untouched(Drawn(w, place, text, cur).cells, w, place) && Drawn(w, place, text, cur).row == place.base + cur / w
  {
    PageUntouched(w, place, text);
  }

  lemma NoTextOk(c: Config)
    ensures TextOk(c, Line([], 0, |c.history|, []))
  {
  }

  lemma ClearWrites(t: Term, w: nat)
    ensures ParserAfter(ControlText([], 72) + ControlText([50], 74)) == Showing
    ensures FeedAll(t, w, Tokenize(ControlText([], 72) + ControlText([50], 74))) == Term(0, 0, false, map[])
  {
    hide ControlText, Tokenize, ParserAfter;
    TokenizeErase();
    TokenizeAppend(ControlText([], 72), ControlText([50], 74));
    FeedOne(t, w, Home);
    FeedSnoc(t, w, [Home], EraseAll);
  }

  lemma ListingText(s: seq<Rune>)
    requires Plainly(s)
    ensures Writes(s + [CR_RUNE, LF_RUNE], LineTokens(s) + ([Cr] + [Lf]))
  {
    hide Tokenize, ParserAfter, LineTokens;
    TokenizeLine(s);
    TokenizeBreak();
    WritesBoth(s, LineTokens(s), [CR_RUNE, LF_RUNE], [Cr] + [Lf]);
  }

  lemma ListingWrites(choices: seq<seq<Rune>>)
    requires CleanAll(choices)
    ensures Writes([CR_RUNE, LF_RUNE] + Join(choices) + [CR_RUNE, LF_RUNE], [Cr] + [Lf] + LineTokens(Join(choices)) + ([Cr] + [Lf]))
  {
    hide Tokenize, ParserAfter, LineTokens;
    JoinClean(choices);
    hide Join;
    TokenizeLine(Join(choices));
    TokenizeBreak();
    WritesBoth([CR_RUNE, LF_RUNE], [Cr] + [Lf], Join(choices), LineTokens(Join(choices)));
    WritesBoth([CR_RUNE, LF_RUNE] + Join(choices), [Cr] + [Lf] + LineTokens(Join(choices)), [CR_RUNE, LF_RUNE], [Cr] + [Lf]);
  }

  class LineEditor {
    const width: nat
    const maxLen: nat
    const complete: Option<Completer>
    var history: seq<seq<Rune>>
    var cursorRow: nat // rows between the prompt's first row and the cursor
    var screen: Term   // the terminal behind Out

    ghost var place: Place // where the prompt stands

    ghost function Cfg(): Config
      reads this
    {
      Config(history, maxLen, complete)
    }

    ghost predicate Valid()
      reads this
    {
      width > 0 && maxLen > 0 && ConfigOk(Cfg()) && |history| <= MAX_HISTORY
    }

    /** The terminal shows what was above the prompt, the prompt, the line l and nothing else, with the
        cursor at l.pos, and cursorRow knows where that is. */
    ghost predicate Displays(prompt: seq<Rune>, l: Line)
      requires width > 0
      reads this
    {
      && screen == Drawn(width, place, VisibleText(prompt) + l.text, |VisibleText(prompt)| + l.pos)
      && cursorRow == (|VisibleText(prompt)| + l.pos) / width
    }

    constructor (width: int, maxLen: int, complete: Option<Completer>, screen: Term)
      requires complete.Some? ==> Proposes(complete.value)
      ensures Valid() && this.screen == screen && history == []
      ensures this.width == (if width > 0 then width else 80) && this.complete == complete
      ensures this.maxLen == if maxLen > 0 then maxLen else DEFAULT_MAX_LEN
    {
      this.width := if width > 0 then width else 80;
      this.maxLen := if maxLen > 0 then maxLen else DEFAULT_MAX_LEN;
      this.complete, this.screen := complete, screen;
      history, cursorRow, place := [], 0, Place(screen.row, screen.cells);
    }

    /** Writes text that leaves no escape sequence open. */
    method Write(text: seq<Rune>)
      requires ParserAfter(text) == Showing
      modifies this`screen
      ensures screen == FeedAll(old(screen), width, Tokenize(text))
    {
      screen := FeedAll(screen, width, Tokenize(text));
    }

    /** Redraws prompt and line from the prompt's first row and leaves the cursor at l.pos. */
    method Render(prompt: seq<Rune>, l: Line)
      requires width > 0 && SgrOnly(prompt) && Clean(l.text) && l.pos <= |l.text|
      requires screen.row == place.base + cursorRow && Untouched(screen.cells, width, place)
      modifies this`screen, this`cursorRow
      ensures Displays(prompt, l)
    {
      hide VisibleText, ScanOf, FeedAll, Shows, Drawn, Untouched, Tokenize, ParserAfter, RenderTokens, RenderText;
      var b, tRow := BuildText(prompt, l);
      RenderWrites(width, cursorRow, prompt, l.text, l.pos);
      RenderShows(screen, width, place.base, cursorRow, prompt, l.text, l.pos);
      ghost var kept := screen.cells;
      cursorRow := tRow;
      Write(b);
      ShowsDrawn(screen, width, place, VisibleText(prompt) + l.text, |VisibleText(prompt)| + l.pos, kept);
    }

    /** The string that render builds, and the row it leaves the cursor on. */
    method BuildText(prompt: seq<Rune>, l: Line) returns (b: seq<Rune>, tRow: nat)
      requires width > 0 && l.pos <= |l.text|
      ensures b == RenderText(width, cursorRow, prompt, l.text, l.pos)
      ensures tRow == (|VisibleText(prompt)| + l.pos) / width
    {
      hide ControlText, Decimal, VisibleText, ScanOf;
      var w := width;
      b := if cursorRow > 0 then ControlText(Decimal(cursorRow), 65) else [];
      b := b + [CR_RUNE];
      b := b + prompt;
      b := b + l.text;
      var plen := VisibleLen(prompt);
      var end, target := plen + |l.text|, plen + l.pos;
      b := b + if end > 0 && end % w == 0 then [CR_RUNE, LF_RUNE] else [];
      b := b + ControlText([], 74);
      var endRow, tCol := end / w, target % w;
      tRow := target / w;
      b := b + if endRow > tRow then ControlText(Decimal(endRow - tRow), 65) else [];
      b := b + [CR_RUNE];
      b := b + if tCol > 0 then ControlText(Decimal(tCol), 67) else [];
    }

    /** Starts a fresh prompt on the terminal's current row. */
    method StartRow()
      modifies this`cursorRow, this`place
      ensures cursorRow == 0 && place == Place(screen.row, screen.cells)
    {
      cursorRow := 0;
      place := Place(screen.row, screen.cells);
    }

    /** What ReadLine writes after an editing key. The prompt moves only when the screen is cleared or
        choices are listed, and then to a known place. */
    method ShowEdit(prompt: seq<Rune>, before: Line, l: Line, effect: Effect)
      requires width > 0 && SgrOnly(prompt) && Clean(l.text) && l.pos <= |l.text| && Displays(prompt, before)
      requires effect.Nothing? || effect.Ring? ==> l == before
      requires effect.ListChoices? ==> CleanAll(effect.choices)
      modifies this`screen, this`cursorRow, this`place
      ensures Displays(prompt, l)
      ensures place == Moved(width, prompt, old(place), l, effect)
    {
      hide VisibleText, ScanOf, FeedAll, Page, Untouched, Tokenize, ParserAfter, ControlText, Height;
      PageUntouched(width, place, VisibleText(prompt) + before.text);
      match effect {
        case Nothing =>
          return;
        case Ring =>
          TokenizeBreak();
          FeedOne(screen, width, Bell);
          Write([BEL_RUNE]);
          return;
        case Redraw =>
        case ClearScreen =>
          ClearWrites(screen, width);
          Write(ControlText([], 72) + ControlText([50], 74));
          StartRow();
          FreshUntouched(width, place);
        case ListChoices(choices) =>
          Render(prompt, l.(pos := |l.text|));
          ListingWrites(choices);
          ListingLands(width, place, VisibleText(prompt) + l.text, Join(choices));
          Write([CR_RUNE, LF_RUNE] + Join(choices) + [CR_RUNE, LF_RUNE]);
          StartRow();
          FreshUntouched(width, place);
      }
      Render(prompt, l);
    }

    /** Redraws with the cursor behind the line, writes the mark and goes to the next row. */
    method LeaveLine(prompt: seq<Rune>, l: Line, mark: seq<Rune>)
      requires width > 0 && SgrOnly(prompt) && Clean(l.text) && l.pos <= |l.text| && Displays(prompt, l) && Plainly(mark)
      modifies this`screen, this`cursorRow
      ensures cursorRow == 0
      ensures mark == [] ==>
        var below := NextRowOf(width, place, VisibleText(prompt) + l.text); screen == Term(below.base, 0, false, below.above)
    {
      hide Drawn, FeedAll, VisibleText, ScanOf, SgrPrefix, Untouched, Tokenize, ParserAfter, Clean;
      DrawnUntouched(width, place, VisibleText(prompt) + l.text, |VisibleText(prompt)| + l.pos);
      Render(prompt, l.(pos := |l.text|));
      ListingText(mark);
      BreakLands(width, place, VisibleText(prompt) + l.text);
      assert mark == [] ==> LineTokens(mark) + ([Cr] + [Lf]) == [Cr] + [Lf];
      Write(mark + [CR_RUNE, LF_RUNE]);
      cursorRow := 0;
    }

    /** addHistory. */
    method Remember(line: seq<Rune>)
      requires Valid() && Fits(Cfg(), line)
      modifies this`history
      ensures Valid() && history == AddHistory(old(history), line)
    {
      if Blank(line) {
        return;
      }
      if |history| > 0 && history[|history| - 1] == line {
        return;
      }
      history := history + [line];
      if |history| > MAX_HISTORY {
        history := history[|history| - MAX_HISTORY..];
      }
    }

    /** ReadLine fed with the given inputs. While it waits for more, the terminal is exactly the screen
        that the call found, with the prompt and the line edited so far drawn from the prompt's place on;
        that place is where the call started, unless the screen was cleared or choices were listed. After
        Enter the cursor is at the start of the row below. It returns what the keys say. */
    method ReadLine(prompt: seq<Rune>, inputs: seq<Input>) returns (p: Progress)
      requires Valid() && SgrOnly(prompt)
      modifies this
      ensures Valid()
      ensures p == old(ReadAll(Cfg(), inputs))
      ensures p.Reading? ==> old(TextOk(Cfg(), p.l)) && Displays(prompt, p.l)
      ensures place == old(PlaceAfter(Cfg(), width, prompt, Place(screen.row, screen.cells), inputs))
      ensures p.Returned? && p.r.Text? ==>
        var below := NextRowOf(width, place, VisibleText(prompt) + p.r.text); screen == Term(below.base, 0, false, below.above)
      ensures history == if p.Returned? && p.r.Text? then AddHistory(old(history), p.r.text) else old(history)
    {
      hide Edit, Drawn, FeedAll, ConfigOk, VisibleText, ScanOf, SgrPrefix, Untouched, Tokenize, ParserAfter, Clean, Moved;
      var l := Line([], 0, |history|, []);
      ghost var c, start := Cfg(), Place(screen.row, screen.cells);
      NoTextOk(c);
      StartRow();
      FreshUntouched(width, place);
      Render(prompt, l);
      for i := 0 to |inputs|
        invariant Cfg() == c && Valid()
        invariant ReadAll(c, inputs[..i]) == Reading(l)
        invariant TextOk(c, l) && Displays(prompt, l)
        invariant place == PlaceAfter(c, width, prompt, start, inputs[..i])
      {
        assert inputs[..i + 1][..i] == inputs[..i];
        var input := inputs[i];
        match input {
          case ChannelClosed =>
            ReturnsForGood(c, width, prompt, start, inputs, i + 1);
            return Returned(ErrEof);
          case TimedOut =>
            ReturnsForGood(c, width, prompt, start, inputs, i + 1);
            return Returned(ErrIdle);
          case ContextDone =>
            ReturnsForGood(c, width, prompt, start, inputs, i + 1);
            return Returned(ErrContext);
          case Press(k) =>
            EditKeepsText(c, l, k);
            QuietKeys(c, l, k);
            ListsClean(c, l, k);
            match Edit(Config(history, maxLen, complete), l, k) {
              case Entered =>
                ReturnsForGood(c, width, prompt, start, inputs, i + 1);
                LeaveLine(prompt, l, []);
                Remember(l.text);
                return Returned(Text(l.text));
              case Interrupted =>
                ReturnsForGood(c, width, prompt, start, inputs, i + 1);
                LeaveLine(prompt, l, [0x5e, 0x43]);
                return Returned(ErrInterrupt);
              case EndOfFile =>
                ReturnsForGood(c, width, prompt, start, inputs, i + 1);
                TokenizeBreak();
                Write([CR_RUNE, LF_RUNE]);
                cursorRow := 0;
                return Returned(ErrEof);
              case Edited(l', effect) =>
                ShowEdit(prompt, l, l', effect);
                l := l';
            }
        }
      }
      assert inputs[..|inputs|] == inputs;
      return Reading(l);
    }
  }

  /** Once a prefix of the inputs made ReadLine return, the rest changes nothing. */
  lemma {:induction false} ReturnsForGood(c: Config, w: nat, prompt: seq<Rune>, start: Place, inputs: seq<Input>, i: nat)
    requires w > 0 && i <= |inputs| && ReadAll(c, inputs[..i]).Returned?
    ensures ReadAll(c, inputs) == ReadAll(c, inputs[..i])
    ensures PlaceAfter(c, w, prompt, start, inputs) == PlaceAfter(c, w, prompt, start, inputs[..i])
    decreases |inputs| - i
  {
    hide Edit, Moved;
    if i == |inputs| {
      assert inputs[..i] == inputs;
    } else {
      assert inputs[..i + 1][..i] == inputs[..i];
      ReturnsForGood(c, w, prompt, start, inputs, i + 1);
    }
  }

  /** Only clearing the screen and listing choices move the prompt. */
  lemma {:induction false} StaysInPlace(c: Config, w: nat, prompt: seq<Rune>, start: Place, inputs: seq<Input>)
    requires w > 0 && forall i :: 0 <= i < |inputs| && inputs[i].Press? ==> inputs[i].key != KEY_CTRL_L && inputs[i].key != KEY_TAB
    ensures PlaceAfter(c, w, prompt, start, inputs) == start
  {
    if inputs != [] {
      StaysInPlace(c, w, prompt, start, inputs[..|inputs| - 1]);
      hide VisibleText, Page, Erase, Move;
    }
  }

  lemma ReadSnoc(c: Config, inputs: seq<Input>, i: Input)
    ensures var p := ReadAll(c, inputs); ReadAll(c, inputs + [i]) == if p.Returned? then p else Advance(c, p.l, i)
  {
    assert (inputs + [i])[..|inputs|] == inputs;
  }

  /** How a call ends: with the line at Enter and only then, with an error for Ctrl-C, for the end of the
      input and Ctrl-D on an empty line, for the idle timeout and for the context, and for nothing else. */
  lemma HowItEnds(c: Config, inputs: seq<Input>, l: Line, i: Input)
    requires ReadAll(c, inputs) == Reading(l)
    ensures var p := ReadAll(c, inputs + [i]);
      && (p.Returned? && p.r.Text? <==> i == Press(KEY_ENTER)) && (i == Press(KEY_ENTER) ==> p == Returned(Text(l.text)))
      && (p == Returned(ErrInterrupt) <==> i == Press(KEY_CTRL_C))
      && (p == Returned(ErrEof) <==> i.ChannelClosed? || (i == Press(KEY_CTRL_D) && l.text == []))
      && (p == Returned(ErrIdle) <==> i.TimedOut?)
      && (p == Returned(ErrContext) <==> i.ContextDone?)
  {
    ReadSnoc(c, inputs, i);
    hide ReadAll, Erase, Move;
  }

  /** The same key several times. */
  function Times(k: Key, n: nat): seq<Input> { seq(n, _ => Press(k)) }

  lemma {:induction false} KeysRecall(c: Config, inputs: seq<Input>, l: Line, n: nat, up: bool)
    requires ReadAll(c, inputs) == Reading(l)
    ensures ReadAll(c, inputs + Times(if up then KEY_UP else KEY_DOWN, n)) == Reading(Recall(c, l, n, up))
  {
    hide ReadAll, EditTab, Erase, Move;
    var k := if up then KEY_UP else KEY_DOWN;
    if n == 0 {
      assert inputs + Times(k, n) == inputs;
    } else {
      KeysRecall(c, inputs, l, n - 1, up);
      ReadSnoc(c, inputs + Times(k, n - 1), Press(k));
      assert inputs + Times(k, n) == inputs + Times(k, n - 1) + [Press(k)];
      assert Edit(c, Recall(c, l, n - 1, up), k) == EditHistory(c, Recall(c, l, n - 1, up), up);
      hide EditHistory;
    }
  }

  /** The history by its keys: after any editing that is not inside the history, n times Up show the n-th
      line from the end with the cursor behind it, and as many times Down give the edited line back. */
  lemma HistoryKeys(c: Config, inputs: seq<Input>, l: Line, n: nat)
    requires ReadAll(c, inputs) == Reading(l) && l.hist == |c.history| && 0 < n <= |c.history|
    ensures var recalled := c.history[|c.history| - n];
      ReadAll(c, inputs + Times(KEY_UP, n)) == Reading(Line(recalled, |recalled|, |c.history| - n, l.text))
    ensures ReadAll(c, inputs + Times(KEY_UP, n) + Times(KEY_DOWN, n)) == Reading(Line(l.text, |l.text|, |c.history|, l.text))
  {
    hide ReadAll, Recall;
    KeysRecall(c, inputs, l, n, true);
    GoingUp(c, l, n);
    KeysRecall(c, inputs + Times(KEY_UP, n), Recall(c, l, n, true), n, false);
    HistoryRoundTrip(c, l, n);
  }

  /** A history without blank lines, immediate repeats or more than the limit. */
  predicate Tidy(history: seq<seq<Rune>>)
  {
    && |history| <= MAX_HISTORY && (forall i :: 0 <= i < |history| ==> !Blank(history[i]))
    && (forall i :: 0 <= i < |history| - 1 ==> history[i] != history[i + 1])
  }

  /** What is remembered: the history stays tidy, every line that is not blank is its last entry
      afterwards, and only the oldest entry is ever lost. */
  lemma HistoryTidy(history: seq<seq<Rune>>, line: seq<Rune>)
    requires Tidy(history)
    ensures var h := AddHistory(history, line);
      && Tidy(h) && (Blank(line) ==> h == history) && (!Blank(line) ==> h != [] && h[|h| - 1] == line)
      && (h == history || h == history + [line] || (|history| == MAX_HISTORY && h == history[1..] + [line]))
  {
    hide Blank;
    if |history| == MAX_HISTORY {
      assert (history + [line])[1..] == history[1..] + [line];
    }
  }

  /** A blank line is one that trims to nothing. */
  lemma {:induction false} BlankMeans(s: seq<Rune>)
    ensures Blank(s) <==> DropRun(s, true) == []
  {
    hide IsSpace;
    if s != [] {
      var init, r := s[..|s| - 1], s[|s| - 1];
      BlankMeans(init);
      assert s == init + [r];
    }
  }

  /** Choices are listed one after the other with two spaces in between. */
  lemma {:induction false} JoinMeans(choices: seq<seq<Rune>>, last: seq<Rune>)
    ensures Join(choices + [last]) == if choices == [] then last else Join(choices) + [32, 32] + last
  {
    if |choices| > 1 {
      JoinMeans(choices[1..], last);
      assert (choices + [last])[1..] == choices[1..] + [last];
    } else if |choices| == 1 {
      assert (choices + [last])[1..] == [last];
    } else {
      assert choices + [last] == [last];
    }
  }

  // ---- typing -----------------------------------------------------------------------------------------

  function Presses(keys: seq<Key>): seq<Input>
  {
    if keys == [] then [] else Presses(keys[..|keys| - 1]) + [Press(keys[|keys| - 1])]
  }

  lemma {:induction false} TypedSoFar(c: Config, s: seq<int>)
    requires AllTypable(s) && |s| <= c.maxLen
    ensures ReadAll(c, Presses(s)) == Reading(Line(s, |s|, |c.history|, []))
  {
    if s != [] {
      var init, r := s[..|s| - 1], s[|s| - 1];
      TypedSoFar(c, init);
      assert (Presses(init) + [Press(r)])[..|Presses(init)|] == Presses(init);
      var l := Line(init, |init|, |c.history|, []);
      assert Edit(c, l, r) == Insert(c, l, r);
      assert init[..|init|] + [r] + init[|init|..] == s;
    }
  }

  /** Typing round trip: the UTF-8 bytes of any printable text within the limit, followed by CR and cut
      into messages in any way, make ReadLine return exactly that text. */
  lemma TypingRoundTrip(c: Config, s: seq<int>, msgs: seq<seq<byte>>)
    requires AllTypable(s) && |s| <= c.maxLen
    requires Concat(msgs) == Utf8All(s) + [CR]
    ensures ReadAll(c, Presses(FeedMessages(START, msgs).1)) == Returned(Text(s))
  {
    TypedKeys(s, msgs);
    TypedSoFar(c, s);
    assert (s + [KEY_ENTER])[..|s|] == s;
    assert (Presses(s) + [Press(KEY_ENTER)])[..|Presses(s)|] == Presses(s);
  }

  /** From bytes to the line: whatever keys are pressed, the bytes a terminal sends for them make ReadLine
      do what those keys mean. */
  lemma BytesEdit(c: Config, ks: seq<Key>)
    requires forall i :: 0 <= i < |ks| ==> Sendable(ks[i])
    ensures ReadAll(c, Presses(DecodeBytes(START, KeysBytes(ks), false).1)) == ReadAll(c, Presses(ks))
  {
    KeyRoundTrip(ks);
  }
}
