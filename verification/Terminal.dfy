/** A terminal as the line editor's redraw sees it: unbounded rows of constant width, one column
    per rune, and the pending-wrap state at the right margin. */
module Terminal {
  import opened Common

  type Rune = int

  const ESC_RUNE: Rune := 0x1b
  const CR_RUNE: Rune := 0x0d
  const LF_RUNE: Rune := 0x0a
  const BEL_RUNE: Rune := 0x07

  datatype Token =
    | Print(ch: Rune)
    | Cr
    | Lf
    | Up(n: nat)     // CUU, section 8.3.22 of ECMA-48
    | Right(n: nat)  // CUF, section 8.3.20
    | EraseBelow     // ED 0, section 8.3.39
    | EraseAll       // ED 2
    | Home           // CUP without parameters
    | Sgr            // colours: no effect on cells or cursor
    | Bell
    | Other(params: seq<Rune>, final: Rune) // any other control sequence

  /** Cells are numbered row by row; a cell that is not in the map is blank. */
  datatype Term = Term(row: nat, col: nat, pending: bool, cells: map<int, Rune>)

  function Cell(w: nat, row: int, col: int): int { row * w + col }

  predicate Valid(t: Term, w: nat) { t.col < w && (t.pending ==> t.col == w - 1) }

  function Put(t: Term, w: nat, ch: Rune): Term
  {
    var row, col := if t.pending then t.row + 1 else t.row, if t.pending then 0 else t.col;
    var cells := t.cells[Cell(w, row, col) := ch];
    if col + 1 >= w then Term(row, col, true, cells) else Term(row, col + 1, false, cells)
  }

  function Feed(t: Term, w: nat, tok: Token): Term
  {
    match tok
    case Print(ch) => Put(t, w, ch)
    case Cr => t.(col := 0, pending := false)
    case Lf => t.(row := t.row + 1, pending := false)
    case Up(n) => t.(row := if n <= t.row then t.row - n else 0, pending := false)
    case Right(n) => t.(col := if t.col + n < w then t.col + n else if w > 0 then w - 1 else 0, pending := false)
    case EraseBelow =>
      t.(cells := map k | k in t.cells && k < Cell(w, t.row, t.col) :: t.cells[k], pending := false)
    case EraseAll => t.(cells := map[], pending := false)
    case Home => t.(row := 0, col := 0, pending := false)
    case Sgr => t
    case Bell => t
    case Other(_, _) => t.(pending := false)
  }

  function FeedAll(t: Term, w: nat, toks: seq<Token>): Term
  {
    if toks == [] then t else Feed(FeedAll(t, w, toks[..|toks| - 1]), w, toks[|toks| - 1])
  }

  lemma {:induction false} FeedAppend(t: Term, w: nat, xs: seq<Token>, ys: seq<Token>)
    ensures FeedAll(t, w, xs + ys) == FeedAll(FeedAll(t, w, xs), w, ys)
  {
    hide Feed;
    if ys == [] {
      assert xs + ys == xs;
    } else {
      var k := |ys| - 1;
      assert (xs + ys)[..|xs| + k] == xs + ys[..k];
      FeedAppend(t, w, xs, ys[..k]);
    }
  }

  lemma FeedOne(t: Term, w: nat, tok: Token)
    ensures FeedAll(t, w, [tok]) == Feed(t, w, tok)
  {
    hide Feed;
    assert [tok][..0] == [];
  }

  lemma FeedSnoc(t: Term, w: nat, toks: seq<Token>, tok: Token)
    ensures FeedAll(t, w, toks + [tok]) == Feed(FeedAll(t, w, toks), w, tok)
  {
    hide Feed;
    assert (toks + [tok])[..|toks|] == toks;
  }

  // ---- VisibleLen and prompts ----------------------------------------------------------------

  datatype Scan = Plain | InEsc | InCsi

  predicate FinalRune(r: Rune) { 0x40 <= r <= 0x7e }

  function ScanStep(m: Scan, r: Rune): Scan
  {
    match m
    case InCsi => if FinalRune(r) then Plain else InCsi
    case InEsc => if r == 91 then InCsi else Plain
    case Plain => if r == ESC_RUNE then InEsc else Plain
  }

  /** The scanner's state after s. */
  function ScanOf(s: seq<Rune>): Scan
  {
    if s == [] then Plain else ScanStep(ScanOf(s[..|s| - 1]), s[|s| - 1])
  }

  /** What is printed when the scanner reads r in state m. */
  function Printed(m: Scan, r: Rune): seq<Rune>
  {
    if m.Plain? && r != ESC_RUNE && r >= 0x20 then [r] else []
  }

  /** The runes of s that occupy a column. */
  function VisibleText(s: seq<Rune>): seq<Rune>
  {
    if s == [] then [] else VisibleText(s[..|s| - 1]) + Printed(ScanOf(s[..|s| - 1]), s[|s| - 1])
  }

  /** The number of columns s occupies, ignoring CSI sequences. */
  method VisibleLen(s: seq<Rune>) returns (n: nat)
    ensures n == |VisibleText(s)|
  {
    n := 0;
    var inEsc, inCsi := false, false;
    for i := 0 to |s|
      invariant n == |VisibleText(s[..i])|
      invariant ScanOf(s[..i]) == if inCsi then InCsi else if inEsc then InEsc else Plain
      invariant !(inEsc && inCsi)
    {
      var r := s[i];
      assert s[..i + 1][..i] == s[..i];
      if inCsi {
        if FinalRune(r) {
          inCsi := false;
        }
      } else if inEsc {
        inEsc := false;
        inCsi := r == 91;
      } else if r == ESC_RUNE {
        inEsc := true;
      } else if r >= 0x20 {
        n := n + 1;
      }
    }
    assert s[..|s|] == s;
  }

  /** Text that holds nothing but visible runes and complete colour sequences. */
  predicate SgrOnly(s: seq<Rune>) { SgrPrefix(s) && ScanOf(s).Plain? }

  predicate SgrPrefix(s: seq<Rune>)
  {
    s == [] ||
    var m, r := ScanOf(s[..|s| - 1]), s[|s| - 1];
    && SgrPrefix(s[..|s| - 1])
    && match m {
         case Plain => r == ESC_RUNE || r >= 0x20
         case InEsc => r == 91
         case InCsi => FinalRune(r) ==> r == 109
       }
  }

  /** Tokens for a line without escape sequences. */
  function LineTokens(s: seq<Rune>): seq<Token>
  {
    if s == [] then [] else LineTokens(s[..|s| - 1]) + [Print(s[|s| - 1])]
  }

  lemma {:induction false} LineTokensAppend(xs: seq<Rune>, ys: seq<Rune>)
    ensures LineTokens(xs + ys) == LineTokens(xs) + LineTokens(ys)
  {
    if ys == [] {
      assert xs + ys == xs;
    } else {
      assert (xs + ys)[..|xs + ys| - 1] == xs + ys[..|ys| - 1];
      LineTokensAppend(xs, ys[..|ys| - 1]);
    }
  }

  // ---- how the terminal reads its input ---------------------------------------------------------

  datatype Parser = Showing | Escaped | Sequence(params: seq<Rune>)

  predicate Digit(r: Rune) { 0x30 <= r <= 0x39 }

  /** The decimal number in a sequence's parameters; none given is 0. */
  function Number(ps: seq<Rune>): Option<nat>
  {
    if ps == [] then Some(0)
    else
      var n, r := Number(ps[..|ps| - 1]), ps[|ps| - 1];
      if n.Some? && Digit(r) then Some(10 * n.value + (r - 0x30)) else None
  }

  /** The control functions of ECMA-48 the editor uses; a missing or zero count is one. */
  function Control(ps: seq<Rune>, final: Rune): Token
  {
    var n := Number(ps);
    if final == 109 then Sgr
    else if n.None? then Other(ps, final)
    else if final == 65 then Up(if n.value == 0 then 1 else n.value)
    else if final == 67 then Right(if n.value == 0 then 1 else n.value)
    else if final == 74 && n.value == 0 then EraseBelow
    else if final == 74 && n.value == 2 then EraseAll
    else if final == 72 && ps == [] then Home
    else Other(ps, final)
  }

  /** One rune: the next state and what it makes the terminal do. */
  function Read(m: Parser, r: Rune): (Parser, seq<Token>)
  {
    match m
    case Escaped => (if r == 91 then Sequence([]) else Showing, [])
    case Sequence(ps) => if FinalRune(r) then (Showing, [Control(ps, r)]) else (Sequence(ps + [r]), [])
    case Showing =>
      if r == ESC_RUNE then (Escaped, [])
      else if r == CR_RUNE then (Showing, [Cr])
      else if r == LF_RUNE then (Showing, [Lf])
      else if r == BEL_RUNE then (Showing, [Bell])
      else (Showing, if r >= 0x20 then [Print(r)] else [])
  }

  function ParserAfter(s: seq<Rune>): Parser
  {
    if s == [] then Showing else Read(ParserAfter(s[..|s| - 1]), s[|s| - 1]).0
  }

  function Tokenize(s: seq<Rune>): seq<Token>
  {
    if s == [] then [] else Tokenize(s[..|s| - 1]) + Read(ParserAfter(s[..|s| - 1]), s[|s| - 1]).1
  }

  lemma TokenizeSnoc(s: seq<Rune>, r: Rune)
    ensures ParserAfter(s + [r]) == Read(ParserAfter(s), r).0
    ensures Tokenize(s + [r]) == Tokenize(s) + Read(ParserAfter(s), r).1
  {
    assert (s + [r])[..|s|] == s;
  }

  lemma TokenizeNone()
    ensures ParserAfter([]) == Showing && Tokenize([]) == []
  {
  }

  /** Complete text in front does not change how the rest is read. */
  lemma {:induction false} TokenizeAppend(a: seq<Rune>, b: seq<Rune>)
    requires ParserAfter(a) == Showing
    ensures ParserAfter(a + b) == ParserAfter(b) && Tokenize(a + b) == Tokenize(a) + Tokenize(b)
  {
    hide ParserAfter, Tokenize, Read;
    TokenizeNone();
    if b == [] {
      assert a + b == a;
    } else {
      var init, r := b[..|b| - 1], b[|b| - 1];
      TokenizeAppend(a, init);
      TokenizeSnoc(init, r);
      TokenizeSnoc(a + init, r);
      assert init + [r] == b && a + init + [r] == a + b;
    }
  }

  /** Text without control codes is printed. */
  predicate Plainly(s: seq<Rune>) { forall i :: 0 <= i < |s| ==> s[i] >= 0x20 }

  lemma {:induction false} TokenizeLine(s: seq<Rune>)
    requires Plainly(s)
    ensures ParserAfter(s) == Showing && Tokenize(s) == LineTokens(s)
  {
    if s != [] {
      TokenizeLine(s[..|s| - 1]);
    }
  }

  lemma TokenizeBreak()
    ensures ParserAfter([CR_RUNE, LF_RUNE]) == Showing && Tokenize([CR_RUNE, LF_RUNE]) == [Cr] + [Lf]
    ensures ParserAfter([CR_RUNE]) == Showing && Tokenize([CR_RUNE]) == [Cr]
    ensures ParserAfter([BEL_RUNE]) == Showing && Tokenize([BEL_RUNE]) == [Bell]
  {
    hide ParserAfter, Tokenize;
    TokenizeNone();
    TokenizeSnoc([], CR_RUNE);
    TokenizeSnoc([], BEL_RUNE);
    TokenizeSnoc([CR_RUNE], LF_RUNE);
    assert [] + [CR_RUNE] == [CR_RUNE] && [] + [BEL_RUNE] == [BEL_RUNE] && [CR_RUNE] + [LF_RUNE] == [CR_RUNE, LF_RUNE];
  }

  /** A control sequence as it is written. */
  function ControlText(ps: seq<Rune>, final: Rune): seq<Rune> { [ESC_RUNE] + [91] + ps + [final] }

  lemma {:induction false} ReadsDigits(ps: seq<Rune>)
    requires forall i :: 0 <= i < |ps| ==> Digit(ps[i])
    ensures ParserAfter([ESC_RUNE] + [91] + ps) == Sequence(ps) && Tokenize([ESC_RUNE] + [91] + ps) == []
  {
    hide ParserAfter, Tokenize;
    if ps == [] {
      TokenizeNone();
      TokenizeSnoc([], ESC_RUNE);
      assert [] + [ESC_RUNE] == [ESC_RUNE];
      TokenizeSnoc([ESC_RUNE], 91);
      assert [ESC_RUNE] + [91] + ps == [ESC_RUNE] + [91];
    } else {
      var init, r := ps[..|ps| - 1], ps[|ps| - 1];
      ReadsDigits(init);
      TokenizeSnoc([ESC_RUNE] + [91] + init, r);
      assert init + [r] == ps && [ESC_RUNE] + [91] + init + [r] == [ESC_RUNE] + [91] + ps;
    }
  }

  lemma TokenizeCsi(ps: seq<Rune>, final: Rune)
    requires FinalRune(final) && forall i :: 0 <= i < |ps| ==> Digit(ps[i])
    ensures ParserAfter(ControlText(ps, final)) == Showing && Tokenize(ControlText(ps, final)) == [Control(ps, final)]
  {
    hide ParserAfter, Tokenize, Control;
    ReadsDigits(ps);
    TokenizeSnoc([ESC_RUNE] + [91] + ps, final);
  }

  /** %d. */
  function Decimal(n: nat): (s: seq<Rune>)
    ensures forall i :: 0 <= i < |s| ==> Digit(s[i])
  {
    if n < 10 then [0x30 + n] else Decimal(n / 10) + [0x30 + n % 10]
  }

  lemma {:induction false} DecimalRead(n: nat)
    ensures Number(Decimal(n)) == Some(n)
  {
    if n < 10 {
      assert [0x30 + n][..0] == [];
    } else {
      var init, r := Decimal(n / 10), 0x30 + n % 10;
      DecimalRead(n / 10);
      assert (init + [r])[..|init|] == init;
    }
  }

  /** What the editor's counted moves do. */
  lemma TokenizeCounted(n: nat)
    requires n > 0
    ensures ParserAfter(ControlText(Decimal(n), 65)) == Showing && Tokenize(ControlText(Decimal(n), 65)) == [Up(n)]
    ensures ParserAfter(ControlText(Decimal(n), 67)) == Showing && Tokenize(ControlText(Decimal(n), 67)) == [Right(n)]
  {
    DecimalRead(n);
    hide Number, Decimal, ControlText;
    TokenizeCsi(Decimal(n), 65);
    TokenizeCsi(Decimal(n), 67);
  }

  lemma TokenizeErase()
    ensures ParserAfter(ControlText([], 74)) == Showing && Tokenize(ControlText([], 74)) == [EraseBelow]
    ensures ParserAfter(ControlText([], 72)) == Showing && Tokenize(ControlText([], 72)) == [Home]
    ensures ParserAfter(ControlText([50], 74)) == Showing && Tokenize(ControlText([50], 74)) == [EraseAll]
  {
    hide ControlText, ParserAfter, Tokenize;
    TokenizeCsi([], 74);
    TokenizeCsi([], 72);
    TokenizeCsi([50], 74);
    assert [50][..0] == [];
  }

  // ---- prompts ------------------------------------------------------------------------------------

  /** The terminal and VisibleLen agree on where escape sequences are. */
  predicate SameState(m: Scan, p: Parser)
  {
    match m case Plain => p.Showing? case InEsc => p.Escaped? case InCsi => p.Sequence?
  }

  /** Colours do not disturb the drawing: a prompt with nothing but colours draws like its visible text. */
  lemma {:induction false} PromptDraws(t: Term, w: nat, s: seq<Rune>)
    requires SgrPrefix(s)
    ensures FeedAll(t, w, Tokenize(s)) == FeedAll(t, w, LineTokens(VisibleText(s))) && SameState(ScanOf(s), ParserAfter(s))
  {
    if s != [] {
      var init, r := s[..|s| - 1], s[|s| - 1];
      PromptDraws(t, w, init);
      PromptRune(t, w, Tokenize(init), VisibleText(init), ScanOf(init), ParserAfter(init), r);
    }
  }

  lemma PromptRune(t: Term, w: nat, toks: seq<Token>, text: seq<Rune>, m: Scan, p: Parser, r: Rune)
    requires FeedAll(t, w, toks) == FeedAll(t, w, LineTokens(text)) && SameState(m, p)
    requires match m { case Plain => r == ESC_RUNE || r >= 0x20 case InEsc => r == 91 case InCsi => FinalRune(r) ==> r == 109 }
    ensures FeedAll(t, w, toks + Read(p, r).1) == FeedAll(t, w, LineTokens(text + Printed(m, r)))
    ensures SameState(ScanStep(m, r), Read(p, r).0)
  {
    hide FeedAll, Put, Number;
    if Printed(m, r) != [] {
      FeedSnoc(t, w, toks, Print(r));
      FeedSnoc(t, w, LineTokens(text), Print(r));
      assert (text + [r])[..|text|] == text;
    } else if m.InCsi? && FinalRune(r) {
      FeedSnoc(t, w, toks, Sgr);
      assert text + Printed(m, r) == text;
    } else {
      assert text + Printed(m, r) == text && toks + [] == toks;
    }
  }

  // ---- drawing a wrapped text ------------------------------------------------------------------

  lemma NextRow(w: nat, row: int)
    ensures Cell(w, row + 1, 0) == Cell(w, row, 0) + w
  {
  }

  lemma MulMonotone(a: int, b: int, w: nat)
    requires a <= b
    ensures a * w <= b * w
  {
  }

  /** Division with remainder is unique. */
  lemma RowAndCol(n: nat, w: nat, q: nat, c: nat)
    requires c < w && n == q * w + c
    ensures n / w == q && n % w == c
  {
    var d := n / w;
    assert n == d * w + n % w;
    assert (q + 1) * w == q * w + w && (d + 1) * w == d * w + w;
    if d > q {
      MulMonotone(q + 1, d, w);
    } else if d < q {
      MulMonotone(d + 1, q, w);
    }
  }

  lemma CellOf(n: nat, w: nat, base: nat)
    requires w > 0
    ensures n == n / w * w + n % w && 0 <= n % w < w && 0 <= n / w
    ensures Cell(w, base + n / w, n % w) == Cell(w, base, 0) + n
  {
    assert (base + n / w) * w == base * w + n / w * w;
  }

  /** The screen holds `kept` above cell `from`, then `text`, then nothing. */
  ghost predicate Holds(cells: map<int, Rune>, kept: map<int, Rune>, from: int, text: seq<Rune>)
  {
    && (forall k :: k < from ==> (k in cells <==> k in kept) && (k in cells ==> cells[k] == kept[k]))
    && (forall k :: from <= k < from + |text| ==> k in cells && cells[k] == text[k - from])
  }

  ghost predicate BlankFrom(cells: map<int, Rune>, k: int) { forall j :: j in cells ==> j < k }

  /** Where the next rune goes, counted in cells. */
  function NextCell(t: Term, w: nat): int { Cell(w, t.row, t.col) + if t.pending then 1 else 0 }

  lemma PutOne(t: Term, w: nat, ch: Rune)
    requires Valid(t, w)
    ensures var u := Put(t, w, ch);
      && Valid(u, w) && NextCell(u, w) == NextCell(t, w) + 1
      && u.cells == t.cells[NextCell(t, w) := ch]
      && t.row <= u.row && (u.pending || u.col > 0)
  {
    NextRow(w, t.row);
  }

  lemma HoldsNext(cells: map<int, Rune>, kept: map<int, Rune>, from: int, text: seq<Rune>, ch: Rune)
    requires Holds(cells, kept, from, text)
    ensures Holds(cells[from + |text| := ch], kept, from, text + [ch])
  {
  }

  /** Printing a text from the start of row `base`. */
  lemma {:induction false} DrawText(t: Term, w: nat, base: nat, text: seq<Rune>)
    requires w > 0 && t.row == base && t.col == 0 && !t.pending
    ensures var u := FeedAll(t, w, LineTokens(text));
      && Valid(u, w) && NextCell(u, w) == Cell(w, base, 0) + |text|
      && (if text == [] then !u.pending else u.pending || u.col > 0)
      && base <= u.row
      && Holds(u.cells, t.cells, Cell(w, base, 0), text)
  {
    if text != [] {
      var init, ch := text[..|text| - 1], text[|text| - 1];
      DrawText(t, w, base, init);
      var u := FeedAll(t, w, LineTokens(init));
      FeedSnoc(t, w, LineTokens(init), Print(ch));
      DrawRune(t, u, w, base, init, ch);
      assert init + [ch] == text;
    }
  }

  lemma DrawRune(t: Term, u: Term, w: nat, base: nat, text: seq<Rune>, ch: Rune)
    requires Valid(u, w) && NextCell(u, w) == Cell(w, base, 0) + |text| && base <= u.row
    requires Holds(u.cells, t.cells, Cell(w, base, 0), text)
    ensures var v := Put(u, w, ch);
      && Valid(v, w) && NextCell(v, w) == Cell(w, base, 0) + |text| + 1 && base <= v.row && (v.pending || v.col > 0)
      && Holds(v.cells, t.cells, Cell(w, base, 0), text + [ch])
  {
    PutOne(u, w, ch);
    hide Put, Cell, Holds;
    HoldsNext(u.cells, t.cells, Cell(w, base, 0), text, ch);
  }

  /** Printing below everything else leaves nothing behind the text. */
  lemma {:induction false} DrawBlank(t: Term, w: nat, base: nat, text: seq<Rune>)
    requires w > 0 && t.row == base && t.col == 0 && !t.pending && BlankFrom(t.cells, Cell(w, base, 0))
    ensures BlankFrom(FeedAll(t, w, LineTokens(text)).cells, Cell(w, base, 0) + |text|)
  {
    if text != [] {
      var init, ch := text[..|text| - 1], text[|text| - 1];
      DrawBlank(t, w, base, init);
      DrawText(t, w, base, init);
      var u := FeedAll(t, w, LineTokens(init));
      FeedSnoc(t, w, LineTokens(init), Print(ch));
      hide FeedAll, Put, Cell;
      PutOne(u, w, ch);
    }
  }
}
