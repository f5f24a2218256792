/** fakeshell/shell.go columns: names laid out column-major like ls. */
module Columns {
  import opened Common
  import opened Terminal
  import Keys

  const SPACE: Rune := 0x20
  const NEWLINE: Rune := 0x0a

  /** Row r, column c of a column-major layout. */
  function Index(c: nat, rows: nat, r: nat): nat { c * rows + r }

  lemma NextIndex(c: nat, rows: nat, r: nat)
    ensures Index(c + 1, rows, r) == Index(c, rows, r) + rows
  {
    assert (c + 1) * rows == c * rows + rows;
  }

  /** Column by column: a later column's index is no smaller. */
  lemma IndexMonotone(a: nat, b: nat, rows: nat, r: nat)
    requires a <= b
    ensures Index(a, rows, r) <= Index(b, rows, r)
  {
    MulMonotone(a, b, rows);
  }

  /** There is a place for n names. */
  predicate Room(n: nat, rows: nat, cols: nat) { n <= cols * rows }

  /** Where name i belongs. */
  lemma PlaceIn(i: nat, n: nat, rows: nat, cols: nat)
    requires rows > 0 && i < n && Room(n, rows, cols)
    ensures 0 <= i % rows < rows && 0 <= i / rows < cols && i == Index(i / rows, rows, i % rows)
  {
    CellOf(i, rows, 0);
    if i / rows >= cols {
      MulMonotone(cols, i / rows, rows);
    }
  }

  /** A grid of indices into the names: row r, column c holds c*rows + r. */
  ghost predicate ColumnMajor(grid: seq<seq<nat>>, n: nat, rows: nat, cols: nat)
  {
    && |grid| == rows
    && (forall r :: 0 <= r < rows ==> |grid[r]| <= cols)
    && (forall r, c :: 0 <= r < rows && 0 <= c < |grid[r]| ==> grid[r][c] == Index(c, rows, r) && grid[r][c] < n)
  }

  /** Every name has its place: name i stands in row i % rows, column i / rows. */
  ghost predicate Complete(grid: seq<seq<nat>>, n: nat, rows: nat)
    requires rows > 0
  {
    forall i :: 0 <= i < n ==>
      i % rows < |grid| && i / rows < |grid[i % rows]| && grid[i % rows][i / rows] == i
  }

  /** No name is printed twice. */
  lemma OnePlaceEach(grid: seq<seq<nat>>, n: nat, rows: nat, cols: nat, r: nat, c: nat, r': nat, c': nat)
    requires ColumnMajor(grid, n, rows, cols) && r < rows && r' < rows && c < |grid[r]| && c' < |grid[r']|
    requires grid[r][c] == grid[r'][c']
    ensures r == r' && c == c'
  {
    RowAndCol(grid[r][c], rows, c, r);
    RowAndCol(grid[r'][c'], rows, c', r');
  }

  function Spaces(n: nat): seq<Rune> { seq(n, _ => SPACE) }

  /** The first k cells of a row; every cell but the row's last is padded to the cell width. */
  function Cells(names: seq<seq<Rune>>, row: seq<nat>, cell: nat, k: nat): seq<Rune>
    requires k <= |row| && forall c :: 0 <= c < |row| ==> row[c] < |names|
  {
    if k == 0 then []
    else
      var name := names[row[k - 1]];
      Cells(names, row, cell, k - 1) + name + if k < |row| then Spaces(Max(cell - |VisibleText(name)|, 0)) else []
  }

  function Line(names: seq<seq<Rune>>, row: seq<nat>, cell: nat, indent: seq<Rune>): seq<Rune>
    requires forall c :: 0 <= c < |row| ==> row[c] < |names|
  {
    indent + Cells(names, row, cell, |row|)
  }

  /** The whole text of a grid. */
  function Lines(names: seq<seq<Rune>>, grid: seq<seq<nat>>, cell: nat, indent: seq<Rune>): seq<Rune>
    requires forall r, c :: 0 <= r < |grid| && 0 <= c < |grid[r]| ==> grid[r][c] < |names|
  {
    if grid == [] then []
    else Lines(names, grid[..|grid| - 1], cell, indent) + Line(names, grid[|grid| - 1], cell, indent) + [NEWLINE]
  }

  /** len(indent): the bytes of its UTF-8 encoding. */
  function ByteLen(s: seq<Rune>): (n: nat)
    ensures |s| <= n
  {
    if s == [] then 0
    else
      var r := s[|s| - 1];
      ByteLen(s[..|s| - 1]) + if r < 0x80 then 1 else if r < 0x800 then 2 else if r < 0x10000 then 3 else 4
  }

  /** The bytes of a text are those of its encoding (section 3 of RFC 3629). */
  lemma {:induction false} BytesOfText(s: seq<Rune>)
    requires Keys.AllTypable(s)
    ensures ByteLen(s) == |Keys.Utf8All(s)|
  {
    if s != [] {
      BytesOfText(s[..|s| - 1]);
    }
  }

  // ---- arithmetic -----------------------------------------------------------------------------

  lemma QuotientTimes(a: int, b: nat)
    requires b > 0
    ensures a / b * b <= a < (a / b + 1) * b
  {
    assert a == a / b * b + a % b;
    assert (a / b + 1) * b == a / b * b + b;
  }

  /** Enough rows: rows * cols >= n. */
  lemma EnoughRows(n: nat, cols: nat, rows: nat)
    requires cols > 0 && rows == (n + cols - 1) / cols
    ensures Room(n, rows, cols) && (n > 0 ==> rows > 0)
  {
    QuotientTimes(n + cols - 1, cols);
    assert (rows + 1) * cols == rows * cols + cols;
  }

  lemma NoRows(cols: nat)
    requires cols > 0
    ensures (0 + cols - 1) / cols == 0
  {
    RowAndCol(cols - 1, cols, 0, cols - 1);
  }

  lemma ColumnsFit(width: int, indent: nat, widest: nat, cell: nat, cols: nat)
    requires cell == widest + 2 && cols == Max(1, (width - indent + 2) / cell) && widest + indent <= width
    ensures indent + cols * cell - 2 <= width
  {
    QuotientTimes(width - indent + 2, cell);
    var q := (width - indent + 2) / cell;
    if q <= 0 {
      MulMonotone(q + 1, 1, cell);
    }
  }

  // ---- widths ---------------------------------------------------------------------------------

  /** Text that does not stop inside a control sequence. */
  predicate Closed(s: seq<Rune>) { !ScanOf(s).InCsi? }

  predicate AllClosed(names: seq<seq<Rune>>) { forall i :: 0 <= i < |names| ==> Closed(names[i]) }

  /** Text after which the scanner is where it began. */
  predicate Balanced(s: seq<Rune>) { ScanOf(s).Plain? }

  lemma EmptyScan()
    ensures ScanOf([]).Plain? && VisibleText([]) == []
  {
  }

  lemma Snoc(s: seq<Rune>, r: Rune)
    ensures ScanOf(s + [r]) == ScanStep(ScanOf(s), r)
    ensures VisibleText(s + [r]) == VisibleText(s) + Printed(ScanOf(s), r)
  {
    assert (s + [r])[..|s|] == s;
  }

  /** What follows balanced text is scanned as if it stood alone. */
  lemma {:induction false} ScanAppend(a: seq<Rune>, b: seq<Rune>)
    requires Balanced(a)
    ensures ScanOf(a + b) == ScanOf(b) && VisibleText(a + b) == VisibleText(a) + VisibleText(b)
  {
    hide ScanOf, VisibleText;
    if b == [] {
      assert a + b == a;
      EmptyScan();
    } else {
      var init, r := b[..|b| - 1], b[|b| - 1];
      ScanAppend(a, init);
      Snoc(init, r);
      Snoc(a + init, r);
      assert init + [r] == b && a + init + [r] == a + b;
    }
  }

  lemma {:induction false} SpacesVisible(n: nat)
    ensures Balanced(Spaces(n)) && VisibleText(Spaces(n)) == Spaces(n)
  {
    if n > 0 {
      SpacesVisible(n - 1);
      assert Spaces(n)[..n - 1] == Spaces(n - 1);
      assert Spaces(n - 1) + [SPACE] == Spaces(n);
    }
  }

  /** Padding balances a closed name: it hides at most one of the spaces, and never what comes after them. */
  lemma PaddedName(name: seq<Rune>, n: nat)
    requires Closed(name) && n > 0
    ensures Balanced(name + Spaces(n))
    ensures |VisibleText(name + Spaces(n))| == |VisibleText(name)| + n - (if Balanced(name) then 0 else 1)
  {
    var first := name + [SPACE];
    assert first[..|name|] == name;
    assert name + Spaces(n) == first + Spaces(n - 1);
    SpacesVisible(n - 1);
    ScanAppend(first, Spaces(n - 1));
  }

  lemma {:induction false} CellsWidth(names: seq<seq<Rune>>, row: seq<nat>, cell: nat, k: nat)
    requires k <= |row| && forall c :: 0 <= c < |row| ==> row[c] < |names|
    requires forall i :: 0 <= i < |names| ==> Closed(names[i]) && |VisibleText(names[i])| + 2 <= cell
    ensures k < |row| ==> Balanced(Cells(names, row, cell, k))
    ensures |VisibleText(Cells(names, row, cell, k))| <= k * cell - (if k == |row| && k > 0 then 2 else 0)
  {
    hide ScanOf, VisibleText;
    if k == 0 {
      EmptyScan();
    } else {
      var init, name := Cells(names, row, cell, k - 1), names[row[k - 1]];
      CellsWidth(names, row, cell, k - 1);
      assert k * cell == (k - 1) * cell + cell;
      if k < |row| {
        var pad := Spaces(cell - |VisibleText(name)|);
        PaddedName(name, |pad|);
        ScanAppend(init, name + pad);
        assert init + name + pad == init + (name + pad);
      } else {
        ScanAppend(init, name);
        assert init + name + [] == init + name;
      }
    }
  }

  /** How many of a row's first k names end in a lone ESC, which hides the space after it. */
  function Hidden(names: seq<seq<Rune>>, row: seq<nat>, k: nat): nat
    requires k <= |row| && forall c :: 0 <= c < |row| ==> row[c] < |names|
  {
    if k == 0 then 0 else Hidden(names, row, k - 1) + if Balanced(names[row[k - 1]]) then 0 else 1
  }

  /** Where a cell starts: k cells from the start of the row, less the spaces hidden on the way. */
  lemma {:induction false} CellStarts(names: seq<seq<Rune>>, row: seq<nat>, cell: nat, k: nat)
    requires k < |row| && forall c :: 0 <= c < |row| ==> row[c] < |names|
    requires forall i :: 0 <= i < |names| ==> Closed(names[i]) && |VisibleText(names[i])| + 2 <= cell
    ensures Balanced(Cells(names, row, cell, k))
    ensures |VisibleText(Cells(names, row, cell, k))| == k * cell - Hidden(names, row, k)
  {
    hide ScanOf, VisibleText;
    if k == 0 {
      EmptyScan();
    } else {
      var init, name := Cells(names, row, cell, k - 1), names[row[k - 1]];
      CellStarts(names, row, cell, k - 1);
      assert k * cell == (k - 1) * cell + cell;
      var pad := Spaces(cell - |VisibleText(name)|);
      PaddedName(name, |pad|);
      ScanAppend(init, name + pad);
      assert init + name + pad == init + (name + pad);
    }
  }

  /** Everything up to and including the k-th name is a prefix of the row. */
  lemma {:induction false} CellsPrefix(names: seq<seq<Rune>>, row: seq<nat>, cell: nat, k: nat, n: nat) returns (rest: seq<Rune>)
    requires k < n <= |row| && forall c :: 0 <= c < |row| ==> row[c] < |names|
    ensures Cells(names, row, cell, n) == Cells(names, row, cell, k) + (names[row[k]] + rest)
    decreases n
  {
    hide VisibleText;
    hide Spaces;
    var name := names[row[n - 1]];
    rest := if n < |row| then Spaces(Max(cell - |VisibleText(name)|, 0)) else [];
    if k == n - 1 {
      assert Cells(names, row, cell, k) + name + rest == Cells(names, row, cell, k) + (name + rest);
    } else {
      var more := CellsPrefix(names, row, cell, k, n - 1);
      assert Cells(names, row, cell, k) + (names[row[k]] + more) + name + rest
          == Cells(names, row, cell, k) + (names[row[k]] + (more + name + rest));
      rest := more + name + rest;
    }
  }

  /** Columns are aligned: name k of every row of balanced names stands exactly k cells after the indent. */
  lemma ColumnsAligned(names: seq<seq<Rune>>, row: seq<nat>, cell: nat, indent: seq<Rune>, k: nat)
    requires k < |row| && (forall c :: 0 <= c < |row| ==> row[c] < |names|) && Balanced(indent)
    requires forall i :: 0 <= i < |names| ==> Balanced(names[i]) && |VisibleText(names[i])| + 2 <= cell
    ensures StandsAt(VisibleText(Line(names, row, cell, indent)), Index(k, cell, |VisibleText(indent)|), VisibleText(names[row[k]]))
  {
    hide ScanOf, VisibleText;
    var cells, name := Cells(names, row, cell, k), names[row[k]];
    CellStarts(names, row, cell, k);
    NothingHidden(names, row, k);
    var rest := CellsPrefix(names, row, cell, k, |row|);
    ScanAppend(indent, cells + (name + rest));
    ScanAppend(cells, name + rest);
    ScanAppend(name, rest);
    Middle(VisibleText(indent), VisibleText(cells), VisibleText(name), VisibleText(rest));
  }

  /** text is found in line from column `from` on. */
  predicate StandsAt(line: seq<Rune>, from: nat, text: seq<Rune>)
  {
    from + |text| <= |line| && line[from..from + |text|] == text
  }

  lemma {:induction false} NothingHidden(names: seq<seq<Rune>>, row: seq<nat>, k: nat)
    requires k <= |row| && (forall c :: 0 <= c < |row| ==> row[c] < |names|) && forall i :: 0 <= i < |names| ==> Balanced(names[i])
    ensures Hidden(names, row, k) == 0
  {
    if k > 0 {
      NothingHidden(names, row, k - 1);
    }
  }

  lemma Middle(a: seq<Rune>, b: seq<Rune>, d: seq<Rune>, e: seq<Rune>)
    ensures StandsAt(a + (b + (d + e)), |a| + |b|, d)
  {
  }

  lemma {:induction false} VisibleShort(s: seq<Rune>)
    ensures |VisibleText(s)| <= |s|
  {
    if s != [] {
      VisibleShort(s[..|s| - 1]);
    }
  }

  /** Every row is at most `width` visible columns whenever the widest name and the indent fit, no name
      stops inside a control sequence and the indent stops inside no sequence at all. */
  lemma RowsFit(names: seq<seq<Rune>>, row: seq<nat>, width: int, indent: seq<Rune>, widest: nat, cols: nat)
    requires |row| <= cols && forall c :: 0 <= c < |row| ==> row[c] < |names|
    requires AllClosed(names) && Balanced(indent) && forall i :: 0 <= i < |names| ==> |VisibleText(names[i])| <= widest
    requires cols == Max(1, (width - ByteLen(indent) + 2) / (widest + 2)) && widest + ByteLen(indent) <= width
    ensures |VisibleText(Line(names, row, widest + 2, indent))| <= width
  {
    hide ScanOf, VisibleText;
    var cell := widest + 2;
    CellsWidth(names, row, cell, |row|);
    VisibleShort(indent);
    ScanAppend(indent, Cells(names, row, cell, |row|));
    ColumnsFit(width, ByteLen(indent), widest, cell, cols);
    MulMonotone(|row|, cols, cell);
  }

  function Digits(k: nat): seq<Rune> { seq(k, _ => 48) }

  /** A name that stops inside a control sequence swallows the padding and turns the next name's colour
      sequence into text. */
  function Victim(k: nat): seq<Rune> { [ESC_RUNE, 91] + Digits(k) + [109] }

  lemma {:induction false} DigitsAfter(s: seq<Rune>, k: nat)
    requires Balanced(s) || ScanOf(s).InCsi?
    ensures ScanOf(s + Digits(k)) == ScanOf(s)
    ensures |VisibleText(s + Digits(k))| == |VisibleText(s)| + if Balanced(s) then k else 0
  {
    hide ScanOf, VisibleText;
    if k == 0 {
      assert s + Digits(k) == s;
    } else {
      DigitsAfter(s, k - 1);
      Snoc(s + Digits(k - 1), 48);
      assert s + Digits(k) == s + Digits(k - 1) + [48];
    }
  }

  lemma {:induction false} SwallowedSpaces(s: seq<Rune>, n: nat)
    requires ScanOf(s).InCsi?
    ensures ScanOf(s + Spaces(n)).InCsi? && VisibleText(s + Spaces(n)) == VisibleText(s)
  {
    var t := s + Spaces(n);
    if n == 0 {
      assert t == s;
    } else {
      SwallowedSpaces(s, n - 1);
      assert t[..|t| - 1] == s + Spaces(n - 1);
    }
  }

  lemma VictimAlone(k: nat)
    ensures Balanced(Victim(k)) && |VisibleText(Victim(k))| == 0
  {
    hide ScanOf, VisibleText, Digits;
    EmptyScan();
    Snoc([], ESC_RUNE);
    Snoc([] + [ESC_RUNE], 91);
    var t := [] + [ESC_RUNE] + [91];
    assert t == [ESC_RUNE, 91];
    DigitsAfter(t, k);
    Snoc(t + Digits(k), 109);
  }

  lemma VictimAfter(s: seq<Rune>, k: nat)
    requires !Balanced(s)
    ensures |VisibleText(s + Victim(k))| >= |VisibleText(s)| + k + 1
  {
    hide ScanOf, VisibleText, Digits;
    Snoc(s, ESC_RUNE);
    Snoc(s + [ESC_RUNE], 91);
    var t := s + [ESC_RUNE] + [91];
    DigitsAfter(t, k);
    Snoc(t + Digits(k), 109);
    assert s + Victim(k) == t + Digits(k) + [109];
  }

  lemma TwoCells(x: seq<Rune>, y: seq<Rune>)
    ensures Line([x, y], [0, 1], |VisibleText(x)| + 2, []) == x + Spaces(2) + y
  {
    hide ScanOf, VisibleText;
    var cell := |VisibleText(x)| + 2;
    assert Cells([x, y], [0, 1], cell, 0) == [];
    assert Cells([x, y], [0, 1], cell, 1) == x + Spaces(2);
    assert Cells([x, y], [0, 1], cell, 2) == x + Spaces(2) + y;
  }

  // ---- the layout -----------------------------------------------------------------------------

  /** The visible width of the widest name. */
  function WidestOf(names: seq<seq<Rune>>): nat
  {
    if names == [] then 0 else Max(WidestOf(names[..|names| - 1]), |VisibleText(names[|names| - 1])|)
  }

  lemma {:induction false} WidestBounds(names: seq<seq<Rune>>)
    ensures forall i :: 0 <= i < |names| ==> |VisibleText(names[i])| <= WidestOf(names)
    ensures names != [] ==> exists i :: 0 <= i < |names| && |VisibleText(names[i])| == WidestOf(names)
  {
    hide VisibleText;
    if names != [] {
      var init, k := names[..|names| - 1], |names| - 1;
      WidestBounds(init);
      assert init == [] ==> WidestOf(init) == 0;
      if WidestOf(names) == |VisibleText(names[k])| {
      } else {
        var i :| 0 <= i < |init| && |VisibleText(init[i])| == WidestOf(init);
        assert |VisibleText(names[i])| == WidestOf(names);
      }
    }
  }

  function ColsFor(names: seq<seq<Rune>>, width: int, indent: nat): nat
  {
    Max(1, (width - indent + 2) / (WidestOf(names) + 2))
  }

  function RowsFor(n: nat, cols: nat): nat
    requires cols > 0
  {
    (n + cols - 1) / cols
  }

  /** Row r holds r, r + rows, r + 2*rows, ... as far as there are names and columns. */
  ghost predicate RowOk(row: seq<nat>, r: nat, n: nat, rows: nat, cols: nat)
  {
    && |row| <= cols && (forall c :: 0 <= c < |row| ==> row[c] == Index(c, rows, r) && row[c] < n)
    && (|row| == cols || Index(|row|, rows, r) >= n)
  }

  ghost function RowLen(n: nat, rows: nat, cols: nat, r: nat, c: nat): (k: nat)
    requires c <= cols
    ensures c <= k <= cols && (k == cols || Index(k, rows, r) >= n)
    ensures forall j :: c <= j < k ==> Index(j, rows, r) < n
    decreases cols - c
  {
    if c == cols || Index(c, rows, r) >= n then c else RowLen(n, rows, cols, r, c + 1)
  }

  ghost function FullRow(n: nat, rows: nat, cols: nat, r: nat): (row: seq<nat>)
    ensures RowOk(row, r, n, rows, cols)
  {
    seq(RowLen(n, rows, cols, r, 0), c requires c >= 0 => Index(c, rows, r))
  }

  ghost function Grid(n: nat, rows: nat, cols: nat): (grid: seq<seq<nat>>)
    ensures |grid| == rows && forall q :: 0 <= q < rows ==> RowOk(grid[q], q, n, rows, cols)
    ensures forall q, c :: 0 <= q < rows && 0 <= c < |grid[q]| ==> grid[q][c] < n
  {
    seq(rows, r requires r >= 0 => FullRow(n, rows, cols, r))
  }

  lemma GridOk(grid: seq<seq<nat>>, n: nat, rows: nat, cols: nat)
    requires |grid| == rows > 0 && Room(n, rows, cols)
    requires forall q :: 0 <= q < rows ==> RowOk(grid[q], q, n, rows, cols)
    ensures ColumnMajor(grid, n, rows, cols) && Complete(grid, n, rows)
  {
    hide Index, Room;
    forall i | 0 <= i < n
      ensures i % rows < |grid| && i / rows < |grid[i % rows]| && grid[i % rows][i / rows] == i
    {
      PlaceIn(i, n, rows, cols);
      InRow(grid[i % rows], n, rows, cols, i, i / rows, i % rows);
    }
  }

  lemma InRow(row: seq<nat>, n: nat, rows: nat, cols: nat, i: nat, c: nat, r: nat)
    requires RowOk(row, r, n, rows, cols) && i < n && i == Index(c, rows, r) && c < cols
    ensures c < |row| && row[c] == i
  {
    hide Index;
    if c >= |row| {
      IndexMonotone(|row|, c, rows, r);
    }
  }

  ghost function GridFor(names: seq<seq<Rune>>, width: int, indent: nat): (grid: seq<seq<nat>>)
    ensures forall q, c :: 0 <= q < |grid| && 0 <= c < |grid[q]| ==> grid[q][c] < |names|
  {
    var cols := ColsFor(names, width, indent);
    Grid(|names|, RowsFor(|names|, cols), cols)
  }

  /** The layout is complete and column-major, and its rows fit whenever the widest name and the indent
      do, every name is closed and the indent balanced. */
  lemma LayoutFits(names: seq<seq<Rune>>, width: int, indent: seq<Rune>)
    requires names != []
    ensures var grid := GridFor(names, width, ByteLen(indent));
      && |grid| > 0 && Complete(grid, |names|, |grid|)
      && ColumnMajor(grid, |names|, |grid|, ColsFor(names, width, ByteLen(indent)))
      && (AllClosed(names) && Balanced(indent) && WidestOf(names) + ByteLen(indent) <= width ==>
            forall r :: 0 <= r < |grid| ==> |VisibleText(Line(names, grid[r], WidestOf(names) + 2, indent))| <= width)
  {
    hide ScanOf, VisibleText, WidestOf;
    var cols, grid := ColsFor(names, width, ByteLen(indent)), GridFor(names, width, ByteLen(indent));
    EnoughRows(|names|, cols, |grid|);
    GridOk(grid, |names|, |grid|, cols);
    WidestBounds(names);
    if AllClosed(names) && Balanced(indent) && WidestOf(names) + ByteLen(indent) <= width {
      forall r | 0 <= r < |grid|
        ensures |VisibleText(Line(names, grid[r], WidestOf(names) + 2, indent))| <= width
      {
        RowsFit(names, grid[r], width, indent, WidestOf(names), cols);
      }
    }
  }

  /** With as many columns as names there is one row. */
  lemma OneRow(names: seq<seq<Rune>>, width: int, indent: nat)
    requires names != [] && ColsFor(names, width, indent) == |names|
    ensures var grid := GridFor(names, width, indent);
      |grid| == 1 && |grid[0]| == |names| && forall i :: 0 <= i < |names| ==> grid[0][i] == i
  {
    var n := |names|;
    hide WidestOf, ColsFor;
    RowAndCol(n + n - 1, n, 1, n - 1);
    var row := GridFor(names, width, indent)[0];
    assert RowOk(row, 0, n, 1, n);
  }

  lemma WidestSnoc(names: seq<seq<Rune>>, x: seq<Rune>)
    ensures WidestOf(names + [x]) == Max(WidestOf(names), |VisibleText(x)|)
  {
    assert (names + [x])[..|names|] == names;
  }

  /** The condition on the names is needed for every single name: beside any name that is not closed, a
      harmless name of no visible width makes the row that is printed overflow the width. */
  lemma ClosedNeeded(x: seq<Rune>)
    requires !Closed(x)
    ensures var names, width := [x, Victim(|VisibleText(x)| + 2)], 2 * |VisibleText(x)| + 2;
      && Closed(names[1]) && |VisibleText(names[1])| == 0 && WidestOf(names) <= width
      && GridFor(names, width, 0) == [[0, 1]]
      && |VisibleText(Line(names, [0, 1], WidestOf(names) + 2, []))| > width
  {
    hide ScanOf, VisibleText, Victim, GridFor, WidestOf, Line;
    var widest := |VisibleText(x)|;
    var y := Victim(widest + 2);
    VictimAlone(widest + 2);
    SwallowedSpaces(x, 2);
    VictimAfter(x + Spaces(2), widest + 2);
    TwoCells(x, y);
    TwoNames(x, y);
  }

  lemma TwoNames(x: seq<Rune>, y: seq<Rune>)
    requires |VisibleText(y)| == 0
    ensures WidestOf([x, y]) == |VisibleText(x)| && GridFor([x, y], 2 * |VisibleText(x)| + 2, 0) == [[0, 1]]
  {
    hide ScanOf, VisibleText;
    var widest, names := |VisibleText(x)|, [x, y];
    WidestSnoc([], x);
    WidestSnoc([] + [x], y);
    assert [] + [x] + [y] == names;
    hide WidestOf;
    RowAndCol(2 * widest + 4, widest + 2, 2, 0);
    assert ColsFor(names, 2 * widest + 2, 0) == 2;
    hide ColsFor, Grid;
    OneRow(names, 2 * widest + 2, 0);
    var grid := GridFor(names, 2 * widest + 2, 0);
    hide GridFor;
    assert grid[0] == [0, 1];
  }

  /** So is the condition on the indent: behind any indent that is not balanced, a harmless name
      overflows the width. */
  lemma BalancedNeeded(indent: seq<Rune>)
    requires !Balanced(indent)
    ensures var names, width := [Victim(ByteLen(indent))], ByteLen(indent);
      && Closed(names[0]) && WidestOf(names) + ByteLen(indent) <= width
      && GridFor(names, width, ByteLen(indent)) == [[0]]
      && |VisibleText(Line(names, [0], WidestOf(names) + 2, indent))| > width
  {
    hide ScanOf, VisibleText, Victim;
    var width := ByteLen(indent);
    var y := Victim(width);
    VictimAlone(width);
    VictimAfter(indent, width);
    WidestSnoc([], y);
    assert [] + [y] == [y];
    OneRow([y], width, width);
    assert GridFor([y], width, width)[0] == [0];
    assert Cells([y], [0], 2, 0) == [] && Cells([y], [0], 2, 1) == y;
  }

  // ---- the method -----------------------------------------------------------------------------

  method Columns(names: seq<seq<Rune>>, width: int, indent: seq<Rune>) returns (out: seq<Rune>)
    ensures out == Lines(names, GridFor(names, width, ByteLen(indent)), WidestOf(names) + 2, indent)
  {
    hide ScanOf, VisibleText, Lines, Grid;
    if |names| == 0 {
      NoRows(ColsFor(names, width, ByteLen(indent)));
      NoLines(ColsFor(names, width, ByteLen(indent)), WidestOf(names) + 2, indent);
      return [];
    }
    var cell := Widest(names);
    WidestBounds(names);
    cell := cell + 2;
    var cols := Max(1, (width - ByteLen(indent) + 2) / cell);
    var rows := (|names| + cols - 1) / cols;
    out := AllRows(names, rows, cols, cell, indent);
  }

  lemma NoLines(cols: nat, cell: nat, indent: seq<Rune>)
    ensures Lines([], Grid(0, 0, cols), cell, indent) == []
  {
  }

  /** The loop over the rows. */
  method AllRows(names: seq<seq<Rune>>, rows: nat, cols: nat, cell: nat, indent: seq<Rune>) returns (out: seq<Rune>)
    requires forall i :: 0 <= i < |names| ==> |VisibleText(names[i])| <= cell
    ensures out == Lines(names, Grid(|names|, rows, cols), cell, indent)
  {
    hide ScanOf, VisibleText, Index, RowOk;
    ghost var grid := Grid(|names|, rows, cols);
    out := [];
    for r := 0 to rows
      invariant out == Lines(names, grid[..r], cell, indent)
    {
      var text := RowText(names, rows, cols, cell, r);
      assert grid[..r + 1][..r] == grid[..r];
      out := out + (indent + text) + [NEWLINE];
    }
    assert grid[..rows] == grid;
  }

  method Widest(names: seq<seq<Rune>>) returns (w: nat)
    ensures w == WidestOf(names)
  {
    w := 0;
    for k := 0 to |names|
      invariant w == WidestOf(names[..k])
    {
      var n := VisibleLen(names[k]);
      assert names[..k + 1][..k] == names[..k];
      w := Max(w, n);
    }
    assert names[..|names|] == names;
  }

  /** A cell is padded exactly when another one follows in its row. */
  lemma PadsWhenMore(row: seq<nat>, r: nat, n: nat, rows: nat, cols: nat, c: nat)
    requires RowOk(row, r, n, rows, cols) && c < |row|
    ensures c < cols - 1 && row[c] + rows < n <==> c + 1 < |row|
  {
    NextIndex(c, rows, r);
    hide Index;
    if c + 1 < |row| {
      assert row[c + 1] == Index(c + 1, rows, r);
    }
  }

  method RowText(names: seq<seq<Rune>>, rows: nat, cols: nat, cell: nat, r: nat) returns (text: seq<Rune>)
    requires forall i :: 0 <= i < |names| ==> |VisibleText(names[i])| <= cell
    ensures var row := FullRow(|names|, rows, cols, r); text == Cells(names, row, cell, |row|)
  {
    hide ScanOf, VisibleText, Index;
    text := [];
    ghost var row := FullRow(|names|, rows, cols, r);
    var c := 0;
    while c < cols
      invariant 0 <= c <= |row|
      invariant text == Cells(names, row, cell, c)
    {
      var i := Index(c, rows, r);
      if i >= |names| {
        break;
      }
      assert c < |row| && row[c] == i;
      var n := VisibleLen(names[i]);
      text := text + names[i];
      PadsWhenMore(row, r, |names|, rows, cols, c);
      text := text + if c < cols - 1 && i + rows < |names| then Spaces(cell - n) else [];
      c := c + 1;
    }
  }
}
