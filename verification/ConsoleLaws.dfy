/** What programs rely on when they write to the console: streams of bytes and what they do to the
    screen, with the meanings that ECMA-48 gives the sequences. */
module ConsoleLaws {
  import opened ConsoleGrid

  lemma {:induction false} PutAllSplit(s: Screen, a: seq<nat>, b: seq<nat>, erase: nat)
    requires Ok(s)
    ensures PutAll(s, a + b, erase) == PutAll(PutAll(s, a, erase), b, erase)
  {
    if b == [] {
      assert a + b == a;
    } else {
      var n := |b| - 1;
      PutAllSplit(s, a, b[..n], erase);
      assert (a + b)[..|a + b| - 1] == a + b[..n];
    }
  }

  lemma PutOne(s: Screen, c: nat, erase: nat)
    requires Ok(s)
    ensures PutAll(s, [c], erase) == Put(s, c, erase)
  {
    assert [c][..0] == [];
    assert PutAll(s, [], erase) == s;
  }

  // ---------------------------------------------------------------- text

  predicate Printable(c: nat) { 31 < c < 127 }

  function Cells(text: seq<nat>, attr: nat): (row: Row)
    ensures |row| == |text| && forall i :: 0 <= i < |text| ==> row[i] == attr * 256 + text[i]
  {
    seq(|text|, i requires 0 <= i < |text| => attr * 256 + text[i])
  }

  /** A row with the text over it from column x on. */
  function Written(row: Row, x: nat, text: seq<nat>, attr: nat): (r: Row)
    requires x + |text| <= |row|
    ensures |r| == |row|
  {
    row[..x] + Cells(text, attr) + row[x + |text|..]
  }

  /** Printable text that fits in the line appears there, and nothing else changes but the column. */
  lemma {:induction false} TextAppears(s: Screen, text: seq<nat>, erase: nat)
    requires Ok(s) && s.state == 0 && s.x + |text| <= COLUMNS && forall i :: 0 <= i < |text| ==> Printable(text[i])
    ensures PutAll(s, text, erase) == SetRow(s, Written(s.grid[s.y], s.x, text, s.attr)).(x := s.x + |text|)
  {
    var row := s.grid[s.y];
    if text == [] {
      assert Written(row, s.x, text, s.attr) == row;
      assert s.grid[s.y := row] == s.grid;
    } else {
      var n := |text| - 1;
      var t := text[..n];
      TextAppears(s, t, erase);
      OneMoreCharacter(s, t, text[n], erase);
      assert t + [text[n]] == text;
    }
  }

  lemma OneMoreCharacter(s: Screen, t: seq<nat>, c: nat, erase: nat)
    requires Ok(s) && s.state == 0 && s.x + |t| < COLUMNS && Printable(c)
    ensures Put(SetRow(s, Written(s.grid[s.y], s.x, t, s.attr)).(x := s.x + |t|), c, erase)
         == SetRow(s, Written(s.grid[s.y], s.x, t + [c], s.attr)).(x := s.x + |t| + 1)
  {
    var row := s.grid[s.y];
    var w, w' := Written(row, s.x, t, s.attr), Written(row, s.x, t + [c], s.attr);
    assert w[s.x + |t| := s.attr * 256 + c] == w';
    assert s.grid[s.y := w][s.y := w'] == s.grid[s.y := w'];
  }

  /** A character after a full line starts the next one. */
  lemma FullLineWraps(s: Screen, c: nat, erase: nat)
    requires Ok(s) && s.state == 0 && s.x == COLUMNS && Printable(c)
    ensures var r := Put(s, c, erase);
      && r.x == 1 && r.grid[r.y][0] == s.attr * 256 + c
      && r.y == (if s.y + 1 < s.bottom then s.y + 1 else s.y)
      && (s.y + 1 < s.bottom ==> r.grid == s.grid[r.y := r.grid[r.y]])
  {
  }

  // ---------------------------------------------------------------- numbers

  function Digit10(d: nat): nat { '0' as nat + d }

  function Decimal(n: nat): (d: seq<nat>)
    ensures d != []
  {
    if n < 10 then [Digit10(n)] else Decimal(n / 10) + [Digit10(n % 10)]
  }

  /** The parser reads back the decimal digits of every 32-bit parameter. */
  lemma {:induction false} ParameterReadsBack(s: Screen, n: nat, erase: nat)
    requires Ok(s) && s.state == 3 && s.par[s.npar] == 0 && n < 0x1_0000_0000
    ensures PutAll(s, Decimal(n), erase) == s.(par := s.par[s.npar := n])
  {
    if n < 10 {
      PutOne(s, Digit10(n), erase);
    } else {
      var q, d := n / 10, n % 10;
      ParameterReadsBack(s, q, erase);
      PutAllSplit(s, Decimal(q), [Digit10(d)], erase);
      OneMoreDigit(s, q, d, erase);
    }
  }

  lemma OneMoreDigit(s: Screen, q: nat, d: nat, erase: nat)
    requires Ok(s) && s.state == 3 && d < 10 && 10 * q + d < 0x1_0000_0000
    ensures PutAll(s.(par := s.par[s.npar := q]), [Digit10(d)], erase) == s.(par := s.par[s.npar := 10 * q + d])
  {
    PutOne(s.(par := s.par[s.npar := q]), Digit10(d), erase);
    assert s.par[s.npar := q][s.npar := 10 * q + d] == s.par[s.npar := 10 * q + d];
  }

  /** Right after `ESC [` the first byte that is not '?' finds all parameters zero. */
  lemma FreshParameters(s: Screen, bytes: seq<nat>, erase: nat)
    requires Ok(s) && s.state == 2 && bytes != [] && bytes[0] != '?' as nat
    ensures PutAll(s, bytes, erase) == PutAll(Reset(s, false), bytes, erase)
  {
    assert bytes == [bytes[0]] + bytes[1..];
    PutAllSplit(s, [bytes[0]], bytes[1..], erase);
    PutAllSplit(Reset(s, false), [bytes[0]], bytes[1..], erase);
    PutOne(s, bytes[0], erase);
    PutOne(Reset(s, false), bytes[0], erase);
  }

  lemma {:induction false} DecimalStarts(n: nat)
    ensures Digit(Decimal(n)[0])
  {
    if n >= 10 { DecimalStarts(n / 10); }
  }

  // ---------------------------------------------------------------- sequences

  /** The two bytes that start a control sequence. */
  const CSI: seq<nat> := [27, '[' as nat]

  lemma Introduced(s: Screen, erase: nat)
    requires Ok(s) && s.state == 0
    ensures PutAll(s, CSI, erase) == s.(state := 2)
  {
    PutAllSplit(s, [27], ['[' as nat], erase);
    PutOne(s, 27, erase);
    PutOne(Put(s, 27, erase), '[' as nat, erase);
  }

  function CsiOne(n: nat, c: nat): seq<nat> { CSI + Decimal(n) + [c] }

  /** One parameter and a final byte run the command on that parameter alone. */
  lemma OneParameter(s: Screen, n: nat, c: nat, erase: nat)
    requires Ok(s) && s.state == 0 && n < 0x1_0000_0000 && !Digit(c) && c != ';' as nat
    ensures PutAll(s, CsiOne(n, c), erase)
         == Command(Reset(s, false).(par := seq(NPAR, _ => 0)[0 := n], state := 0), c)
  {
    PutAllSplit(s, CSI + Decimal(n), [c], erase);
    PutAllSplit(s, CSI, Decimal(n), erase);
    Introduced(s, erase);
    DecimalStarts(n);
    FreshParameters(s.(state := 2), Decimal(n), erase);
    var r := Reset(s, false);
    assert Reset(s.(state := 2), false) == r;
    ParameterReadsBack(r, n, erase);
    PutOne(r.(par := r.par[0 := n]), c, erase);
  }

  function CsiTwo(m: nat, n: nat, c: nat): seq<nat> { CSI + Decimal(m) + [';' as nat] + Decimal(n) + [c] }

  lemma FirstParameter(s: Screen, m: nat, erase: nat)
    requires Ok(s) && s.state == 0 && m < 0x1_0000_0000
    ensures PutAll(s, CSI + Decimal(m) + [';' as nat], erase)
         == Reset(s, false).(par := seq(NPAR, _ => 0)[0 := m], npar := 1)
  {
    PutAllSplit(s, CSI + Decimal(m), [';' as nat], erase);
    PutAllSplit(s, CSI, Decimal(m), erase);
    Introduced(s, erase);
    DecimalStarts(m);
    FreshParameters(s.(state := 2), Decimal(m), erase);
    var r := Reset(s, false);
    assert Reset(s.(state := 2), false) == r;
    ParameterReadsBack(r, m, erase);
    PutOne(r.(par := r.par[0 := m]), ';' as nat, erase);
  }

  lemma TwoParameters(s: Screen, m: nat, n: nat, c: nat, erase: nat)
    requires Ok(s) && s.state == 0 && m < 0x1_0000_0000 && n < 0x1_0000_0000 && !Digit(c) && c != ';' as nat
    ensures PutAll(s, CsiTwo(m, n, c), erase)
         == Command(Reset(s, false).(par := seq(NPAR, _ => 0)[0 := m][1 := n], npar := 1, state := 0), c)
  {
    var b := CSI + Decimal(m) + [';' as nat];
    PutAllSplit(s, b + Decimal(n), [c], erase);
    PutAllSplit(s, b, Decimal(n), erase);
    FirstParameter(s, m, erase);
    var r := Reset(s, false).(par := seq(NPAR, _ => 0)[0 := m], npar := 1);
    ParameterReadsBack(r, n, erase);
    PutOne(r.(par := r.par[1 := n]), c, erase);
  }

  lemma PositionCommand(s: Screen, y: nat, x: nat)
    requires Ok(s) && s.par[0] == y && s.par[1] == x && 1 <= y <= LINES && 1 <= x <= COLUMNS
    ensures var r := Command(s, 'H' as nat);
      r.x == x - 1 && r.y == y - 1 && SameScreen(s, r)
  {
    assert Wrap(x - 1) == x - 1 && Wrap(y - 1) == y - 1;
  }

  /** The same but for the cursor and the parameters that the parser has read. */
  predicate SameScreen(s: Screen, r: Screen) {
    && r.grid == s.grid && r.top == s.top && r.bottom == s.bottom && r.attr == s.attr && r.state == s.state
    && r.savedX == s.savedX && r.savedY == s.savedY
  }

  /** CUP (section 8.3.21 of ECMA-48): the cursor goes to line y and column x, counted from 1, and nothing
      else changes. */
  lemma CursorPosition(s: Screen, y: nat, x: nat, erase: nat)
    requires Ok(s) && s.state == 0 && 1 <= y <= LINES && 1 <= x <= COLUMNS
    ensures var r := PutAll(s, CsiTwo(y, x, 'H' as nat), erase);
      r.x == x - 1 && r.y == y - 1 && SameScreen(s, r)
  {
    TwoParameters(s, y, x, 'H' as nat, erase);
    PositionCommand(Reset(s, false).(par := seq(NPAR, _ => 0)[0 := y][1 := x], npar := 1, state := 0), y, x);
  }

  /** ED 2 (section 8.3.39 of ECMA-48): every cell is blank, the cursor stays. */
  lemma EraseAll(s: Screen, erase: nat)
    requires Ok(s) && s.state == 0
    ensures var r := PutAll(s, CsiOne(2, 'J' as nat), erase);
      r.x == s.x && r.y == s.y && forall i, j :: 0 <= i < LINES && 0 <= j < COLUMNS ==> r.grid[i][j] == BLANK
  {
    OneParameter(s, 2, 'J' as nat, erase);
  }

  /** EL 2 (section 8.3.41 of ECMA-48): the cursor's line is blank, no other line changes. */
  lemma EraseWholeLine(s: Screen, erase: nat)
    requires Ok(s) && s.state == 0
    ensures var r := PutAll(s, CsiOne(2, 'K' as nat), erase);
      r.x == s.x && r.y == s.y && r.grid == s.grid[s.y := BlankRow()]
  {
    OneParameter(s, 2, 'K' as nat, erase);
  }

  /** Going to a place and writing there shows the text there, wherever the cursor was. */
  lemma TextAt(s: Screen, y: nat, x: nat, text: seq<nat>, erase: nat)
    requires Ok(s) && s.state == 0 && 1 <= y <= LINES && 1 <= x && x - 1 + |text| <= COLUMNS && x <= COLUMNS
    requires forall i :: 0 <= i < |text| ==> Printable(text[i])
    ensures PutAll(s, CsiTwo(y, x, 'H' as nat) + text, erase).grid
         == s.grid[y - 1 := Written(s.grid[y - 1], x - 1, text, s.attr)]
  {
    CursorPosition(s, y, x, erase);
    PutAllSplit(s, CsiTwo(y, x, 'H' as nat), text, erase);
    TextAppears(PutAll(s, CsiTwo(y, x, 'H' as nat), erase), text, erase);
  }

  // ---------------------------------------------------------------- insert and delete

  /** Deleting the lines just inserted brings back all but those that fell off the screen. */
  lemma DeleteUndoesInsert(g: Grid, y: nat, n: nat)
    requires GridOk(g) && y < LINES
    ensures var k := Min(n, LINES - y);
      DeleteRows(InsertRows(g, y, n), y, n) == g[..LINES - k] + BlankRows(k)
  {
    var k := Min(n, LINES - y);
    var a, b := DeleteRows(InsertRows(g, y, n), y, n), g[..LINES - k] + BlankRows(k);
    forall r | 0 <= r < LINES ensures a[r] == b[r] {
      if y <= r < LINES - k { assert a[r] == InsertRows(g, y, n)[r + k]; }
    }
  }

  /** Inserting the lines just deleted leaves blanks in their place. */
  lemma InsertAfterDelete(g: Grid, y: nat, n: nat)
    requires GridOk(g) && y < LINES
    ensures var k := Min(n, LINES - y);
      InsertRows(DeleteRows(g, y, n), y, n) == g[..y] + BlankRows(k) + g[y + k..]
  {
    var k := Min(n, LINES - y);
    var a, b := InsertRows(DeleteRows(g, y, n), y, n), g[..y] + BlankRows(k) + g[y + k..];
    forall r | 0 <= r < LINES ensures a[r] == b[r] {
      if r >= y + k { assert a[r] == DeleteRows(g, y, n)[r - k]; }
    }
  }

  lemma CellDeleteUndoesInsert(row: Row, x: nat, n: nat)
    requires x <= |row|
    ensures var k := Min(n, |row| - x);
      DeleteInRow(InsertInRow(row, x, n), x, n) == row[..|row| - k] + Blanks(k)
  {
    var k := Min(n, |row| - x);
    var a, b := DeleteInRow(InsertInRow(row, x, n), x, n), row[..|row| - k] + Blanks(k);
    forall c | 0 <= c < |row| ensures a[c] == b[c] {
      if x <= c < |row| - k { assert a[c] == InsertInRow(row, x, n)[c + k]; }
    }
  }

  /** A region scrolled up and down again has lost its first line and nothing else. */
  lemma ScrollDownUndoesUp(g: Grid, top: nat, bottom: nat)
    requires GridOk(g) && top < bottom <= LINES
    ensures ScrollDown(ScrollUp(g, top, bottom), top, bottom) == g[top := BlankRow()]
  {
    var a, b := ScrollDown(ScrollUp(g, top, bottom), top, bottom), g[top := BlankRow()];
    forall r | 0 <= r < LINES ensures a[r] == b[r] {
      if top < r < bottom { assert a[r] == ScrollUp(g, top, bottom)[r - 1]; }
    }
  }

  // ---------------------------------------------------------------- ESC 7 and ESC 8

  const ESC: nat := 27

  lemma TwoBytes(s: Screen, c: nat, erase: nat)
    requires Ok(s) && s.state == 0
    ensures PutAll(s, [ESC, c], erase) == Escape(s.(state := 1), c)
  {
    PutAllSplit(s, [ESC], [c], erase);
    assert [ESC] + [c] == [ESC, c];
    PutOne(s, ESC, erase);
    PutOne(s.(state := 1), c, erase);
  }

  /** ESC 7 is meant to save the cursor.  The code compares the column with '7' instead of the character,
      so it saves exactly in column 55; anywhere else the old position stays saved. */
  lemma SavesInColumn55(s: Screen, erase: nat)
    requires Ok(s) && s.state == 0
    ensures var r := PutAll(s, [ESC, '7' as nat], erase);
      r.savedX == s.x && r.savedY == s.y <==> s.x == 55 || (s.savedX == s.x && s.savedY == s.y)
  {
    TwoBytes(s, '7' as nat, erase);
  }

  /** ESC 8 is meant to restore it, and does exactly in column 56. */
  lemma RestoresInColumn56(s: Screen, erase: nat)
    requires Ok(s) && s.state == 0
    ensures var r := PutAll(s, [ESC, '8' as nat], erase);
      r.x == s.savedX && r.y == s.savedY <==> s.x == 56 || (s.x == s.savedX && s.y == s.savedY)
  {
    TwoBytes(s, '8' as nat, erase);
  }

  /** On a fresh screen with the cursor in column 10, ESC 7 saves nothing. */
  lemma SaveIsLost(s: Screen, erase: nat)
    requires Ok(s) && s.state == 0 && s.x == 10 && s.savedX == 0 && s.savedY == 0
    ensures var r := PutAll(s, [ESC, '7' as nat], erase); r.savedX == 0 && r.x == 10
  {
    TwoBytes(s, '7' as nat, erase);
  }
}
