/** What every control character and every sequence with one parameter does to the screen, from the bytes that a
    program writes and in numbers: lines 0 to 24, columns 0 to 79, and column 80 for a cursor behind a full line. */
module ConsoleCommands {
  import opened ConsoleGrid
  import opened ConsoleLaws

  // ---------------------------------------------------------------- the bytes

  /** ESC [ and a final byte. */
  lemma NoParameter(s: Screen, c: nat, erase: nat)
    requires Ok(s) && s.state == 0 && !Digit(c) && c != ';' as nat && c != '?' as nat
    ensures PutAll(s, [27, 91, c], erase) == Command(Reset(s, false).(state := 0), c)
  {
    assert [27, 91, c] == CSI + [c];
    PutAllSplit(s, CSI, [c], erase);
    Introduced(s, erase);
    PutOne(s.(state := 2), c, erase);
    assert Reset(s.(state := 2), false) == Reset(s, false);
  }

  /** The digits of a number below 1000, and where they stand in a sequence. */
  lemma DigitsOf(a: nat, b: nat, c: nat)
    requires a < 10 && b < 10 && c < 10
    ensures Decimal(a) == [48 + a]
    ensures a > 0 ==> Decimal(10 * a + b) == [48 + a, 48 + b]
    ensures a > 0 ==> Decimal(100 * a + 10 * b + c) == [48 + a, 48 + b, 48 + c]
  {
    if a > 0 {
      assert (10 * a + b) / 10 == a && (10 * a + b) % 10 == b;
      assert (100 * a + 10 * b + c) / 10 == 10 * a + b && (100 * a + 10 * b + c) % 10 == c;
    }
  }

  lemma SequenceBytes(m: nat, n: nat, c: nat)
    ensures CsiOne(n, c) == [27, 91] + Decimal(n) + [c]
    ensures CsiTwo(m, n, c) == [27, 91] + Decimal(m) + [59] + Decimal(n) + [c]
  {
  }

  // ---------------------------------------------------------------- moving the cursor

  /** The cursor is in line y and column x, and nothing else of the screen has changed. */
  predicate Stands(s: Screen, r: Screen, x: int, y: int) { r.x == x && r.y == y && SameScreen(s, r) }

  /** What is left of the parser's state when a sequence with one parameter runs its command. */
  function Ready(s: Screen, n: nat): (r: Screen)
    requires Ok(s)
    ensures Ok(r)
  {
    Reset(s, false).(par := seq(NPAR, _ => 0)[0 := n], state := 0)
  }

  lemma ReadyIs(s: Screen, n: nat)
    requires Ok(s) && s.state == 0
    ensures Stands(s, Ready(s, n), s.x, s.y) && Ready(s, n).par[0] == n && Ready(s, n).npar == 0
  {
  }

  lemma WrapIs(v: int)
    ensures 0 <= v < 0x1_0000_0000 ==> Wrap(v) == v
    ensures -0x1_0000_0000 <= v < 0 ==> Wrap(v) == v + 0x1_0000_0000
    ensures 0x1_0000_0000 <= v < 0x2_0000_0000 ==> Wrap(v) == v - 0x1_0000_0000
  {
  }

  /** gotoxy on what is left of s. */
  lemma GotoIs(s: Screen, t: Screen, x: int, y: int)
    requires Ok(t) && Stands(s, t, s.x, s.y)
    ensures if Wrap(x) < 80 && Wrap(y) < 25 then Stands(s, Goto(t, x, y), Wrap(x), Wrap(y))
            else Stands(s, Goto(t, x, y), s.x, s.y)
  {
  }

  /** The commands that move the cursor, by their final bytes. */
  lemma MovesAre(t: Screen, c: nat)
    requires Ok(t)
    ensures var up, down := AtLeastOne(t.par[0]), LessOne(t.par[0]);
      && (c == 65 ==> Command(t, c) == Goto(First(t, up), t.x, t.y - up))
      && (c == 66 || c == 101 ==> Command(t, c) == Goto(First(t, up), t.x, t.y + up))
      && (c == 67 || c == 97 ==> Command(t, c) == Goto(First(t, up), t.x + up, t.y))
      && (c == 68 ==> Command(t, c) == Goto(First(t, up), t.x - up, t.y))
      && (c == 69 ==> Command(t, c) == Goto(First(t, up), 0, t.y + up))
      && (c == 70 ==> Command(t, c) == Goto(First(t, up), 0, t.y - up))
      && (c == 71 || c == 96 ==> Command(t, c) == Goto(First(t, down), down, t.y))
      && (c == 100 ==> Command(t, c) == Goto(First(t, down), t.x, down))
  {
  }

  /** What the sequence with final byte c and number n comes to, if its command is a move to (x, y). */
  lemma MovedTo(s: Screen, n: nat, c: nat, p: nat, x: int, y: int, erase: nat)
    requires Ok(s) && s.state == 0 && n < 0x1_0000_0000 && !Digit(c) && c != ';' as nat
    requires Command(Ready(s, n), c) == Goto(First(Ready(s, n), p), x, y)
    requires -0x1_0000_0000 <= x < 0x2_0000_0000 && -0x1_0000_0000 <= y < 0x2_0000_0000
    ensures var r := PutAll(s, CsiOne(n, c), erase);
      if Wrap(x) < 80 && Wrap(y) < 25 then Stands(s, r, Wrap(x), Wrap(y)) else Stands(s, r, s.x, s.y)
  {
    OneParameter(s, n, c, erase);
    ReadyIs(s, n);
    FirstStands(s, Ready(s, n), p);
    GotoIs(s, First(Ready(s, n), p), x, y);
    WrapIs(x);
    WrapIs(y);
  }

  lemma FirstStands(s: Screen, t: Screen, p: nat)
    requires Ok(t) && Stands(s, t, s.x, s.y)
    ensures Stands(s, First(t, p), s.x, s.y)
  {
  }

  /** CUU (section 8.3.22 of ECMA-48): n lines up, 0 counted as 1, in the same column.  A move off the screen is
      not made, nor is one from behind the last column; numbers just below 2^32 count as negative. */
  lemma CursorUp(s: Screen, n: nat, erase: nat)
    requires Ok(s) && s.state == 0 && n < 0x1_0000_0000
    ensures var r, k := PutAll(s, CsiOne(n, 65), erase), if n == 0 then 1 else n;
      && (s.x < 80 && k <= s.y ==> Stands(s, r, s.x, s.y - k))
      && (s.x < 80 && s.y - k + 0x1_0000_0000 < 25 ==> Stands(s, r, s.x, s.y - k + 0x1_0000_0000))
      && (s.x == 80 || (k > s.y && s.y - k + 0x1_0000_0000 >= 25) ==> Stands(s, r, s.x, s.y))
  {
    var k := AtLeastOne(n);
    ReadyIs(s, n);
    MovesAre(Ready(s, n), 65);
    MovedTo(s, n, 65, k, s.x, s.y - k, erase);
    WrapIs(s.x);
    WrapIs(s.y - k);
  }

  /** CUD (section 8.3.19 of ECMA-48), and VPR (8.3.160), by its final byte e. */
  lemma CursorDown(s: Screen, n: nat, c: nat, erase: nat)
    requires Ok(s) && s.state == 0 && n < 0x1_0000_0000 && (c == 66 || c == 101)
    ensures var r, k := PutAll(s, CsiOne(n, c), erase), if n == 0 then 1 else n;
      && (s.x < 80 && s.y + k < 25 ==> Stands(s, r, s.x, s.y + k))
      && (s.x < 80 && s.y + k >= 0x1_0000_0000 ==> Stands(s, r, s.x, s.y + k - 0x1_0000_0000))
      && (s.x == 80 || 25 <= s.y + k < 0x1_0000_0000 ==> Stands(s, r, s.x, s.y))
  {
    var k := AtLeastOne(n);
    ReadyIs(s, n);
    MovesAre(Ready(s, n), c);
    MovedTo(s, n, c, k, s.x, s.y + k, erase);
    WrapIs(s.x);
    WrapIs(s.y + k);
  }

  /** CUF (section 8.3.20 of ECMA-48), and HPR (8.3.59), by its final byte a. */
  lemma CursorRight(s: Screen, n: nat, c: nat, erase: nat)
    requires Ok(s) && s.state == 0 && n < 0x1_0000_0000 && (c == 67 || c == 97)
    ensures var r, k := PutAll(s, CsiOne(n, c), erase), if n == 0 then 1 else n;
      && (s.x + k < 80 ==> Stands(s, r, s.x + k, s.y))
      && (s.x + k >= 0x1_0000_0000 ==> Stands(s, r, s.x + k - 0x1_0000_0000, s.y))
      && (80 <= s.x + k < 0x1_0000_0000 ==> Stands(s, r, s.x, s.y))
  {
    var k := AtLeastOne(n);
    ReadyIs(s, n);
    MovesAre(Ready(s, n), c);
    MovedTo(s, n, c, k, s.x + k, s.y, erase);
    WrapIs(s.x + k);
    WrapIs(s.y);
  }

  /** CUB (section 8.3.18 of ECMA-48). */
  lemma CursorLeft(s: Screen, n: nat, erase: nat)
    requires Ok(s) && s.state == 0 && n < 0x1_0000_0000
    ensures var r, k := PutAll(s, CsiOne(n, 68), erase), if n == 0 then 1 else n;
      && (k <= s.x ==> Stands(s, r, s.x - k, s.y))
      && (s.x - k + 0x1_0000_0000 < 80 ==> Stands(s, r, s.x - k + 0x1_0000_0000, s.y))
      && (k > s.x && s.x - k + 0x1_0000_0000 >= 80 ==> Stands(s, r, s.x, s.y))
  {
    var k := AtLeastOne(n);
    ReadyIs(s, n);
    MovesAre(Ready(s, n), 68);
    MovedTo(s, n, 68, k, s.x - k, s.y, erase);
    WrapIs(s.x - k);
    WrapIs(s.y);
  }

  /** CNL (section 8.3.12 of ECMA-48): to the start of the n-th line below. */
  lemma NextLine(s: Screen, n: nat, erase: nat)
    requires Ok(s) && s.state == 0 && n < 0x1_0000_0000
    ensures var r, k := PutAll(s, CsiOne(n, 69), erase), if n == 0 then 1 else n;
      && (s.y + k < 25 ==> Stands(s, r, 0, s.y + k))
      && (s.y + k >= 0x1_0000_0000 ==> Stands(s, r, 0, s.y + k - 0x1_0000_0000))
      && (25 <= s.y + k < 0x1_0000_0000 ==> Stands(s, r, s.x, s.y))
  {
    var k := AtLeastOne(n);
    ReadyIs(s, n);
    MovesAre(Ready(s, n), 69);
    MovedTo(s, n, 69, k, 0, s.y + k, erase);
    WrapIs(0);
    WrapIs(s.y + k);
  }

  /** CPL (section 8.3.13 of ECMA-48): to the start of the n-th line above. */
  lemma PreviousLine(s: Screen, n: nat, erase: nat)
    requires Ok(s) && s.state == 0 && n < 0x1_0000_0000
    ensures var r, k := PutAll(s, CsiOne(n, 70), erase), if n == 0 then 1 else n;
      && (k <= s.y ==> Stands(s, r, 0, s.y - k))
      && (s.y - k + 0x1_0000_0000 < 25 ==> Stands(s, r, 0, s.y - k + 0x1_0000_0000))
      && (k > s.y && s.y - k + 0x1_0000_0000 >= 25 ==> Stands(s, r, s.x, s.y))
  {
    var k := AtLeastOne(n);
    ReadyIs(s, n);
    MovesAre(Ready(s, n), 70);
    MovedTo(s, n, 70, k, 0, s.y - k, erase);
    WrapIs(0);
    WrapIs(s.y - k);
  }

  /** CHA (section 8.3.9 of ECMA-48), and HPA (8.3.57), by its final byte `: to column n, counted from 1. */
  lemma ToColumn(s: Screen, n: nat, c: nat, erase: nat)
    requires Ok(s) && s.state == 0 && n < 0x1_0000_0000 && (c == 71 || c == 96)
    ensures var r := PutAll(s, CsiOne(n, c), erase);
      && (n <= 80 ==> Stands(s, r, if n == 0 then 0 else n - 1, s.y))
      && (n > 80 ==> Stands(s, r, s.x, s.y))
  {
    var k := LessOne(n);
    ReadyIs(s, n);
    MovesAre(Ready(s, n), c);
    MovedTo(s, n, c, k, k, s.y, erase);
    WrapIs(k);
    WrapIs(s.y);
  }

  /** VPA (section 8.3.158 of ECMA-48): to line n, counted from 1. */
  lemma ToLine(s: Screen, n: nat, erase: nat)
    requires Ok(s) && s.state == 0 && n < 0x1_0000_0000
    ensures var r := PutAll(s, CsiOne(n, 100), erase);
      && (s.x < 80 && n <= 25 ==> Stands(s, r, s.x, if n == 0 then 0 else n - 1))
      && (s.x == 80 || n > 25 ==> Stands(s, r, s.x, s.y))
  {
    var k := LessOne(n);
    ReadyIs(s, n);
    MovesAre(Ready(s, n), 100);
    MovedTo(s, n, 100, k, s.x, k, erase);
    WrapIs(s.x);
    WrapIs(k);
  }

  /** The same with two numbers. */
  function ReadyTwo(s: Screen, m: nat, n: nat): (r: Screen)
    requires Ok(s)
    ensures Ok(r)
  {
    Reset(s, false).(par := seq(NPAR, _ => 0)[0 := m][1 := n], npar := 1, state := 0)
  }

  lemma ReadyTwoIs(s: Screen, m: nat, n: nat)
    requires Ok(s) && s.state == 0
    ensures Stands(s, ReadyTwo(s, m, n), s.x, s.y)
    ensures ReadyTwo(s, m, n).par[0] == m && ReadyTwo(s, m, n).par[1] == n && ReadyTwo(s, m, n).npar == 1
  {
  }

  /** The parameters are what the command leaves; the rest stands. */
  lemma ParStands(s: Screen, t: Screen, par: seq<nat>)
    requires Ok(t) && Stands(s, t, s.x, s.y) && |par| == NPAR
    ensures Ok(t.(par := par)) && Stands(s, t.(par := par), s.x, s.y)
  {
  }

  lemma PlaceIs(t: Screen, c: nat)
    requires Ok(t) && (c == 72 || c == 102)
    ensures var x, y := LessOne(t.par[1]), LessOne(t.par[0]);
      Command(t, c) == Goto(t.(par := t.par[0 := y][1 := x]), x, y)
  {
  }

  /** CUP and HVP (sections 8.3.21 and 8.3.63 of ECMA-48) for any two numbers. */
  lemma ToPlace(s: Screen, m: nat, n: nat, c: nat, erase: nat)
    requires Ok(s) && s.state == 0 && m < 0x1_0000_0000 && n < 0x1_0000_0000 && (c == 72 || c == 102)
    ensures var r := PutAll(s, CsiTwo(m, n, c), erase);
      && (m <= 25 && n <= 80 ==> Stands(s, r, if n == 0 then 0 else n - 1, if m == 0 then 0 else m - 1))
      && (m > 25 || n > 80 ==> Stands(s, r, s.x, s.y))
  {
    var t, x, y := ReadyTwo(s, m, n), LessOne(n), LessOne(m);
    TwoParameters(s, m, n, c, erase);
    ReadyTwoIs(s, m, n);
    PlaceIs(t, c);
    ParStands(s, t, t.par[0 := y][1 := x]);
    GotoIs(s, t.(par := t.par[0 := y][1 := x]), x, y);
    WrapIs(x);
    WrapIs(y);
  }

  /** Without digits the number is 0. */
  lemma PlainSequence(s: Screen, c: nat, erase: nat)
    requires Ok(s) && s.state == 0 && !Digit(c) && c != ';' as nat && c != '?' as nat
    ensures PutAll(s, [27, 91, c], erase) == PutAll(s, CsiOne(0, c), erase)
  {
    NoParameter(s, c, erase);
    OneParameter(s, 0, c, erase);
    assert seq(NPAR, _ => 0)[0 := 0] == seq(NPAR, _ => 0);
    assert Ready(s, 0) == Reset(s, false).(state := 0);
  }

  // ---------------------------------------------------------------- erasing

  /** Everything but the cells is as before. */
  predicate SameButCells(s: Screen, r: Screen) { SameScreen(s.(grid := r.grid), r) && r.x == s.x && r.y == s.y }

  /** ED (section 8.3.39 of ECMA-48): 0 from the cursor to the end, 1 up to the cursor, 2 everything; another
      number nothing. */
  lemma ErasedDisplay(s: Screen, n: nat, erase: nat, i: nat, j: nat)
    requires Ok(s) && s.state == 0 && n < 0x1_0000_0000 && i < 25 && j < 80
    ensures var r := PutAll(s, CsiOne(n, 74), erase);
      && SameButCells(s, r) && GridOk(r.grid)
      && (n == 0 ==> r.grid[i][j] == if i > s.y || (i == s.y && j >= s.x) then 0x0720 else s.grid[i][j])
      && (n == 1 ==> r.grid[i][j] == if i < s.y || (i == s.y && j < s.x) then 0x0720 else s.grid[i][j])
      && (n == 2 ==> r.grid[i][j] == 0x0720)
      && (n > 2 ==> r.grid[i][j] == s.grid[i][j])
  {
    OneParameter(s, n, 74, erase);
  }

  /** EL (section 8.3.41 of ECMA-48): the same within the cursor's line. */
  lemma ErasedLine(s: Screen, n: nat, erase: nat, i: nat, j: nat)
    requires Ok(s) && s.state == 0 && n < 0x1_0000_0000 && i < 25 && j < 80
    ensures var r := PutAll(s, CsiOne(n, 75), erase);
      && SameButCells(s, r) && GridOk(r.grid)
      && (i != s.y || n > 2 ==> r.grid[i][j] == s.grid[i][j])
      && (i == s.y && n == 0 ==> r.grid[i][j] == if j >= s.x then 0x0720 else s.grid[i][j])
      && (i == s.y && n == 1 ==> r.grid[i][j] == if j < s.x then 0x0720 else s.grid[i][j])
      && (i == s.y && n == 2 ==> r.grid[i][j] == 0x0720)
  {
    OneParameter(s, n, 75, erase);
  }

  // ---------------------------------------------------------------- inserting and deleting

  /** The commands that move cells, by their final bytes. */
  lemma ShiftsAre(s: Screen, n: nat)
    requires Ok(s) && s.state == 0
    ensures var t := Ready(s, n);
      && Command(t, 76) == t.(grid := InsertRows(s.grid, s.y, Times(n, LINES)))
      && Command(t, 77) == t.(grid := DeleteRows(s.grid, s.y, Times(n, LINES)))
      && Command(t, 64) == SetRow(t, InsertInRow(s.grid[s.y], s.x, Times(n, COLUMNS)))
      && Command(t, 80) == SetRow(t, DeleteInRow(s.grid[s.y], s.x, Times(n, COLUMNS)))
  {
    ReadyIs(s, n);
  }

  lemma RowCells(g: Grid, y: nat, n: nat, i: nat, j: nat)
    requires GridOk(g) && y < 25 && i < 25 && j < 80
    ensures var r, k := InsertRows(g, y, Times(n, LINES)), if n == 0 then 1 else n;
      r[i][j] == if i < y then g[i][j] else if i < y + k then 0x0720 else g[i - k][j]
    ensures var r, k := DeleteRows(g, y, Times(n, LINES)), if n == 0 then 1 else n;
      r[i][j] == if i < y then g[i][j] else if i + k < 25 then g[i + k][j] else 0x0720
  {
  }

  lemma CellsInRow(row: Row, x: nat, n: nat, j: nat)
    requires |row| == 80 && x <= 80 && j < 80
    ensures var r, k := InsertInRow(row, x, Times(n, COLUMNS)), if n == 0 then 1 else n;
      r[j] == if j < x then row[j] else if j < x + k then 0x0720 else row[j - k]
    ensures var r, k := DeleteInRow(row, x, Times(n, COLUMNS)), if n == 0 then 1 else n;
      r[j] == if j < x then row[j] else if j + k < 80 then row[j + k] else 0x0720
  {
  }

  lemma GridStands(s: Screen, n: nat, g: Grid)
    requires Ok(s) && s.state == 0 && GridOk(g)
    ensures SameButCells(s, Ready(s, n).(grid := g))
  {
    ReadyIs(s, n);
  }

  /** IL (section 8.3.67 of ECMA-48): n blank lines from the cursor's line on, 0 counted as 1; the lines below move
      down and off the screen. */
  lemma InsertedLines(s: Screen, n: nat, erase: nat, i: nat, j: nat)
    requires Ok(s) && s.state == 0 && n < 0x1_0000_0000 && i < 25 && j < 80
    ensures var r, k := PutAll(s, CsiOne(n, 76), erase), if n == 0 then 1 else n;
      && SameButCells(s, r) && GridOk(r.grid)
      && (i < s.y ==> r.grid[i][j] == s.grid[i][j])
      && (s.y <= i < s.y + k ==> r.grid[i][j] == 0x0720)
      && (s.y + k <= i ==> r.grid[i][j] == s.grid[i - k][j])
  {
    OneParameter(s, n, 76, erase);
    ShiftsAre(s, n);
    RowCells(s.grid, s.y, n, i, j);
    GridStands(s, n, InsertRows(s.grid, s.y, Times(n, LINES)));
  }

  /** DL (section 8.3.32 of ECMA-48): n lines from the cursor's line on are gone, and blank lines come in below. */
  lemma DeletedLines(s: Screen, n: nat, erase: nat, i: nat, j: nat)
    requires Ok(s) && s.state == 0 && n < 0x1_0000_0000 && i < 25 && j < 80
    ensures var r, k := PutAll(s, CsiOne(n, 77), erase), if n == 0 then 1 else n;
      && SameButCells(s, r) && GridOk(r.grid)
      && (i < s.y ==> r.grid[i][j] == s.grid[i][j])
      && (s.y <= i && i + k < 25 ==> r.grid[i][j] == s.grid[i + k][j])
      && (s.y <= i && i + k >= 25 ==> r.grid[i][j] == 0x0720)
  {
    OneParameter(s, n, 77, erase);
    ShiftsAre(s, n);
    RowCells(s.grid, s.y, n, i, j);
    GridStands(s, n, DeleteRows(s.grid, s.y, Times(n, LINES)));
  }

  /** ICH (section 8.3.64 of ECMA-48): n blanks at the cursor; the rest of the line moves right and off it. */
  lemma InsertedBlanks(s: Screen, n: nat, erase: nat, i: nat, j: nat)
    requires Ok(s) && s.state == 0 && n < 0x1_0000_0000 && i < 25 && j < 80
    ensures var r, k := PutAll(s, CsiOne(n, 64), erase), if n == 0 then 1 else n;
      && SameButCells(s, r) && GridOk(r.grid)
      && (i != s.y || j < s.x ==> r.grid[i][j] == s.grid[i][j])
      && (i == s.y && s.x <= j < s.x + k ==> r.grid[i][j] == 0x0720)
      && (i == s.y && s.x + k <= j ==> r.grid[i][j] == s.grid[i][j - k])
  {
    OneParameter(s, n, 64, erase);
    ShiftsAre(s, n);
    CellsInRow(s.grid[s.y], s.x, n, j);
    GridStands(s, n, s.grid[s.y := InsertInRow(s.grid[s.y], s.x, Times(n, COLUMNS))]);
  }

  /** DCH (section 8.3.26 of ECMA-48): n characters at the cursor are gone, and blanks come in at the end. */
  lemma DeletedCharacters(s: Screen, n: nat, erase: nat, i: nat, j: nat)
    requires Ok(s) && s.state == 0 && n < 0x1_0000_0000 && i < 25 && j < 80
    ensures var r, k := PutAll(s, CsiOne(n, 80), erase), if n == 0 then 1 else n;
      && SameButCells(s, r) && GridOk(r.grid)
      && (i != s.y || j < s.x ==> r.grid[i][j] == s.grid[i][j])
      && (i == s.y && s.x <= j && j + k < 80 ==> r.grid[i][j] == s.grid[i][j + k])
      && (i == s.y && s.x <= j && j + k >= 80 ==> r.grid[i][j] == 0x0720)
  {
    OneParameter(s, n, 80, erase);
    ShiftsAre(s, n);
    CellsInRow(s.grid[s.y], s.x, n, j);
    GridStands(s, n, s.grid[s.y := DeleteInRow(s.grid[s.y], s.x, Times(n, COLUMNS))]);
  }

  // ---------------------------------------------------------------- attributes, region, saved cursor

  /** What SGR n makes of an attribute: bold and underscore are bright, 7 is reverse, 0 and 27 are plain. */
  function Rendition(n: nat, before: nat): nat {
    if n == 0 || n == 27 then 0x07 else if n == 1 || n == 4 then 0x0f else if n == 7 then 0x70 else before
  }

  lemma AttributesAre(par: seq<nat>, attr: nat)
    requires |par| == NPAR
    ensures Attributes(par, 1, attr) == Rendition(par[0], attr)
    ensures Attributes(par, 2, attr) == Rendition(par[1], Rendition(par[0], attr))
  {
    assert Attributes(par, 0, attr) == attr;
  }

  lemma RenditionCommand(s: Screen, t: Screen)
    requires Ok(t) && Stands(s, t, s.x, s.y)
    ensures var r := Command(t, 109);
      Stands(s.(attr := r.attr), r, s.x, s.y) && r.attr == Attributes(t.par, t.npar + 1, s.attr)
  {
  }

  /** SGR (section 8.3.117 of ECMA-48): only the attribute changes. */
  lemma GraphicRendition(s: Screen, n: nat, erase: nat)
    requires Ok(s) && s.state == 0 && n < 0x1_0000_0000
    ensures var r := PutAll(s, CsiOne(n, 109), erase);
      Stands(s.(attr := r.attr), r, s.x, s.y) && r.attr == Rendition(n, s.attr)
  {
    OneParameter(s, n, 109, erase);
    ReadyIs(s, n);
    RenditionCommand(s, Ready(s, n));
    AttributesAre(Ready(s, n).par, s.attr);
  }

  /** With two numbers, one after the other. */
  lemma TwoRenditions(s: Screen, m: nat, n: nat, erase: nat)
    requires Ok(s) && s.state == 0 && m < 0x1_0000_0000 && n < 0x1_0000_0000
    ensures var r := PutAll(s, CsiTwo(m, n, 109), erase);
      Stands(s.(attr := r.attr), r, s.x, s.y) && r.attr == Rendition(n, Rendition(m, s.attr))
  {
    TwoParameters(s, m, n, 109, erase);
    ReadyTwoIs(s, m, n);
    RenditionCommand(s, ReadyTwo(s, m, n));
    AttributesAre(ReadyTwo(s, m, n).par, s.attr);
  }

  /** DECSTBM: lines m to n, counted from 1, become the scrolling region if m is above n and n is on the screen; no
      last line means the last of the screen. */
  lemma ScrollingRegion(s: Screen, m: nat, n: nat, erase: nat)
    requires Ok(s) && s.state == 0 && m < 0x1_0000_0000 && n < 0x1_0000_0000
    ensures var r := PutAll(s, CsiTwo(m, n, 114), erase);
      var top, bottom := if m == 0 then 0 else m - 1, if n == 0 then 25 else n;
      && Stands(s.(top := r.top, bottom := r.bottom), r, s.x, s.y)
      && (top < bottom <= 25 ==> r.top == top && r.bottom == bottom)
      && (!(top < bottom <= 25) ==> r.top == s.top && r.bottom == s.bottom)
  {
    TwoParameters(s, m, n, 114, erase);
  }

  /** ESC [ s saves the cursor. */
  lemma SavesCursor(s: Screen, erase: nat)
    requires Ok(s) && s.state == 0
    ensures Stands(s.(savedX := s.x, savedY := s.y), PutAll(s, [27, 91, 115], erase), s.x, s.y)
  {
    NoParameter(s, 115, erase);
  }

  /** ESC [ u brings it back. */
  lemma RestoresCursor(s: Screen, erase: nat)
    requires Ok(s) && s.state == 0
    ensures Stands(s, PutAll(s, [27, 91, 117], erase), s.savedX, s.savedY)
  {
    NoParameter(s, 117, erase);
  }

  // ---------------------------------------------------------------- text

  /** Printable text that fits in the line, cell by cell: the attribute in the high byte, the character in the low. */
  lemma TextShown(s: Screen, text: seq<nat>, erase: nat, i: nat, j: nat)
    requires Ok(s) && s.state == 0 && s.x + |text| <= 80 && forall k :: 0 <= k < |text| ==> 32 <= text[k] < 127
    requires i < 25 && j < 80
    ensures var r := PutAll(s, text, erase);
      && Stands(s.(grid := r.grid), r, s.x + |text|, s.y) && GridOk(r.grid)
      && r.grid[i][j] == if i == s.y && s.x <= j < s.x + |text| then 256 * s.attr + text[j - s.x] else s.grid[i][j]
  {
    TextAppears(s, text, erase);
  }

  lemma PutBytes(s: Screen, c: nat, erase: nat)
    requires Ok(s) && s.state == 0
    ensures PutAll(s, [13], erase) == s.(x := 0) && PutAll(s, [10], erase) == Lf(s)
    ensures 32 <= c < 127 ==> PutAll(s, [c], erase) == Print(s, c)
  {
    PutOne(s, 13, erase);
    PutOne(s, 10, erase);
    PutOne(s, c, erase);
  }

  lemma PrintWraps(s: Screen, c: nat)
    requires Ok(s) && s.state == 0 && s.x == 80
    ensures Print(s, c) == Print(Lf(s.(x := 0)), c) && Lf(s.(x := 0)).state == 0
  {
  }

  lemma PutThree(s: Screen, a: nat, b: nat, c: nat, erase: nat)
    requires Ok(s)
    ensures PutAll(s, [a, b, c], erase) == PutAll(PutAll(PutAll(s, [a], erase), [b], erase), [c], erase)
  {
    assert [a, b, c] == [a] + ([b] + [c]);
    PutAllSplit(s, [a], [b] + [c], erase);
    PutAllSplit(PutAll(s, [a], erase), [b], [c], erase);
  }

  /** After a full line a character comes where it would come after CR and LF. */
  lemma FullLineIs(s: Screen, c: nat, erase: nat)
    requires Ok(s) && s.state == 0 && s.x == 80 && 32 <= c < 127
    ensures PutAll(s, [c], erase) == PutAll(s, [13, 10, c], erase)
  {
    PrintWraps(s, c);
    PutBytes(s, c, erase);
    PutBytes(s.(x := 0), c, erase);
    PutBytes(Lf(s.(x := 0)), c, erase);
    PutThree(s, 13, 10, c, erase);
  }

  // ---------------------------------------------------------------- control characters and short sequences

  /** Everything but the cells and the line of the cursor is as before. */
  predicate SameButLine(s: Screen, r: Screen) { Stands(s.(grid := r.grid), r, s.x, r.y) && r.npar == s.npar }

  /** One line down; on the last line of the region its lines move up instead, and a blank one comes in. */
  predicate LineDown(s: Screen, r: Screen)
    requires Ok(s) && Ok(r)
  {
    && SameButLine(s, r)
    && (s.y + 1 < s.bottom ==> r.y == s.y + 1 && r.grid == s.grid)
    && (s.y + 1 >= s.bottom ==> r.y == s.y && forall i, j :: 0 <= i < 25 && 0 <= j < 80 ==> RaisedCell(s, r, i, j))
  }

  /** One line up; on the first line of the region its lines move down instead. */
  predicate LineUp(s: Screen, r: Screen)
    requires Ok(s) && Ok(r)
  {
    && SameButLine(s, r)
    && (s.y > s.top ==> r.y == s.y - 1 && r.grid == s.grid)
    && (s.y <= s.top ==> r.y == s.y && forall i, j :: 0 <= i < 25 && 0 <= j < 80 ==> LoweredCell(s, r, i, j))
  }

  predicate RaisedCell(s: Screen, r: Screen, i: nat, j: nat)
    requires GridOk(s.grid) && GridOk(r.grid) && i < 25 && j < 80 && s.bottom <= 25
  {
    r.grid[i][j] == if s.top <= i && i + 1 < s.bottom then s.grid[i + 1][j]
                    else if i + 1 == s.bottom then 0x0720 else s.grid[i][j]
  }

  predicate LoweredCell(s: Screen, r: Screen, i: nat, j: nat)
    requires GridOk(s.grid) && GridOk(r.grid) && i < 25 && j < 80 && s.bottom <= 25
  {
    r.grid[i][j] == if s.top < i < s.bottom then s.grid[i - 1][j] else if i == s.top then 0x0720 else s.grid[i][j]
  }

  lemma LfIs(s: Screen)
    requires Ok(s)
    ensures LineDown(s, Lf(s))
  {
  }

  lemma RiIs(s: Screen)
    requires Ok(s)
    ensures LineUp(s, Ri(s))
  {
  }

  /** LF, VT and FF. */
  lemma LineFeeds(s: Screen, c: nat, erase: nat)
    requires Ok(s) && s.state == 0 && (c == 10 || c == 11 || c == 12)
    ensures LineDown(s, PutAll(s, [c], erase))
  {
    PutOne(s, c, erase);
    LfIs(s);
  }

  /** CR, BS, and every control character that has no meaning here. */
  lemma Controls(s: Screen, c: nat, erase: nat)
    requires Ok(s) && s.state == 0 && (c < 32 || c >= 127) && c != erase
    ensures c == 13 ==> Stands(s, PutAll(s, [c], erase), 0, s.y)
    ensures c == 8 ==> Stands(s, PutAll(s, [c], erase), if s.x > 0 then s.x - 1 else 0, s.y)
    ensures c !in {8, 9, 10, 11, 12, 13, 27} ==> PutAll(s, [c], erase) == s
  {
    PutOne(s, c, erase);
  }

  /** HT: to the next column that 8 divides; past the line, the next line at the column that is left. */
  lemma TabIs(s: Screen, erase: nat)
    requires Ok(s) && s.state == 0 && erase != 9
    ensures var r := PutAll(s, [9], erase);
      && (s.x < 80 ==> Stands(s, r, s.x + 8 - s.x % 8, s.y))
      && (s.x == 80 ==> LineDown(s.(x := 8), r))
  {
    PutOne(s, 9, erase);
    if s.x == 80 { LfIs(s.(x := 8)); }
  }

  /** The erase character rubs out the cell before the cursor, within the line. */
  lemma RubOut(s: Screen, erase: nat)
    requires Ok(s) && s.state == 0 && erase < 128 && (erase < 32 || erase == 127) && erase !in {10, 11, 12, 13, 27}
    ensures var r := PutAll(s, [erase], erase);
      && (s.x == 0 ==> r == s)
      && (s.x > 0 ==> Stands(s.(grid := r.grid), r, s.x - 1, s.y) && forall i, j :: 0 <= i < 25 && 0 <= j < 80 ==>
            r.grid[i][j] == if i == s.y && j == s.x - 1 then 0x0720 else s.grid[i][j])
  {
    PutOne(s, erase, erase);
  }

  /** NEL, by ESC E: to the start of the next line, if there is one. */
  lemma NextLineStart(s: Screen, erase: nat)
    requires Ok(s) && s.state == 0
    ensures Stands(s, PutAll(s, [27, 69], erase), if s.y < 24 then 0 else s.x, if s.y < 24 then s.y + 1 else s.y)
  {
    TwoBytes(s, 69, erase);
    var t := s.(state := 1).(state := 0);
    assert Escape(s.(state := 1), 69) == Goto(t, 0, s.y + 1);
    GotoIs(s, t, 0, s.y + 1);
    WrapIs(s.y + 1);
  }

  /** Any other byte after ESC does nothing, but for the saving and restoring in columns 55 and 56. */
  lemma OtherEscapes(s: Screen, c: nat, erase: nat)
    requires Ok(s) && s.state == 0 && c !in {91, 69, 77, 68}
    ensures (s.x != 55 && s.x != 56) || c == 90 ==> PutAll(s, [27, c], erase) == s
  {
    TwoBytes(s, c, erase);
    assert s.(state := 1).(state := 0) == s;
  }

  /** A sequence with another final byte does nothing. */
  lemma OtherSequences(s: Screen, n: nat, c: nat, erase: nat)
    requires Ok(s) && s.state == 0 && n < 0x1_0000_0000 && !Digit(c) && c != 59 && !(64 <= c <= 72) && !(74 <= c <= 77)
    requires c !in {80, 96, 97, 100, 101, 102, 109, 114, 115, 117}
    ensures Stands(s, PutAll(s, CsiOne(n, c), erase), s.x, s.y)
  {
    OneParameter(s, n, c, erase);
    ReadyIs(s, n);
  }

  /** RI, by ESC M. */
  lemma ReverseLine(s: Screen, erase: nat)
    requires Ok(s) && s.state == 0
    ensures LineUp(s, PutAll(s, [27, 77], erase))
  {
    TwoBytes(s, 77, erase);
    assert s.(state := 1).(state := 0) == s;
    RiIs(s);
  }

  /** IND, by ESC D. */
  lemma ForwardLine(s: Screen, erase: nat)
    requires Ok(s) && s.state == 0
    ensures LineDown(s, PutAll(s, [27, 68], erase))
  {
    TwoBytes(s, 68, erase);
    assert s.(state := 1).(state := 0) == s;
    LfIs(s);
  }
}
