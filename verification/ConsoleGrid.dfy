/** The VT102 console of kernel/console.c as it looks to a user: 25 lines of 80 cells, a cursor, a
    scrolling region and the parser of escape sequences (ECMA-48). */
module ConsoleGrid {

  const LINES: nat := 25
  const COLUMNS: nat := 80
  const NPAR: nat := 16
  const BLANK: nat := 0x0720

  /** A character and its attribute. */
  type Cell = nat

  type Row = seq<Cell>
  type Grid = seq<Row>

  datatype Screen = Screen(grid: Grid, x: nat, y: nat, top: nat, bottom: nat, attr: nat,
                           state: nat, npar: nat, par: seq<nat>, ques: bool, savedX: nat, savedY: nat)

  ghost predicate GridOk(g: Grid) { |g| == LINES && forall r :: 0 <= r < LINES ==> |g[r]| == COLUMNS }

  /** The cursor may stand behind the last column, waiting for the next character. */
  ghost predicate Ok(s: Screen) {
    && GridOk(s.grid) && s.x <= COLUMNS && s.y < LINES && s.top < s.bottom <= LINES
    && s.state <= 3 && s.npar < NPAR && |s.par| == NPAR && s.savedX <= COLUMNS && s.savedY < LINES
  }

  /** unsigned long */
  function Wrap(n: int): nat { n % 0x1_0000_0000 }

  // ---------------------------------------------------------------- lines

  function BlankRow(): (r: Row)
    ensures |r| == COLUMNS && forall c :: 0 <= c < COLUMNS ==> r[c] == BLANK
  {
    seq(COLUMNS, _ => BLANK)
  }

  /** Lines [top, bottom) move up by one. */
  function ScrollUp(g: Grid, top: nat, bottom: nat): (g': Grid)
    requires GridOk(g) && top < bottom <= LINES
    ensures GridOk(g')
  {
    g[..top] + g[top + 1..bottom] + [BlankRow()] + g[bottom..]
  }

  /** Lines [top, bottom) move down by one. */
  function ScrollDown(g: Grid, top: nat, bottom: nat): (g': Grid)
    requires GridOk(g) && top < bottom <= LINES
    ensures GridOk(g')
  {
    g[..top] + [BlankRow()] + g[top..bottom - 1] + g[bottom..]
  }

  /** Cells [from, to), counted line by line, become blank. */
  function Erase(g: Grid, from: nat, to: nat): (g': Grid)
    ensures GridOk(g) ==> GridOk(g')
  {
    seq(|g|, r requires 0 <= r < |g| => EraseInRow(g[r], from - COLUMNS * r, to - COLUMNS * r))
  }

  function EraseInRow(row: Row, from: int, to: int): (r: Row)
    ensures |r| == |row|
  {
    seq(|row|, c requires 0 <= c < |row| => if from <= c < to then BLANK else row[c])
  }

  // ---------------------------------------------------------------- cursor

  function Lf(s: Screen): (s': Screen)
    requires Ok(s)
    ensures Ok(s')
  {
    if s.y + 1 < s.bottom then s.(y := s.y + 1) else s.(grid := ScrollUp(s.grid, s.top, s.bottom))
  }

  function Ri(s: Screen): (s': Screen)
    requires Ok(s)
    ensures Ok(s')
  {
    if s.y > s.top then s.(y := s.y - 1) else s.(grid := ScrollDown(s.grid, s.top, s.bottom))
  }

  function Goto(s: Screen, x: int, y: int): (s': Screen)
    requires Ok(s)
    ensures Ok(s')
  {
    if Wrap(x) >= COLUMNS || Wrap(y) >= LINES then s else s.(x := Wrap(x), y := Wrap(y))
  }

  function SetInRow(row: Row, x: nat, cell: Cell): (r: Row)
    requires x < |row|
    ensures |r| == |row|
  {
    row[x := cell]
  }

  function SetCell(s: Screen, x: nat, cell: Cell): (s': Screen)
    requires Ok(s) && x < COLUMNS
    ensures Ok(s')
  {
    SetRow(s, SetInRow(s.grid[s.y], x, cell))
  }

  function SetRow(s: Screen, row: Row): (s': Screen)
    requires Ok(s) && |row| == COLUMNS
    ensures Ok(s')
  {
    s.(grid := s.grid[s.y := row])
  }

  /** A cursor that has run over the right margin goes to the next line. */
  function Wrapped(s: Screen, over: nat): (s': Screen)
    requires Ok(s) && over <= COLUMNS
    ensures Ok(s') && s'.x == over
  {
    Lf(s.(x := over))
  }

  // ---------------------------------------------------------------- plain characters

  function Print(s: Screen, c: nat): (s': Screen)
    requires Ok(s)
    ensures Ok(s')
  {
    var s1 := if s.x >= COLUMNS then Wrapped(s, s.x - COLUMNS) else s;
    SetCell(s1, s1.x, s.attr * 256 + c).(x := s1.x + 1)
  }

  function Del(s: Screen): (s': Screen)
    requires Ok(s)
    ensures Ok(s')
  {
    if s.x > 0 then SetCell(s, s.x - 1, BLANK).(x := s.x - 1) else s
  }

  function Tab(s: Screen): (s': Screen)
    requires Ok(s)
    ensures Ok(s')
  {
    var x := s.x + 8 - s.x % 8;
    if x > COLUMNS then Wrapped(s, x - COLUMNS) else s.(x := x)
  }

  /** State 0: `erase` is the terminal's erase character. */
  function Plain(s: Screen, c: nat, erase: nat): (s': Screen)
    requires Ok(s)
    ensures Ok(s')
  {
    if 31 < c < 127 then Print(s, c)
    else if c == 27 then s.(state := 1)
    else if 10 <= c <= 12 then Lf(s)
    else if c == 13 then s.(x := 0)
    else if c == erase && c < 128 then Del(s)
    else if c == 8 then (if s.x > 0 then s.(x := s.x - 1) else s)
    else if c == 9 then Tab(s)
    else s
  }

  // ---------------------------------------------------------------- escape sequences

  function Save(s: Screen): Screen { s.(savedX := s.x, savedY := s.y) }

  function Restore(s: Screen): Screen { s.(x := s.savedX, y := s.savedY) }

  /** State 1.  The tests for '7' and '8' look at the column. */
  function Escape(s: Screen, c: nat): (s': Screen)
    requires Ok(s)
    ensures Ok(s')
  {
    var s := s.(state := 0);
    if c == '[' as nat then s.(state := 2)
    else if c == 'E' as nat then Goto(s, 0, s.y + 1)
    else if c == 'M' as nat then Ri(s)
    else if c == 'D' as nat then Lf(s)
    else if c == 'Z' as nat then s
    else if s.x == '7' as nat then Save(s)
    else if s.x == '8' as nat then Restore(s)
    else s
  }

  predicate Digit(c: nat) { '0' as nat <= c <= '9' as nat }

  /** State 3, and state 2 after its reset. */
  function Parameter(s: Screen, c: nat): (s': Screen)
    requires Ok(s)
    ensures Ok(s')
  {
    if c == ';' as nat && s.npar < NPAR - 1 then s.(npar := s.npar + 1)
    else if Digit(c) then s.(par := s.par[s.npar := Wrap(10 * s.par[s.npar] + c - '0' as nat)])
    else Command(s.(state := 0), c)
  }

  function AtLeastOne(n: nat): nat { if n == 0 then 1 else n }

  function LessOne(n: nat): nat { if n == 0 then 0 else n - 1 }

  /** A repeat count: 0 stands for 1, and more than `max` is as good as `max`. */
  function Times(n: nat, max: nat): nat { if n > max then max else AtLeastOne(n) }

  function Command(s: Screen, c: nat): (s': Screen)
    requires Ok(s)
    ensures Ok(s')
  {
    var p, q := s.par[0], s.par[1];
    var up, down := AtLeastOne(p), LessOne(p);
    if c == 'G' as nat || c == '`' as nat then Goto(First(s, down), down, s.y)
    else if c == 'A' as nat then Goto(First(s, up), s.x, s.y - up)
    else if c == 'B' as nat || c == 'e' as nat then Goto(First(s, up), s.x, s.y + up)
    else if c == 'C' as nat || c == 'a' as nat then Goto(First(s, up), s.x + up, s.y)
    else if c == 'D' as nat then Goto(First(s, up), s.x - up, s.y)
    else if c == 'E' as nat then Goto(First(s, up), 0, s.y + up)
    else if c == 'F' as nat then Goto(First(s, up), 0, s.y - up)
    else if c == 'd' as nat then Goto(First(s, down), s.x, down)
    else if c == 'H' as nat || c == 'f' as nat then
      Goto(First(s, down).(par := s.par[0 := down][1 := LessOne(q)]), LessOne(q), down)
    else if c == 'J' as nat then EraseDisplay(s, p)
    else if c == 'K' as nat then EraseLine(s, p)
    else if c == 'L' as nat then s.(grid := InsertRows(s.grid, s.y, Times(p, LINES)))
    else if c == 'M' as nat then s.(grid := DeleteRows(s.grid, s.y, Times(p, LINES)))
    else if c == 'P' as nat then SetRow(s, DeleteInRow(s.grid[s.y], s.x, Times(p, COLUMNS)))
    else if c == '@' as nat then SetRow(s, InsertInRow(s.grid[s.y], s.x, Times(p, COLUMNS)))
    else if c == 'm' as nat then s.(attr := Attributes(s.par, s.npar + 1, s.attr))
    else if c == 'r' as nat then Region(s, down, if q == 0 then LINES else q)
    else if c == 's' as nat then Save(s)
    else if c == 'u' as nat then Restore(s)
    else s
  }

  function First(s: Screen, p: nat): (s': Screen)
    requires Ok(s)
    ensures Ok(s')
  {
    s.(par := s.par[0 := p])
  }

  /** ED */
  function EraseDisplay(s: Screen, p: nat): (s': Screen)
    requires Ok(s)
    ensures Ok(s')
  {
    var here := COLUMNS * s.y + s.x;
    if p == 0 then s.(grid := Erase(s.grid, here, COLUMNS * LINES))
    else if p == 1 then s.(grid := Erase(s.grid, 0, here))
    else if p == 2 then s.(grid := Erase(s.grid, 0, COLUMNS * LINES))
    else s
  }

  /** EL */
  function EraseLine(s: Screen, p: nat): (s': Screen)
    requires Ok(s)
    ensures Ok(s')
  {
    var row := s.grid[s.y];
    if p == 0 then SetRow(s, EraseInRow(row, s.x, COLUMNS))
    else if p == 1 then SetRow(s, EraseInRow(row, 0, s.x))
    else if p == 2 then SetRow(s, BlankRow())
    else s
  }

  function Min(a: nat, b: nat): nat { if a < b then a else b }

  function BlankRows(n: nat): (g: Grid)
    ensures |g| == n && forall r :: 0 <= r < n ==> g[r] == BlankRow()
  {
    seq(n, _ => BlankRow())
  }

  function Blanks(n: nat): (row: Row)
    ensures |row| == n && forall c :: 0 <= c < n ==> row[c] == BLANK
  {
    seq(n, _ => BLANK)
  }

  /** IL: n blank lines at line y push the lines below down and off the screen. */
  function InsertRows(g: Grid, y: nat, n: nat): (g': Grid)
    requires GridOk(g) && y < LINES
    ensures GridOk(g')
  {
    var k := Min(n, |g| - y);
    g[..y] + BlankRows(k) + g[y..|g| - k]
  }

  /** DL: n lines from line y on disappear; blank lines come in from below. */
  function DeleteRows(g: Grid, y: nat, n: nat): (g': Grid)
    requires GridOk(g) && y < LINES
    ensures GridOk(g')
  {
    var k := Min(n, |g| - y);
    g[..y] + g[y + k..] + BlankRows(k)
  }

  /** ICH */
  function InsertInRow(row: Row, x: nat, n: nat): (r: Row)
    requires x <= |row|
    ensures |r| == |row|
  {
    var k := Min(n, |row| - x);
    row[..x] + Blanks(k) + row[x..|row| - k]
  }

  /** DCH */
  function DeleteInRow(row: Row, x: nat, n: nat): (r: Row)
    requires x <= |row|
    ensures |r| == |row|
  {
    var k := Min(n, |row| - x);
    row[..x] + row[x + k..] + Blanks(k)
  }

  /** SGR: the first n parameters in turn. */
  function Attributes(par: seq<nat>, n: nat, attr: nat): nat
    requires n <= |par|
  {
    if n == 0 then attr
    else
      var before := Attributes(par, n - 1, attr);
      if par[n - 1] == 0 || par[n - 1] == 27 then 0x07
      else if par[n - 1] == 1 || par[n - 1] == 4 then 0x0f
      else if par[n - 1] == 7 then 0x70
      else before
  }

  /** The scrolling region [top, bottom), if there is one. */
  function Region(s: Screen, top: nat, bottom: nat): (s': Screen)
    requires Ok(s)
    ensures Ok(s')
  {
    var s := s.(par := s.par[0 := top][1 := bottom]);
    if top < bottom <= LINES then s.(top := top, bottom := bottom) else s
  }

  // ---------------------------------------------------------------- con_write

  function Reset(s: Screen, ques: bool): Screen { s.(par := seq(NPAR, _ => 0), npar := 0, state := 3, ques := ques) }

  function Put(s: Screen, c: nat, erase: nat): (s': Screen)
    requires Ok(s)
    ensures Ok(s')
  {
    if s.state == 0 then Plain(s, c, erase)
    else if s.state == 1 then Escape(s, c)
    else if s.state == 2 then
      var r := Reset(s, c == '?' as nat);
      if c == '?' as nat then r else Parameter(r, c)
    else Parameter(s, c)
  }

  /** con_write on a whole stream of bytes. */
  function PutAll(s: Screen, bytes: seq<nat>, erase: nat): (s': Screen)
    requires Ok(s)
    ensures Ok(s')
  {
    if bytes == [] then s
    else
      var before := PutAll(s, bytes[..|bytes| - 1], erase);
      Put(before, bytes[|bytes| - 1], erase)
  }
}
