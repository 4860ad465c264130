/** Video memory as a row of cells, and what block moves and fills of it mean for the 25 lines that
    start at `origin`. */
module ConsoleMemory {
  import opened ConsoleGrid

  const SCREEN: nat := 16384      // cells between SCREEN_START and SCREEN_END
  const WINDOW: nat := 2000

  type Memory = seq<Cell>

  ghost predicate Fits(mem: Memory, origin: nat) { |mem| == SCREEN && origin + WINDOW <= SCREEN }

  /** The lines that the controller shows from `origin` on. */
  ghost function Window(mem: Memory, origin: nat): (g: Grid)
    requires Fits(mem, origin)
    ensures GridOk(g)
    ensures forall r, c :: 0 <= r < LINES && 0 <= c < COLUMNS ==> g[r][c] == mem[origin + COLUMNS * r + c]
  {
    seq(LINES, r requires 0 <= r < LINES => mem[origin + COLUMNS * r..origin + COLUMNS * r + COLUMNS])
  }

  /** Cell (r, c) of the window. */
  ghost predicate Shown(mem: Memory, origin: nat, g: Grid, r: nat, c: nat)
    requires Fits(mem, origin) && GridOk(g) && r < LINES && c < COLUMNS
  {
    g[r][c] == mem[origin + COLUMNS * r + c]
  }

  lemma WindowIs(mem: Memory, origin: nat, g: Grid)
    requires Fits(mem, origin) && GridOk(g)
    requires forall r: nat, c: nat :: r < LINES && c < COLUMNS ==> Shown(mem, origin, g, r, c)
    ensures Window(mem, origin) == g
  {
    forall r | 0 <= r < LINES ensures Window(mem, origin)[r] == g[r] {
      forall c | 0 <= c < COLUMNS ensures Window(mem, origin)[r][c] == g[r][c] {
        assert Shown(mem, origin, g, r, c);
      }
    }
  }

  /** `rep movs`: n cells from src on go to dst on. */
  function Copied(mem: Memory, dst: nat, src: nat, n: nat): (m: Memory)
    requires dst + n <= |mem| && src + n <= |mem|
    ensures |m| == |mem|
  {
    seq(|mem|, i requires 0 <= i < |mem| => if dst <= i < dst + n then mem[src + (i - dst)] else mem[i])
  }

  /** `rep stosw` of blanks. */
  function Filled(mem: Memory, start: nat, n: nat): (m: Memory)
    requires start + n <= |mem|
    ensures |m| == |mem|
  {
    seq(|mem|, i requires 0 <= i < |mem| => if start <= i < start + n then BLANK else mem[i])
  }

  /** Only cells of the window have changed. */
  ghost predicate OutsideKept(mem: Memory, mem': Memory, origin: nat) {
    |mem'| == |mem| && forall i :: 0 <= i < |mem| && !(origin <= i < origin + WINDOW) ==> mem'[i] == mem[i]
  }

  lemma OutsideTwice(m: Memory, m1: Memory, m2: Memory, origin: nat)
    requires OutsideKept(m, m1, origin) && OutsideKept(m1, m2, origin)
    ensures OutsideKept(m, m2, origin)
  {
  }

  /** Every cell that has changed lies in the window that was shown before or in one of those shown since. */
  ghost predicate InWindows(mem: Memory, mem': Memory, before: seq<nat>, now: seq<nat>) {
    && |before| > 0 && before <= now && |mem'| == |mem|
    && forall i :: 0 <= i < |mem| && mem'[i] != mem[i] ==> InSome(i, |before| - 1, now)
  }

  ghost predicate InSome(i: int, from: nat, origins: seq<nat>) {
    exists k :: from <= k < |origins| && InWindow(i, origins[k])
  }

  ghost predicate InWindow(i: int, origin: nat) { origin <= i < origin + WINDOW }

  lemma NoWindow(mem: Memory, shown: seq<nat>)
    requires |shown| > 0
    ensures InWindows(mem, mem, shown, shown)
  {
  }

  /** Changes inside the window that is shown last. */
  lemma OneWindow(mem: Memory, mem': Memory, before: seq<nat>, now: seq<nat>, origin: nat)
    requires |before| > 0 && before <= now && now[|now| - 1] == origin && OutsideKept(mem, mem', origin)
    ensures InWindows(mem, mem', before, now)
  {
    forall i | 0 <= i < |mem| && mem'[i] != mem[i] ensures InSome(i, |before| - 1, now) {
      assert InWindow(i, now[|now| - 1]);
    }
  }

  lemma SinceGrows(i: int, o: seq<nat>, o1: seq<nat>, o2: seq<nat>)
    requires |o| > 0 && o <= o1 <= o2
    ensures InSome(i, |o| - 1, o1) || InSome(i, |o1| - 1, o2) ==> InSome(i, |o| - 1, o2)
  {
    if k :| |o| - 1 <= k < |o1| && InWindow(i, o1[k]) {
      assert o2[k] == o1[k];
    }
  }

  lemma WindowsTrans(m: Memory, m1: Memory, m2: Memory, o: seq<nat>, o1: seq<nat>, o2: seq<nat>)
    requires InWindows(m, m1, o, o1) && InWindows(m1, m2, o1, o2)
    ensures InWindows(m, m2, o, o2)
  {
    forall i | 0 <= i < |m| && m2[i] != m[i] ensures InSome(i, |o| - 1, o2) {
      SinceGrows(i, o, o1, o2);
    }
  }

  lemma MoreWindows(m: Memory, m1: Memory, m2: Memory, o: seq<nat>, o1: seq<nat>, o2: seq<nat>, origin: nat)
    requires o1 <= o2 && InWindows(m, m1, o, o1)
    requires o2[|o2| - 1] == origin && OutsideKept(m1, m2, origin)
    ensures InWindows(m, m2, o, o2)
  {
    OneWindow(m1, m2, o1, o2, origin);
    WindowsTrans(m, m1, m2, o, o1, o2);
  }

  lemma ScrollUpMoves(mem: Memory, o: nat, top: nat, bottom: nat)
    requires Fits(mem, o) && top < bottom <= LINES
    ensures var m := Filled(Copied(mem, o + COLUMNS * top, o + COLUMNS * (top + 1), COLUMNS * (bottom - top - 1)),
                            o + COLUMNS * (bottom - 1), COLUMNS);
      Window(m, o) == ScrollUp(Window(mem, o), top, bottom) && OutsideKept(mem, m, o)
  {
    var m := Filled(Copied(mem, o + COLUMNS * top, o + COLUMNS * (top + 1), COLUMNS * (bottom - top - 1)),
                    o + COLUMNS * (bottom - 1), COLUMNS);
    var g, g' := Window(mem, o), ScrollUp(Window(mem, o), top, bottom);
    forall r: nat, c: nat | r < LINES && c < COLUMNS ensures Shown(m, o, g', r, c) {
      if top <= r < bottom - 1 {
        assert g'[r] == g[r + 1];
      } else if r == bottom - 1 {
        assert g'[r] == BlankRow();
      } else {
        assert g'[r] == g[r];
      }
    }
    WindowIs(m, o, g');
  }

  lemma ScrolledUp(m: Memory, m1: Memory, m2: Memory, o: nat, top: nat, bottom: nat)
    requires Fits(m, o) && top < bottom <= LINES
    requires m1 == Copied(m, o + COLUMNS * top, o + COLUMNS * (top + 1), COLUMNS * (bottom - top - 1))
    requires m2 == Filled(m1, o + COLUMNS * (bottom - 1), COLUMNS)
    ensures Window(m2, o) == ScrollUp(Window(m, o), top, bottom) && OutsideKept(m, m2, o)
  {
    ScrollUpMoves(m, o, top, bottom);
  }

  lemma ScrolledDown(m: Memory, m1: Memory, m2: Memory, o: nat, top: nat, bottom: nat)
    requires Fits(m, o) && top < bottom <= LINES
    requires m1 == Copied(m, o + COLUMNS * (top + 1), o + COLUMNS * top, COLUMNS * (bottom - top - 1))
    requires m2 == Filled(m1, o + COLUMNS * top, COLUMNS)
    ensures Window(m2, o) == ScrollDown(Window(m, o), top, bottom) && OutsideKept(m, m2, o)
  {
    ScrollDownMoves(m, o, top, bottom);
  }

  lemma ScrollDownMoves(mem: Memory, o: nat, top: nat, bottom: nat)
    requires Fits(mem, o) && top < bottom <= LINES
    ensures var m := Filled(Copied(mem, o + COLUMNS * (top + 1), o + COLUMNS * top, COLUMNS * (bottom - top - 1)),
                            o + COLUMNS * top, COLUMNS);
      Window(m, o) == ScrollDown(Window(mem, o), top, bottom) && OutsideKept(mem, m, o)
  {
    var m := Filled(Copied(mem, o + COLUMNS * (top + 1), o + COLUMNS * top, COLUMNS * (bottom - top - 1)),
                    o + COLUMNS * top, COLUMNS);
    var g, g' := Window(mem, o), ScrollDown(Window(mem, o), top, bottom);
    forall r: nat, c: nat | r < LINES && c < COLUMNS ensures Shown(m, o, g', r, c) {
      if top < r < bottom {
        assert g'[r] == g[r - 1];
      } else if r == top {
        assert g'[r] == BlankRow();
      } else {
        assert g'[r] == g[r];
      }
    }
    WindowIs(m, o, g');
  }

  /** The hardware scroll: the window slides down one line and a blank line comes in. */
  lemma SlideScrolls(mem: Memory, o: nat)
    requires Fits(mem, o + COLUMNS)
    ensures var m := Filled(mem, o + WINDOW, COLUMNS);
      Window(m, o + COLUMNS) == ScrollUp(Window(mem, o), 0, LINES) && OutsideKept(mem, m, o + COLUMNS)
  {
    var m, o' := Filled(mem, o + WINDOW, COLUMNS), o + COLUMNS;
    var g, g' := Window(mem, o), ScrollUp(Window(mem, o), 0, LINES);
    forall r: nat, c: nat | r < LINES && c < COLUMNS ensures Shown(m, o', g', r, c) {
      if r < LINES - 1 {
        assert g'[r] == g[r + 1];
      } else {
        assert g'[r] == BlankRow();
      }
    }
    WindowIs(m, o', g');
  }

  /** At the end of video memory the window goes back to the start instead. */
  lemma RewindScrolls(mem: Memory, o: nat)
    requires Fits(mem, o)
    ensures var m := Filled(Copied(mem, 0, o + COLUMNS, COLUMNS * (LINES - 1)), COLUMNS * (LINES - 1), COLUMNS);
      Window(m, 0) == ScrollUp(Window(mem, o), 0, LINES) && OutsideKept(mem, m, 0)
  {
    var m := Filled(Copied(mem, 0, o + COLUMNS, COLUMNS * (LINES - 1)), COLUMNS * (LINES - 1), COLUMNS);
    var g, g' := Window(mem, o), ScrollUp(Window(mem, o), 0, LINES);
    forall r: nat, c: nat | r < LINES && c < COLUMNS ensures Shown(m, 0, g', r, c) {
      if r < LINES - 1 {
        assert g'[r] == g[r + 1];
      } else {
        assert g'[r] == BlankRow();
      }
    }
    WindowIs(m, 0, g');
  }

  /** Blanks from window cell `from` up to `to`. */
  lemma FillErases(mem: Memory, o: nat, from: nat, to: nat)
    requires Fits(mem, o) && from <= to <= WINDOW
    ensures var m := Filled(mem, o + from, to - from);
      Window(m, o) == Erase(Window(mem, o), from, to) && OutsideKept(mem, m, o)
  {
    var m := Filled(mem, o + from, to - from);
    var g' := Erase(Window(mem, o), from, to);
    forall r: nat, c: nat | r < LINES && c < COLUMNS ensures Shown(m, o, g', r, c) {
    }
    WindowIs(m, o, g');
  }

  /** A change inside one line. */
  lemma RowChanges(mem: Memory, m: Memory, o: nat, y: nat, row: Row)
    requires Fits(mem, o) && |m| == |mem| && y < LINES && |row| == COLUMNS
    requires forall c :: 0 <= c < COLUMNS ==> m[o + COLUMNS * y + c] == row[c]
    requires forall i :: 0 <= i < |mem| && !(o + COLUMNS * y <= i < o + COLUMNS * y + COLUMNS) ==> m[i] == mem[i]
    ensures Window(m, o) == Window(mem, o)[y := row] && OutsideKept(mem, m, o)
  {
    var g' := Window(mem, o)[y := row];
    forall r: nat, c: nat | r < LINES && c < COLUMNS ensures Shown(m, o, g', r, c) {
      if r == y {
        assert m[o + COLUMNS * y + c] == row[c];
      } else {
        var i := o + COLUMNS * r + c;
        assert r < y ==> i < o + COLUMNS * y;
        assert r > y ==> i >= o + COLUMNS * y + COLUMNS;
      }
    }
    WindowIs(m, o, g');
  }

  /** One more line at a time adds up: the loops of csi_L and csi_M. */
  lemma OneMoreInserted(g: Grid, y: nat, n: nat)
    requires GridOk(g) && y < LINES
    ensures ScrollDown(InsertRows(g, y, n), y, LINES) == InsertRows(g, y, n + 1)
  {
    var a, b := ScrollDown(InsertRows(g, y, n), y, LINES), InsertRows(g, y, n + 1);
    forall r | 0 <= r < LINES ensures a[r] == b[r] {
      if r > y { assert a[r] == InsertRows(g, y, n)[r - 1]; }
    }
  }

  lemma OneMoreDeleted(g: Grid, y: nat, n: nat)
    requires GridOk(g) && y < LINES
    ensures ScrollUp(DeleteRows(g, y, n), y, LINES) == DeleteRows(g, y, n + 1)
  {
    var a, b := ScrollUp(DeleteRows(g, y, n), y, LINES), DeleteRows(g, y, n + 1);
    forall r | 0 <= r < LINES ensures a[r] == b[r] {
      if y <= r < LINES - 1 { assert a[r] == DeleteRows(g, y, n)[r + 1]; }
    }
  }

  lemma OneMoreCellInserted(row: Row, x: nat, n: nat)
    requires x <= |row|
    ensures InsertInRow(InsertInRow(row, x, n), x, 1) == InsertInRow(row, x, n + 1)
  {
    var a, b := InsertInRow(InsertInRow(row, x, n), x, 1), InsertInRow(row, x, n + 1);
    forall c | 0 <= c < |row| ensures a[c] == b[c] {
      if c > x { assert a[c] == InsertInRow(row, x, n)[c - 1]; }
    }
  }

  lemma OneMoreCellDeleted(row: Row, x: nat, n: nat)
    requires x <= |row|
    ensures DeleteInRow(DeleteInRow(row, x, n), x, 1) == DeleteInRow(row, x, n + 1)
  {
    var a, b := DeleteInRow(DeleteInRow(row, x, n), x, 1), DeleteInRow(row, x, n + 1);
    forall c | 0 <= c < |row| ensures a[c] == b[c] {
      if x <= c < |row| - 1 { assert a[c] == DeleteInRow(row, x, n)[c + 1]; }
    }
  }

  lemma SetRowTwice(s: Screen, row: Row, row': Row)
    requires Ok(s) && |row| == COLUMNS && |row'| == COLUMNS
    ensures SetRow(SetRow(s, row), row') == SetRow(s, row') && SetRow(s, row).grid[s.y] == row
  {
    assert s.grid[s.y := row][s.y := row'] == s.grid[s.y := row'];
  }

  lemma SetSameRow(s: Screen)
    requires Ok(s)
    ensures SetRow(s, s.grid[s.y]) == s
  {
    assert s.grid[s.y := s.grid[s.y]] == s.grid;
  }

  lemma NoRowInserted(s: Screen)
    requires Ok(s)
    ensures s.(grid := InsertRows(s.grid, s.y, 0)) == s
  {
    assert InsertRows(s.grid, s.y, 0) == s.grid;
  }

  lemma NoRowDeleted(s: Screen)
    requires Ok(s)
    ensures s.(grid := DeleteRows(s.grid, s.y, 0)) == s
  {
    assert DeleteRows(s.grid, s.y, 0) == s.grid;
  }

  lemma NoCellInserted(s: Screen)
    requires Ok(s)
    ensures SetRow(s, InsertInRow(s.grid[s.y], s.x, 0)) == s
  {
    SetSameRow(s);
    assert InsertInRow(s.grid[s.y], s.x, 0) == s.grid[s.y];
  }

  lemma NoCellDeleted(s: Screen)
    requires Ok(s)
    ensures SetRow(s, DeleteInRow(s.grid[s.y], s.x, 0)) == s
  {
    SetSameRow(s);
    assert DeleteInRow(s.grid[s.y], s.x, 0) == s.grid[s.y];
  }

  lemma NextCellInserted(s: Screen, i: nat)
    requires Ok(s)
    ensures var s1 := SetRow(s, InsertInRow(s.grid[s.y], s.x, i));
      SetRow(s1, InsertInRow(s1.grid[s.y], s.x, 1)) == SetRow(s, InsertInRow(s.grid[s.y], s.x, i + 1))
  {
    var row := InsertInRow(s.grid[s.y], s.x, i);
    OneMoreCellInserted(s.grid[s.y], s.x, i);
    SetRowTwice(s, row, InsertInRow(row, s.x, 1));
  }

  lemma NextCellDeleted(s: Screen, i: nat)
    requires Ok(s)
    ensures var s1 := SetRow(s, DeleteInRow(s.grid[s.y], s.x, i));
      SetRow(s1, DeleteInRow(s1.grid[s.y], s.x, 1)) == SetRow(s, DeleteInRow(s.grid[s.y], s.x, i + 1))
  {
    var row := DeleteInRow(s.grid[s.y], s.x, i);
    OneMoreCellDeleted(s.grid[s.y], s.x, i);
    SetRowTwice(s, row, DeleteInRow(row, s.x, 1));
  }

  /** ICH by one as moves in memory. */
  lemma InsertMoves(mem: Memory, m: Memory, o: nat, y: nat, x: nat)
    requires Fits(mem, o) && |m| == |mem| && y < LINES && x <= COLUMNS
    requires var p, e := o + COLUMNS * y + x, o + COLUMNS * y + COLUMNS;
      && (forall j :: p < j < e ==> m[j] == mem[j - 1]) && (p < e ==> m[p] == BLANK)
      && (forall j :: 0 <= j < |mem| && !(p <= j < e) ==> m[j] == mem[j])
    ensures Window(m, o) == Window(mem, o)[y := InsertInRow(Window(mem, o)[y], x, 1)] && OutsideKept(mem, m, o)
  {
    var g := Window(mem, o);
    var row := InsertInRow(g[y], x, 1);
    forall c | 0 <= c < COLUMNS ensures m[o + COLUMNS * y + c] == row[c] {
      if x < c < COLUMNS { assert row[c] == g[y][c - 1]; }
    }
    RowChanges(mem, m, o, y, row);
  }

  /** DCH by one as moves in memory. */
  lemma DeleteMoves(mem: Memory, m: Memory, o: nat, y: nat, x: nat)
    requires Fits(mem, o) && |m| == |mem| && y < LINES && x < COLUMNS
    requires var p, e := o + COLUMNS * y + x, o + COLUMNS * y + COLUMNS - 1;
      && (forall j :: p <= j < e ==> m[j] == mem[j + 1]) && m[e] == BLANK
      && (forall j :: 0 <= j < |mem| && !(p <= j <= e) ==> m[j] == mem[j])
    ensures Window(m, o) == Window(mem, o)[y := DeleteInRow(Window(mem, o)[y], x, 1)] && OutsideKept(mem, m, o)
  {
    var g := Window(mem, o);
    var row := DeleteInRow(g[y], x, 1);
    forall c | 0 <= c < COLUMNS ensures m[o + COLUMNS * y + c] == row[c] {
      if x <= c < COLUMNS - 1 { assert row[c] == g[y][c + 1]; }
    }
    RowChanges(mem, m, o, y, row);
  }
}
