/** kernel/console.c: the window that slides over video memory.  Addresses count 16-bit cells from
    SCREEN_START. */
module Console {
  import opened ConsoleGrid
  import opened ConsoleMemory

  class Terminal {
    const mem: array<Cell>
    const par: array<nat>
    var origin: nat
    var scrEnd: nat
    var pos: nat
    var x: nat
    var y: nat
    var top: nat
    var bottom: nat
    var attr: nat
    var state: nat
    var npar: nat
    var ques: bool
    var savedX: nat
    var savedY: nat

    /** Where the window has been, up to now. */
    ghost var shown: seq<nat>

    /** pos is the cell of the cursor, and [origin, scr_end) a window inside video memory. */
    ghost predicate Placed()
      reads this, mem, par
    {
      && Fits(mem[..], origin) && par.Length == NPAR && scrEnd == origin + WINDOW
      && pos == origin + COLUMNS * y + x
      && x <= COLUMNS && y < LINES && top < bottom <= LINES
      && npar < NPAR && savedX <= COLUMNS && savedY < LINES
      && |shown| > 0 && shown[|shown| - 1] == origin && forall o :: o in shown ==> o + WINDOW <= SCREEN
    }

    ghost predicate Valid()
      reads this, mem, par
    {
      Placed() && state <= 3
    }

    /** What the user sees. */
    ghost function S(): (s: Screen)
      requires Placed()
      reads this, mem, par
      ensures state <= 3 ==> Ok(s)
    {
      Screen(Window(mem[..], origin), x, y, top, bottom, attr, state, npar, par[..], ques, savedX, savedY)
    }

    /** con_init with the cursor position that the boot code left. */
    constructor (col: nat, line: nat)
      ensures Valid() && S().top == 0 && S().bottom == LINES && S().attr == 0x07
      ensures col < COLUMNS && line < LINES ==> S().x == col && S().y == line
    {
      mem := new Cell[SCREEN](_ => BLANK);
      par := new nat[NPAR](_ => 0);
      origin, scrEnd, top, bottom, attr := 0, WINDOW, 0, LINES, 0x07;
      state, npar, ques, savedX, savedY := 0, 0, false, 0, 0;
      x, y := if col < COLUMNS && line < LINES then col else 0, if col < COLUMNS && line < LINES then line else 0;
      pos := if col < COLUMNS && line < LINES then COLUMNS * line + col else 0;
      shown := [0];
    }

    // -------------------------------------------------------------- string instructions

    /** cld; rep movs */
    method CopyUp(dst: nat, src: nat, n: nat)
      requires dst <= src && src + n <= mem.Length
      modifies mem
      ensures mem[..] == Copied(old(mem[..]), dst, src, n)
    {
      ghost var m := mem[..];
      var i := 0;
      while i < n
        invariant 0 <= i <= n
        invariant forall j :: dst <= j < dst + i ==> mem[j] == m[src + (j - dst)]
        invariant forall j :: 0 <= j < mem.Length && !(dst <= j < dst + i) ==> mem[j] == m[j]
      {
        mem[dst + i] := mem[src + i];
        i := i + 1;
      }
    }

    /** std; rep movs */
    method CopyDown(dst: nat, src: nat, n: nat)
      requires src <= dst && dst + n <= mem.Length
      modifies mem
      ensures mem[..] == Copied(old(mem[..]), dst, src, n)
    {
      ghost var m := mem[..];
      var i := n;
      while i > 0
        invariant 0 <= i <= n
        invariant forall j :: dst + i <= j < dst + n ==> mem[j] == m[src + (j - dst)]
        invariant forall j :: 0 <= j < mem.Length && !(dst + i <= j < dst + n) ==> mem[j] == m[j]
      {
        i := i - 1;
        mem[dst + i] := mem[src + i];
      }
    }

    /** rep stosw */
    method Fill(start: nat, n: nat)
      requires start + n <= mem.Length
      modifies mem
      ensures mem[..] == Filled(old(mem[..]), start, n)
    {
      ghost var m := mem[..];
      var i := 0;
      while i < n
        invariant 0 <= i <= n
        invariant forall j :: 0 <= j < mem.Length ==> mem[j] == if start <= j < start + i then BLANK else m[j]
      {
        mem[start + i] := BLANK;
        i := i + 1;
      }
    }

    // -------------------------------------------------------------- scrolling

    method GotoXY(newX: int, newY: int)
      requires Valid()
      modifies this`x, this`y, this`pos
      ensures Valid() && S() == Goto(old(S()), newX, newY)
    {
      if Wrap(newX) >= COLUMNS || Wrap(newY) >= LINES {
        return;
      }
      x, y := Wrap(newX), Wrap(newY);
      pos := origin + (y * COLUMNS + x);
    }

    method Scrup()
      requires Valid()
      modifies mem, this`origin, this`scrEnd, this`pos, this`shown
      ensures Valid() && S() == old(S()).(grid := ScrollUp(old(S()).grid, top, bottom))
      ensures OutsideKept(old(mem[..]), mem[..], origin) && old(shown) <= shown
    {
      if top == 0 && bottom == LINES {
        Slide();
      } else {
        ScrollRegion();
      }
    }

    method ScrollRegion()
      requires Valid()
      modifies mem
      ensures Valid() && S() == old(S()).(grid := ScrollUp(old(S()).grid, top, bottom))
      ensures OutsideKept(old(mem[..]), mem[..], origin)
    {
      ghost var m := mem[..];
      CopyUp(origin + COLUMNS * top, origin + COLUMNS * (top + 1), COLUMNS * (bottom - top - 1));
      ghost var m1 := mem[..];
      Fill(origin + COLUMNS * (bottom - 1), COLUMNS);
      ScrolledUp(m, m1, mem[..], origin, top, bottom);
    }

    /** Scrolling the whole screen moves the window, not the text. */
    method Slide()
      requires Valid() && top == 0 && bottom == LINES
      modifies mem, this`origin, this`scrEnd, this`pos, this`shown
      ensures Valid() && S() == old(S()).(grid := ScrollUp(old(S()).grid, 0, LINES))
      ensures OutsideKept(old(mem[..]), mem[..], origin) && shown == old(shown) + [origin]
    {
      ghost var o := origin;
      origin := origin + COLUMNS;
      pos := pos + COLUMNS;
      scrEnd := scrEnd + COLUMNS;
      if scrEnd > SCREEN {
        Rewind(o);
      } else {
        SlideOn(o);
      }
      shown := shown + [origin];
    }

    /** A blank line comes into the window. */
    method SlideOn(ghost o: nat)
      requires Fits(mem[..], o + COLUMNS) && origin == o + COLUMNS && scrEnd == origin + WINDOW
      modifies mem
      ensures Fits(mem[..], origin) && Window(mem[..], origin) == ScrollUp(Window(old(mem[..]), o), 0, LINES)
      ensures OutsideKept(old(mem[..]), mem[..], origin)
    {
      SlideScrolls(mem[..], o);
      Fill(scrEnd - COLUMNS, COLUMNS);
    }

    /** The window has run over the end of video memory: its text moves to the start. */
    method Rewind(ghost o: nat)
      requires Fits(mem[..], o) && origin == o + COLUMNS && scrEnd == origin + WINDOW && pos >= origin
      modifies mem, this`origin, this`scrEnd, this`pos
      ensures origin == 0 && scrEnd == WINDOW && pos == old(pos) - old(origin) && Fits(mem[..], 0)
      ensures Window(mem[..], 0) == ScrollUp(Window(old(mem[..]), o), 0, LINES)
      ensures OutsideKept(old(mem[..]), mem[..], 0)
    {
      ghost var m := mem[..];
      RewindScrolls(m, o);
      CopyUp(0, origin, COLUMNS * (LINES - 1));
      Fill(COLUMNS * (LINES - 1), COLUMNS);
      assert mem[..] == Filled(Copied(m, 0, o + COLUMNS, COLUMNS * (LINES - 1)), COLUMNS * (LINES - 1), COLUMNS);
      scrEnd := scrEnd - origin;
      pos := pos - origin;
      origin := 0;
    }

    method Scrdown()
      requires Valid()
      modifies mem
      ensures Valid() && S() == old(S()).(grid := ScrollDown(old(S()).grid, top, bottom))
      ensures OutsideKept(old(mem[..]), mem[..], origin)
    {
      ghost var m := mem[..];
      CopyDown(origin + COLUMNS * (top + 1), origin + COLUMNS * top, COLUMNS * (bottom - top - 1));
      ghost var m1 := mem[..];
      Fill(origin + COLUMNS * top, COLUMNS);
      ScrolledDown(m, m1, mem[..], origin, top, bottom);
    }

    method LineFeed()
      requires Valid()
      modifies mem, this`origin, this`scrEnd, this`pos, this`y, this`shown
      ensures Valid() && S() == Lf(old(S())) && OutsideKept(old(mem[..]), mem[..], origin) && old(shown) <= shown
    {
      if y + 1 < bottom {
        y := y + 1;
        pos := pos + COLUMNS;
        return;
      }
      Scrup();
    }

    method ReverseIndex()
      requires Valid()
      modifies mem, this`pos, this`y
      ensures Valid() && S() == Ri(old(S())) && OutsideKept(old(mem[..]), mem[..], origin)
    {
      if y > top {
        y := y - 1;
        pos := pos - COLUMNS;
        return;
      }
      Scrdown();
    }

    method CarriageReturn()
      requires Valid()
      modifies this`pos, this`x
      ensures Valid() && S() == old(S()).(x := 0)
    {
      pos := pos - x;
      x := 0;
    }

    /** A store to the cell of column c in the cursor's line. */
    method Store(c: nat, cell: Cell)
      requires Valid() && c < COLUMNS
      modifies mem
      ensures Valid() && S() == SetCell(old(S()), c, cell) && OutsideKept(old(mem[..]), mem[..], origin)
    {
      ghost var m, g := mem[..], S().grid;
      mem[pos - x + c] := cell;
      RowChanges(m, mem[..], origin, y, SetInRow(g[y], c, cell));
    }

    method Delete()
      requires Valid()
      modifies mem, this`pos, this`x
      ensures Valid() && S() == Del(old(S())) && OutsideKept(old(mem[..]), mem[..], origin)
    {
      if x > 0 {
        Store(x - 1, BLANK);
        pos := pos - 1;
        x := x - 1;
      }
    }

    // -------------------------------------------------------------- erasing

    /** `count` blanks from cell `from` of the window on. */
    method EraseCells(ghost from: nat, start: nat, count: nat)
      requires Valid() && start == origin + from && from + count <= WINDOW
      modifies mem
      ensures Valid() && S() == old(S()).(grid := Erase(old(S()).grid, from, from + count))
      ensures OutsideKept(old(mem[..]), mem[..], origin)
    {
      ghost var m, g := mem[..], Window(mem[..], origin);
      FillErases(m, origin, from, from + count);
      Fill(start, count);
      assert mem[..] == Filled(m, origin + from, count);
      assert Window(mem[..], origin) == Erase(g, from, from + count);
    }

    method CsiJ(n: nat)
      requires Valid()
      modifies mem
      ensures Valid() && S() == EraseDisplay(old(S()), n) && OutsideKept(old(mem[..]), mem[..], origin)
    {
      match n {
        case 0 => EraseBelow();
        case 1 => EraseCells(0, origin, pos - origin);
        case 2 => EraseCells(0, origin, COLUMNS * LINES);
        case _ =>
      }
    }

    method EraseBelow()
      requires Valid()
      modifies mem
      ensures Valid() && S() == EraseDisplay(old(S()), 0) && OutsideKept(old(mem[..]), mem[..], origin)
    {
      var count := scrEnd - pos;
      ghost var here := COLUMNS * y + x;
      assert here + count == WINDOW == COLUMNS * LINES;
      EraseCells(here, pos, count);
    }

    /** `count` blanks in the cursor's line, from column `from` on. */
    method EraseInLine(ghost from: nat, start: nat, count: nat)
      requires Valid() && from + count <= COLUMNS && start == pos - x + from
      modifies mem
      ensures Valid() && OutsideKept(old(mem[..]), mem[..], origin)
      ensures S() == SetRow(old(S()), EraseInRow(old(S()).grid[y], from, from + count))
    {
      ghost var m, g := mem[..], S().grid;
      Fill(start, count);
      RowChanges(m, mem[..], origin, y, EraseInRow(g[y], from, from + count));
    }

    method CsiK(n: nat)
      requires Valid()
      modifies mem
      ensures Valid() && S() == EraseLine(old(S()), n) && OutsideKept(old(mem[..]), mem[..], origin)
    {
      match n {
        case 0 =>
          if x >= COLUMNS {
            assert EraseInRow(S().grid[y], x, COLUMNS) == S().grid[y];
            SetSameRow(S());
            return;
          }
          EraseInLine(x, pos, COLUMNS - x);
        case 1 =>
          EraseInLine(0, pos - x, if x < COLUMNS then x else COLUMNS);
        case 2 =>
          assert EraseInRow(S().grid[y], 0, COLUMNS) == BlankRow();
          EraseInLine(0, pos - x, COLUMNS);
        case _ =>
      }
    }

    // -------------------------------------------------------------- inserting and deleting

    method InsertChar()
      requires Valid()
      modifies mem
      ensures Valid() && OutsideKept(old(mem[..]), mem[..], origin)
      ensures S() == SetRow(old(S()), InsertInRow(old(S()).grid[y], x, 1))
    {
      ghost var m := mem[..];
      var i, p, tmp, prev := x, pos, 0, BLANK;
      while i < COLUMNS
        invariant x <= i <= COLUMNS && p == pos + (i - x)
        invariant prev == if i == x then BLANK else m[p - 1]
        invariant forall j :: pos < j < p ==> mem[j] == m[j - 1]
        invariant i > x ==> mem[pos] == BLANK
        invariant forall j :: 0 <= j < mem.Length && !(pos <= j < p) ==> mem[j] == m[j]
      {
        tmp := mem[p];
        mem[p] := prev;
        prev := tmp;
        p := p + 1;
        i := i + 1;
      }
      InsertMoves(m, mem[..], origin, y, x);
    }

    method DeleteChar()
      requires Valid()
      modifies mem
      ensures Valid() && OutsideKept(old(mem[..]), mem[..], origin)
      ensures S() == SetRow(old(S()), DeleteInRow(old(S()).grid[y], x, 1))
    {
      ghost var m := mem[..];
      if x >= COLUMNS {
        assert DeleteInRow(S().grid[y], x, 1) == S().grid[y];
        SetSameRow(S());
        return;
      }
      var i, p := x + 1, pos;
      while i < COLUMNS
        invariant x < i <= COLUMNS && p == pos + (i - x - 1)
        invariant forall j :: pos <= j < p ==> mem[j] == m[j + 1]
        invariant forall j :: 0 <= j < mem.Length && !(pos <= j < p) ==> mem[j] == m[j]
      {
        mem[p] := mem[p + 1];
        p := p + 1;
        i := i + 1;
      }
      mem[p] := BLANK;
      DeleteMoves(m, mem[..], origin, y, x);
    }

    method InsertLine()
      requires Valid()
      modifies mem, this`top, this`bottom
      ensures Valid() && OutsideKept(old(mem[..]), mem[..], origin)
      ensures S() == old(S()).(grid := ScrollDown(old(S()).grid, y, LINES))
    {
      var oldTop, oldBottom := top, bottom;
      top, bottom := y, LINES;
      Scrdown();
      top, bottom := oldTop, oldBottom;
    }

    /** For line 0 this slides the window, and the cursor with it. */
    method DeleteLine()
      requires Valid()
      modifies mem, this`top, this`bottom, this`origin, this`scrEnd, this`pos, this`shown
      ensures Valid() && OutsideKept(old(mem[..]), mem[..], origin) && old(shown) <= shown
      ensures S() == old(S()).(grid := ScrollUp(old(S()).grid, y, LINES))
    {
      var oldTop, oldBottom := top, bottom;
      top, bottom := y, LINES;
      Scrup();
      top, bottom := oldTop, oldBottom;
    }

    method CsiAt(n: nat)
      requires Valid()
      modifies mem
      ensures Valid() && S() == SetRow(old(S()), InsertInRow(old(S()).grid[y], x, Times(n, COLUMNS)))
      ensures OutsideKept(old(mem[..]), mem[..], origin)
    {
      ghost var m, s := mem[..], S();
      var nr := if n > COLUMNS then COLUMNS else if n == 0 then 1 else n;
      var i := 0;
      NoCellInserted(s);
      while i < nr
        invariant 0 <= i <= nr == Times(n, COLUMNS)
        invariant Valid() && S() == SetRow(s, InsertInRow(s.grid[y], x, i)) && OutsideKept(m, mem[..], origin)
      {
        InsertNext(i, m, s);
        i := i + 1;
      }
    }

    /** One turn of it. */
    method InsertNext(ghost i: nat, ghost m: Memory, ghost s: Screen)
      requires Valid() && Ok(s) && s.y == y && s.x == x && S() == SetRow(s, InsertInRow(s.grid[y], x, i))
      requires OutsideKept(m, mem[..], origin)
      modifies mem
      ensures Valid() && S() == SetRow(s, InsertInRow(s.grid[y], x, i + 1)) && OutsideKept(m, mem[..], origin)
    {
      ghost var m1 := mem[..];
      NextCellInserted(s, i);
      InsertChar();
      OutsideTwice(m, m1, mem[..], origin);
    }

    method CsiP(n: nat)
      requires Valid()
      modifies mem
      ensures Valid() && S() == SetRow(old(S()), DeleteInRow(old(S()).grid[y], x, Times(n, COLUMNS)))
      ensures OutsideKept(old(mem[..]), mem[..], origin)
    {
      ghost var m, s := mem[..], S();
      var nr := if n > COLUMNS then COLUMNS else if n == 0 then 1 else n;
      var i := 0;
      NoCellDeleted(s);
      while i < nr
        invariant 0 <= i <= nr == Times(n, COLUMNS)
        invariant Valid() && S() == SetRow(s, DeleteInRow(s.grid[y], x, i)) && OutsideKept(m, mem[..], origin)
      {
        CloseNext(i, m, s);
        i := i + 1;
      }
    }

    /** One turn of it. */
    method CloseNext(ghost i: nat, ghost m: Memory, ghost s: Screen)
      requires Valid() && Ok(s) && s.y == y && s.x == x && S() == SetRow(s, DeleteInRow(s.grid[y], x, i))
      requires OutsideKept(m, mem[..], origin)
      modifies mem
      ensures Valid() && S() == SetRow(s, DeleteInRow(s.grid[y], x, i + 1)) && OutsideKept(m, mem[..], origin)
    {
      ghost var m1 := mem[..];
      NextCellDeleted(s, i);
      DeleteChar();
      OutsideTwice(m, m1, mem[..], origin);
    }

    method CsiL(n: nat)
      requires Valid()
      modifies mem, this`top, this`bottom
      ensures Valid() && S() == old(S()).(grid := InsertRows(old(S()).grid, y, Times(n, LINES)))
      ensures OutsideKept(old(mem[..]), mem[..], origin)
    {
      ghost var m, s := mem[..], S();
      var nr := if n > LINES then LINES else if n == 0 then 1 else n;
      var i := 0;
      NoRowInserted(s);
      while i < nr
        invariant 0 <= i <= nr == Times(n, LINES)
        invariant Valid() && S() == s.(grid := InsertRows(s.grid, y, i)) && OutsideKept(m, mem[..], origin)
      {
        OpenNext(i, m, s);
        i := i + 1;
      }
    }

    /** One turn of it. */
    method OpenNext(ghost i: nat, ghost m: Memory, ghost s: Screen)
      requires Valid() && Ok(s) && s.y == y && S() == s.(grid := InsertRows(s.grid, y, i))
      requires OutsideKept(m, mem[..], origin)
      modifies mem, this`top, this`bottom
      ensures Valid() && S() == s.(grid := InsertRows(s.grid, y, i + 1)) && OutsideKept(m, mem[..], origin)
    {
      ghost var m1 := mem[..];
      OneMoreInserted(s.grid, y, i);
      InsertLine();
      OutsideTwice(m, m1, mem[..], origin);
    }

    /** Every line deleted at the top slides the window, so that the stores of one command may lie in several
        windows. */
    method CsiM(n: nat)
      requires Valid()
      modifies mem, this`top, this`bottom, this`origin, this`scrEnd, this`pos, this`shown
      ensures Valid() && S() == old(S()).(grid := DeleteRows(old(S()).grid, y, Times(n, LINES)))
      ensures InWindows(old(mem[..]), mem[..], old(shown), shown)
    {
      ghost var m, s, o := mem[..], S(), shown;
      var nr := if n > LINES then LINES else if n == 0 then 1 else n;
      var i := 0;
      NoRowDeleted(s);
      NoWindow(m, o);
      while i < nr
        invariant 0 <= i <= nr == Times(n, LINES)
        invariant Valid() && S() == s.(grid := DeleteRows(s.grid, y, i))
        invariant InWindows(m, mem[..], o, shown)
      {
        DeleteNext(i, m, s, o);
        i := i + 1;
      }
    }

    /** One turn of it. */
    method DeleteNext(ghost i: nat, ghost m: Memory, ghost s: Screen, ghost o: seq<nat>)
      requires Valid() && Ok(s) && s.y == y && S() == s.(grid := DeleteRows(s.grid, y, i))
      requires InWindows(m, mem[..], o, shown)
      modifies mem, this`top, this`bottom, this`origin, this`scrEnd, this`pos, this`shown
      ensures Valid() && S() == s.(grid := DeleteRows(s.grid, y, i + 1))
      ensures InWindows(m, mem[..], o, shown)
    {
      ghost var m1, o1 := mem[..], shown;
      OneMoreDeleted(s.grid, y, i);
      DeleteLine();
      MoreWindows(m, m1, mem[..], o, o1, shown, origin);
    }

    method CsiAttributes()
      requires Valid()
      modifies this`attr
      ensures Valid() && S() == old(S()).(attr := Attributes(par[..], npar + 1, old(attr)))
    {
      var a := attr;
      var i := 0;
      while i <= npar
        invariant 0 <= i <= npar + 1 && attr == Attributes(par[..], i, a)
        invariant Valid() && S() == old(S()).(attr := attr)
      {
        match par[i] {
          case 0 => attr := 0x07;
          case 1 => attr := 0x0f;
          case 4 => attr := 0x0f;
          case 7 => attr := 0x70;
          case 27 => attr := 0x07;
          case _ =>
        }
        i := i + 1;
      }
    }

    method SaveCursor()
      requires Valid()
      modifies this`savedX, this`savedY
      ensures Valid() && S() == Save(old(S()))
    {
      savedX, savedY := x, y;
    }

    method RestoreCursor()
      requires Valid()
      modifies this`x, this`y, this`pos
      ensures Valid() && S() == Restore(old(S()))
    {
      x, y := savedX, savedY;
      pos := origin + (y * COLUMNS + x);
    }

    // -------------------------------------------------------------- con_write

    method SetPar(i: nat, n: nat)
      requires Valid() && i < NPAR
      modifies par
      ensures Valid() && S() == old(S()).(par := old(S()).par[i := n])
    {
      par[i] := n;
    }

    method SetState(n: nat)
      requires Valid() && n <= 3
      modifies this`state
      ensures Valid() && S() == old(S()).(state := n)
    {
      state := n;
    }

    method Advance(over: nat)
      requires Valid() && over <= COLUMNS && x >= COLUMNS - 8
      requires pos + over == origin + COLUMNS * y + x + over
      modifies mem, this`origin, this`scrEnd, this`pos, this`x, this`y, this`shown
      ensures Valid() && S() == Wrapped(old(S()), over)
      ensures OutsideKept(old(mem[..]), mem[..], origin) && old(shown) <= shown
    {
      pos := pos - x + over;
      x := over;
      LineFeed();
    }

    method PrintChar(c: nat)
      requires Valid()
      modifies mem, this`origin, this`scrEnd, this`pos, this`x, this`y, this`shown
      ensures Valid() && S() == Print(old(S()), c)
      ensures OutsideKept(old(mem[..]), mem[..], origin) && old(shown) <= shown
    {
      ghost var m := mem[..];
      if x >= COLUMNS {
        Advance(x - COLUMNS);
      }
      ghost var m1 := mem[..];
      StoreHere(attr * 256 + c);
      OutsideTwice(m, m1, mem[..], origin);
    }

    /** At the cursor, which moves on. */
    method StoreHere(cell: Cell)
      requires Valid() && x < COLUMNS
      modifies mem, this`pos, this`x
      ensures Valid() && S() == SetCell(old(S()), old(x), cell).(x := old(x) + 1)
      ensures OutsideKept(old(mem[..]), mem[..], origin)
    {
      Store(x, cell);
      pos := pos + 1;
      x := x + 1;
    }

    method TabStop()
      requires Valid()
      modifies mem, this`origin, this`scrEnd, this`pos, this`x, this`y, this`shown
      ensures Valid() && S() == Tab(old(S()))
      ensures OutsideKept(old(mem[..]), mem[..], origin) && old(shown) <= shown
    {
      var c := 8 - x % 8;
      if x + c > COLUMNS {
        Advance(x + c - COLUMNS);
      } else {
        x := x + c;
        pos := pos + c;
      }
    }

    method PlainChar(c: nat, erase: nat)
      requires Valid()
      modifies mem, this
      ensures Valid() && S() == Plain(old(S()), c, erase)
      ensures OutsideKept(old(mem[..]), mem[..], origin) && old(shown) <= shown
    {
      if 31 < c < 127 {
        PrintChar(c);
      } else if c == 27 {
        SetState(1);
      } else if 10 <= c <= 12 {
        LineFeed();
      } else if c == 13 {
        CarriageReturn();
      } else if c == erase && c < 128 {
        Delete();
      } else if c == 8 {
        if x > 0 {
          x := x - 1;
          pos := pos - 1;
        }
      } else if c == 9 {
        TabStop();
      }
    }

    method EscapeChar(c: nat)
      requires Valid()
      modifies mem, this
      ensures Valid() && S() == Escape(old(S()), c)
      ensures OutsideKept(old(mem[..]), mem[..], origin) && old(shown) <= shown
    {
      SetState(0);
      if c == '[' as nat {
        SetState(2);
      } else if c == 'E' as nat {
        GotoXY(0, y + 1);
      } else if c == 'M' as nat {
        ReverseIndex();
      } else if c == 'D' as nat {
        LineFeed();
      } else if c == 'Z' as nat {
      } else if x == '7' as nat {
        SaveCursor();
      } else if x == '8' as nat {
        RestoreCursor();
      }
    }

    /** The commands that name a place. */
    method AbsoluteCommand(c: nat)
      requires Valid() && Absolute(c)
      modifies this`x, this`y, this`pos, par
      ensures Valid() && S() == Command(old(S()), c)
    {
      SetPar(0, LessOne(par[0]));
      if c == 'G' as nat || c == '`' as nat {
        GotoXY(par[0], y);
      } else if c == 'd' as nat {
        GotoXY(x, par[0]);
      } else {
        SetPar(1, LessOne(par[1]));
        GotoXY(par[1], par[0]);
      }
    }

    /** The commands that move the cursor from where it is. */
    method RelativeCommand(c: nat)
      requires Valid() && Relative(c)
      modifies this`x, this`y, this`pos, par
      ensures Valid() && S() == Command(old(S()), c)
    {
      ghost var s := S();
      SetPar(0, AtLeastOne(par[0]));
      assert S() == First(s, AtLeastOne(s.par[0]));
      var p := par[0];
      if c == 'A' as nat {
        GotoXY(x, y - p);
      } else if c == 'B' as nat || c == 'e' as nat {
        GotoXY(x, y + p);
      } else if c == 'C' as nat || c == 'a' as nat {
        GotoXY(x + p, y);
      } else if c == 'D' as nat {
        GotoXY(x - p, y);
      } else if c == 'E' as nat {
        GotoXY(0, y + p);
      } else {
        GotoXY(0, y - p);
      }
    }

    method SetRegion()
      requires Valid()
      modifies this`top, this`bottom, par
      ensures Valid()
      ensures S() == Region(old(S()), LessOne(old(par[0])), if old(par[1]) == 0 then LINES else old(par[1]))
    {
      if par[0] > 0 { par[0] := par[0] - 1; }
      if par[1] == 0 { par[1] := LINES; }
      if par[0] < par[1] && par[1] <= LINES {
        top := par[0];
        bottom := par[1];
      }
    }

    method FinalChar(c: nat)
      requires Valid()
      modifies mem, this, par
      ensures Valid() && S() == Command(old(S()), c)
      ensures InWindows(old(mem[..]), mem[..], old(shown), shown)
    {
      if Absolute(c) {
        AbsoluteCommand(c);
      } else if Relative(c) {
        RelativeCommand(c);
      } else if c == 'J' as nat {
        CsiJ(par[0]);
      } else if c == 'K' as nat {
        CsiK(par[0]);
      } else if c == 'L' as nat {
        CsiL(par[0]);
      } else if c == 'M' as nat {
        CsiM(par[0]);
      } else if c == 'P' as nat {
        CsiP(par[0]);
      } else if c == '@' as nat {
        CsiAt(par[0]);
      } else if c == 'm' as nat {
        CsiAttributes();
      } else if c == 'r' as nat {
        SetRegion();
      } else if c == 's' as nat {
        SaveCursor();
      } else if c == 'u' as nat {
        RestoreCursor();
      }
    }

    method ParameterChar(c: nat)
      requires Valid()
      modifies mem, this, par
      ensures Valid() && S() == Parameter(old(S()), c)
      ensures InWindows(old(mem[..]), mem[..], old(shown), shown)
    {
      if c == ';' as nat && npar < NPAR - 1 {
        npar := npar + 1;
      } else if Digit(c) {
        SetPar(npar, Wrap(10 * par[npar] + c - '0' as nat));
      } else {
        SetState(0);
        FinalChar(c);
      }
    }

    method StartParameters(c: nat)
      requires Valid()
      modifies this`npar, this`state, this`ques, par
      ensures Valid() && S() == Reset(old(S()), c == '?' as nat)
    {
      var i := 0;
      while i < NPAR
        invariant 0 <= i <= NPAR && Valid()
        invariant S() == old(S()).(par := S().par) && forall j :: 0 <= j < i ==> par[j] == 0
      {
        par[i] := 0;
        i := i + 1;
      }
      assert par[..] == seq(NPAR, _ => 0);
      npar, state, ques := 0, 3, c == '?' as nat;
    }

    method PutChar(c: nat, erase: nat)
      requires Valid()
      modifies mem, this, par
      ensures Valid() && S() == Put(old(S()), c, erase)
      ensures InWindows(old(mem[..]), mem[..], old(shown), shown)
    {
      if state == 0 {
        PlainChar(c, erase);
      } else if state == 1 {
        EscapeChar(c);
      } else {
        if state == 2 {
          StartParameters(c);
          if ques { return; }
        }
        ParameterChar(c);
      }
    }

    /** con_write: for every stream of bytes the window shows what the screen model shows, and every cell that
        has changed lies in a window that was shown on the way. */
    method ConWrite(bytes: seq<nat>, erase: nat)
      requires Valid()
      modifies mem, this, par
      ensures Valid() && S() == PutAll(old(S()), bytes, erase)
      ensures InWindows(old(mem[..]), mem[..], old(shown), shown)
    {
      ghost var m, s, o := mem[..], S(), shown;
      var i := 0;
      while i < |bytes|
        invariant 0 <= i <= |bytes| && Valid() && S() == PutAll(s, bytes[..i], erase)
        invariant InWindows(m, mem[..], o, shown)
      {
        ghost var m1, o1 := mem[..], shown;
        assert bytes[..i + 1][..i] == bytes[..i];
        PutChar(bytes[i], erase);
        WindowsTrans(m, m1, mem[..], o, o1, shown);
        i := i + 1;
      }
      assert bytes[..i] == bytes;
    }
  }

  predicate Absolute(c: nat) {
    c == 'G' as nat || c == '`' as nat || c == 'd' as nat || c == 'H' as nat || c == 'f' as nat
  }

  predicate Relative(c: nat) {
    c == 'A' as nat || c == 'B' as nat || c == 'e' as nat || c == 'C' as nat || c == 'a' as nat
    || c == 'D' as nat || c == 'E' as nat || c == 'F' as nat
  }
}
