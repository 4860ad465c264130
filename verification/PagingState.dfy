/** Physical memory, the frame counts and the two-level page tables of mm/memory.c,
    as one value.  Frames are numbered by address / 4096, so the page directory,
    which lies at physical address 0, is frame 0. */
module PagingState {
  import opened Counting

  const LOW: nat := 512            // LOW_MEM / 4096; BUFFER_END is 0x200000
  const HIGH: nat := 2048          // HIGH_MEMORY / 4096
  const PAGING_PAGES: nat := 1536
  const ENTRIES: nat := 1024       // words in a page
  const NR_TASKS: nat := 64
  const DIRS: nat := 16            // directory entries in the 64 MB of one task
  const PAGES: nat := 16384        // pages in the 64 MB of one task

  /** A 32-bit word by the bit fields of a page-table entry: bits 31-12, bits 11-3,
      the user bit, the read/write bit and the present bit. */
  datatype Word = Word(frame: nat, rest: nat, user: bool, rw: bool, present: bool)

  type Page = seq<Word>

  const ZERO: Word := Word(0, 0, false, false, false)

  /** The entry for frame f, for users to read and write. */
  function Entry7(f: nat): Word { Word(f, 0, true, true, true) }

  function ZeroPage(): (p: Page)
    ensures |p| == ENTRIES && forall i :: 0 <= i < ENTRIES ==> p[i] == ZERO
  {
    seq(ENTRIES, i => ZERO)
  }

  /** `held` are the frames the kernel itself owns: task structures, pipe buffers,
      argument pages of an exec under way, and frames lost by do_no_page. */
  datatype State = State(mem: seq<Page>, count: seq<nat>, held: set<nat>)

  ghost predicate Shape(s: State) {
    && |s.mem| == HIGH
    && (forall f :: 0 <= f < HIGH ==> |s.mem[f]| == ENTRIES)
    && |s.count| == PAGING_PAGES
  }

  ghost predicate UserDir(d: int) { DIRS <= d < ENTRIES }

  ghost predicate Slot(d: int, e: int) { UserDir(d) && 0 <= e < ENTRIES }

  ghost predicate HasDir(s: State, d: int)
    requires Shape(s)
  {
    UserDir(d) && s.mem[0][d].present
  }

  /** Every user page table is a frame of its own. */
  ghost predicate DirsOk(s: State)
    requires Shape(s)
  {
    forall d :: HasDir(s, d) ==>
      LOW <= s.mem[0][d].frame < HIGH && s.count[s.mem[0][d].frame - LOW] == 1
  }

  ghost function Pte(s: State, d: int, e: int): Word
    requires Shape(s) && DirsOk(s) && HasDir(s, d) && 0 <= e < ENTRIES
  {
    s.mem[s.mem[0][d].frame][e]
  }

  ghost predicate Mapped(s: State, d: int, e: int)
    requires Shape(s) && DirsOk(s)
  {
    Slot(d, e) && HasDir(s, d) && Pte(s, d, e).present
  }

  ghost predicate MappedTo(s: State, d: int, e: int, f: nat)
    requires Shape(s) && DirsOk(s)
  {
    Mapped(s, d, e) && Pte(s, d, e).frame == f
  }

  /** The page-table entries that point at frame f. */
  ghost function Refs(s: State, f: nat): set<(int, int)>
    requires Shape(s) && DirsOk(s)
  {
    set d, e | DIRS <= d < ENTRIES && 0 <= e < ENTRIES && MappedTo(s, d, e, f) :: (d, e)
  }

  /** The directory entries that point at frame f. */
  ghost function DirRefs(s: State, f: nat): set<int>
    requires Shape(s)
  {
    set d | DIRS <= d < ENTRIES && HasDir(s, d) && s.mem[0][d].frame == f
  }

  ghost function Owners(s: State, f: nat): nat
    requires Shape(s) && DirsOk(s)
  {
    |Refs(s, f)| + |DirRefs(s, f)| + (if f in s.held then 1 else 0)
  }

  ghost predicate EntriesOk(s: State)
    requires Shape(s) && DirsOk(s)
  {
    forall d, e :: Mapped(s, d, e) ==>
      var w := Pte(s, d, e);
      w.frame < HIGH && (w.rw ==> LOW <= w.frame && s.count[w.frame - LOW] == 1)
  }

  ghost predicate HeldOk(s: State)
    requires Shape(s)
  {
    forall f :: f in s.held ==> LOW <= f < HIGH && s.count[f - LOW] == 1
  }

  /** mem_map is exactly the number of owners of each frame. */
  ghost predicate CountsOk(s: State)
    requires Shape(s) && DirsOk(s)
  {
    forall f :: LOW <= f < HIGH ==> s.count[f - LOW] == Owners(s, f)
  }

  /** Entries that share a paged frame lie at the same place of their tasks. */
  ghost predicate Aligned(s: State)
    requires Shape(s) && DirsOk(s)
  {
    forall d, e, d', e' :: Mapped(s, d, e) && Mapped(s, d', e')
                           && Pte(s, d, e).frame == Pte(s, d', e').frame >= LOW ==>
      d % DIRS == d' % DIRS && e == e'
  }

  ghost predicate Inv(s: State) {
    && Shape(s) && DirsOk(s) && EntriesOk(s) && HeldOk(s) && CountsOk(s) && Aligned(s)
  }

  // ---------------------------------------------------------------- views

  /** What a task sees at one page of its 64 MB: nothing yet, a frame of the low
      memory it shares with the kernel, or contents of its own. */
  datatype View = Absent | Low(frame: nat) | Own(page: Page)

  ghost function PageView(s: State, d: int, e: int): View
    requires Shape(s) && DirsOk(s) && EntriesOk(s)
  {
    if !Mapped(s, d, e) then Absent
    else if Pte(s, d, e).frame < LOW then Low(Pte(s, d, e).frame)
    else Own(s.mem[Pte(s, d, e).frame])
  }

  /** The frame that backs a page, or -1. */
  ghost function FrameAt(s: State, d: int, e: int): int
    requires Shape(s) && DirsOk(s)
  {
    if Mapped(s, d, e) then Pte(s, d, e).frame else -1
  }

  ghost predicate Writable(s: State, d: int, e: int)
    requires Shape(s) && DirsOk(s)
  {
    Mapped(s, d, e) && Pte(s, d, e).rw
  }

  /** What a child gets for entry e of directory d of its parent: task 0 lends the frames of its
      first 160 pages, any other task its pages as they are. */
  ghost function InheritedView(s: State, d: int, e: int): View
    requires Shape(s) && DirsOk(s) && EntriesOk(s) && 0 <= e < ENTRIES
  {
    if d == 0 then (if e < 160 then Low(e) else Absent) else PageView(s, d, e)
  }

  ghost function InheritedFrame(s: State, d: int, e: int): int
    requires Shape(s) && DirsOk(s) && 0 <= e < ENTRIES
  {
    if d == 0 then (if e < 160 then e else -1) else FrameAt(s, d, e)
  }

  /** The address space of task t: page p of the task is entry p % 1024 of its directory p / 1024. */
  ghost function Space(s: State, t: nat): (v: seq<View>)
    requires Shape(s) && DirsOk(s) && EntriesOk(s) && t < NR_TASKS
    ensures |v| == PAGES
  {
    seq(PAGES, p requires 0 <= p < PAGES => InheritedView(s, DIRS * t + p / ENTRIES, p % ENTRIES))
  }

  // ---------------------------------------------------------------- consequences of Inv

  /** A page-table frame has no other owner. */
  lemma TableFrameIsPrivate(s: State, d: int)
    requires Inv(s) && HasDir(s, d)
    ensures var f := s.mem[0][d].frame;
      && Refs(s, f) == {}
      && DirRefs(s, f) == {d}
      && f !in s.held
  {
    var f := s.mem[0][d].frame;
    assert Owners(s, f) == 1;
    assert d in DirRefs(s, f);
    assert |DirRefs(s, f) - {d}| == |DirRefs(s, f)| - 1;
    assert DirRefs(s, f) == {d} + (DirRefs(s, f) - {d});
  }

  lemma DirsInjective(s: State, d: int, d': int)
    requires Inv(s) && HasDir(s, d) && HasDir(s, d') && s.mem[0][d].frame == s.mem[0][d'].frame
    ensures d == d'
  {
    TableFrameIsPrivate(s, d);
    assert d' in DirRefs(s, s.mem[0][d].frame);
  }

  /** A mapped frame is neither a page table nor held by the kernel. */
  lemma DataFrameIsNoTable(s: State, d: int, e: int, d': int)
    requires Inv(s) && Mapped(s, d, e) && HasDir(s, d')
    ensures Pte(s, d, e).frame != s.mem[0][d'].frame
  {
    TableFrameIsPrivate(s, d');
    assert (d, e) in Refs(s, Pte(s, d, e).frame);
  }

  lemma DataFrameIsNotHeld(s: State, d: int, e: int)
    requires Inv(s) && Mapped(s, d, e)
    ensures Pte(s, d, e).frame !in s.held
  {
    var f := Pte(s, d, e).frame;
    assert (d, e) in Refs(s, f);
    assert f in s.held ==> Owners(s, f) == 1;
  }

  /** A frame counted once belongs to the entry that maps it and to no other. */
  lemma SoleOwner(s: State, d: int, e: int)
    requires Inv(s) && Mapped(s, d, e) && LOW <= Pte(s, d, e).frame
    requires s.count[Pte(s, d, e).frame - LOW] == 1
    ensures Refs(s, Pte(s, d, e).frame) == {(d, e)}
  {
    var f := Pte(s, d, e).frame;
    var R := Refs(s, f);
    assert Owners(s, f) == 1;
    assert (d, e) in R;
    assert R == {(d, e)} + (R - {(d, e)});
  }

  lemma TasksBound(r: set<(int, int)>, tasks: set<int>)
    requires tasks == set x | x in r :: x.0 / DIRS
    requires forall x, y :: x in r && y in r ==> x.0 % DIRS == y.0 % DIRS && x.1 == y.1
    ensures |r| == |tasks|
  {
    if r == {} {
      assert tasks == {};
    } else {
      var x :| x in r;
      var r1 := r - {x};
      var tasks1 := set y | y in r1 :: y.0 / DIRS;
      TasksBound(r1, tasks1);
      forall y | y in r1 ensures y.0 / DIRS != x.0 / DIRS {
        assert y.0 == DIRS * (y.0 / DIRS) + y.0 % DIRS;
        assert x.0 == DIRS * (x.0 / DIRS) + x.0 % DIRS;
        assert y != x && y == (y.0, y.1) && x == (x.0, x.1);
      }
      assert tasks == tasks1 + {x.0 / DIRS};
      assert r == r1 + {x};
    }
  }

  /** A frame has at most one entry in each of the tasks 1 to 63, so the 16-bit count cannot wrap. */
  lemma CountBelowTasks(s: State, f: nat)
    requires Inv(s) && LOW <= f < HIGH
    ensures s.count[f - LOW] < NR_TASKS
  {
    var r := Refs(s, f);
    var tasks := set x | x in r :: x.0 / DIRS;
    assert s.count[f - LOW] == Owners(s, f);
    forall x, y | x in r && y in r ensures x.0 % DIRS == y.0 % DIRS && x.1 == y.1 {
      assert MappedTo(s, x.0, x.1, f) && MappedTo(s, y.0, y.1, f);
    }
    TasksBound(r, tasks);
    assert 0 !in tasks;
    BelowBound(tasks + {0}, NR_TASKS);
    if DirRefs(s, f) != {} {
      var d :| d in DirRefs(s, f);
      assert HasDir(s, d);
    }
  }
}
