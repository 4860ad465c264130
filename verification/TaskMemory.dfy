/** The tasks on top of the paging code: fork, faults, verify_area, exec and exit, proved against
    one private address space per task. */
module TaskSpaces {
  import opened PagingState
  import opened PagingSteps
  import opened Paging

  /** For each task: the frame of its task structure (0 for an empty slot), whether it can still
      run, and its segment limits in bytes. */
  datatype Tasks = Tasks(slot: seq<nat>, alive: seq<bool>, code: seq<nat>, data: seq<nat>)

  ghost predicate TasksOk(s: State, t: Tasks)
    requires Shape(s)
  {
    && |t.slot| == |t.alive| == |t.code| == |t.data| == NR_TASKS
    && t.alive[0] && t.slot[0] == 0 && t.code[0] == t.data[0] == 0xa0000
    && (forall i :: 0 <= i < NR_TASKS ==> t.code[i] <= t.data[i] <= 0x4000000)
    && (forall i :: 1 <= i < NR_TASKS && t.slot[i] != 0 ==> t.slot[i] in s.held)
    && (forall i, j :: 1 <= i < j < NR_TASKS && t.slot[i] != 0 ==> t.slot[i] != t.slot[j])
    && (forall i :: 1 <= i < NR_TASKS && t.alive[i] ==> t.slot[i] != 0)
    && (forall d :: HasDir(s, d) ==> t.alive[d / DIRS] && d % DIRS < DirsOf(t.data[d / DIRS]))
  }

  /** The directory and the entry of a page of a task. */
  function DirOf(t: nat, p: nat): nat { DIRS * t + p / ENTRIES }

  lemma PageSplit(t: nat, p: nat)
    requires p < PAGES
    ensures DIRS * t <= DirOf(t, p) < DIRS * t + DIRS && 0 <= p % ENTRIES < ENTRIES
    ensures DirOf(t, p) / DIRS == t && DirOf(t, p) % DIRS == p / ENTRIES
    ensures t >= 1 ==> DIRS <= DirOf(t, p)
    ensures t < NR_TASKS ==> DirOf(t, p) < ENTRIES
  {
    SixteenPlus(t, p / ENTRIES);
  }

  /** Pages p and q of one task lie in different entries. */
  lemma PagesDiffer(t: nat, p: nat, q: nat)
    requires p < PAGES && q < PAGES && p != q
    ensures !(DirOf(t, p) == DirOf(t, q) && p % ENTRIES == q % ENTRIES)
  {
  }

  /** The frame behind each page of task t; -1 where there is none. */
  ghost function Frames(s: State, t: nat): (v: seq<int>)
    requires Shape(s) && DirsOk(s) && t < NR_TASKS
    ensures |v| == PAGES
  {
    seq(PAGES, p requires 0 <= p < PAGES => InheritedFrame(s, DIRS * t + p / ENTRIES, p % ENTRIES))
  }

  ghost predicate WritableAt(s: State, t: nat, p: nat)
    requires Inv(s)
  {
    Writable(s, DirOf(t, p), p % ENTRIES)
  }

  /** No page of task t gained a write bit. */
  ghost predicate NoGain(s: State, s': State, t: nat)
    requires Inv(s) && Inv(s')
  {
    forall p: nat :: p < PAGES && WritableAt(s', t, p) ==> WritableAt(s, t, p)
  }

  /** Task t sees what it saw, on the same frames. */
  ghost predicate SameSpace(s: State, s': State, t: nat)
    requires Inv(s) && Inv(s') && t < NR_TASKS
  {
    Space(s', t) == Space(s, t) && Frames(s', t) == Frames(s, t) && NoGain(s, s', t)
  }

  ghost function NoSpace(): seq<View> { seq(PAGES, p => Absent) }

  ghost function NoFrames(): seq<int> { seq(PAGES, p => -1) }

  lemma SpaceZero(s: State, s': State)
    requires Inv(s) && Inv(s')
    ensures SameSpace(s, s', 0)
  {
    forall p: nat | p < PAGES
      ensures Space(s', 0)[p] == Space(s, 0)[p] && Frames(s', 0)[p] == Frames(s, 0)[p] && !WritableAt(s', 0, p)
    {
      PageSplit(0, p);
    }
  }

  /** One page of task t. */
  lemma PageUntouched(s: State, s': State, t: nat, p: nat)
    requires Inv(s) && Inv(s') && 1 <= t < NR_TASKS && p < PAGES && SamePage(s, s', DirOf(t, p), p % ENTRIES)
    ensures Space(s', t)[p] == Space(s, t)[p] && Frames(s', t)[p] == Frames(s, t)[p]
    ensures WritableAt(s', t, p) ==> WritableAt(s, t, p)
  {
    PageSplit(t, p);
  }

  lemma SpaceUntouched(s: State, s': State, t: nat)
    requires Inv(s) && Inv(s') && 1 <= t < NR_TASKS
    requires forall d, e :: Slot(d, e) && DIRS * t <= d < DIRS * t + DIRS ==> SamePage(s, s', d, e)
    ensures SameSpace(s, s', t)
  {
    forall p: nat | p < PAGES
      ensures Space(s', t)[p] == Space(s, t)[p] && Frames(s', t)[p] == Frames(s, t)[p]
      ensures WritableAt(s', t, p) ==> WritableAt(s, t, p)
    {
      PageSplit(t, p);
      PageUntouched(s, s', t, p);
    }
  }

  lemma SpaceEmpty(s: State, t: nat)
    requires Inv(s) && 1 <= t < NR_TASKS
    requires forall d :: DIRS * t <= d < DIRS * t + DIRS ==> !HasDir(s, d)
    ensures Space(s, t) == NoSpace() && Frames(s, t) == NoFrames()
  {
    forall p | 0 <= p < PAGES ensures Space(s, t)[p] == Absent && Frames(s, t)[p] == -1 {
      PageSplit(t, p);
    }
  }

  /** Every task but t sees what it saw. */
  ghost predicate OthersSame(s: State, s': State, t: nat)
    requires Inv(s) && Inv(s')
  {
    forall u :: 0 <= u < NR_TASKS && u != t ==> SameSpace(s, s', u)
  }

  lemma RegionOnly(s: State, s': State, t: nat, lo: nat, hi: nat)
    requires Inv(s) && Inv(s') && t < NR_TASKS
    requires DIRS * t <= lo && hi <= DIRS * t + DIRS && SameOutside(s, s', lo, hi)
    ensures OthersSame(s, s', t)
  {
    forall u | 0 <= u < NR_TASKS && u != t ensures SameSpace(s, s', u) {
      if u == 0 {
        SpaceZero(s, s');
      } else {
        SpaceUntouched(s, s', u);
      }
    }
  }

  /** Only page p of task t may look different. */
  lemma SpaceUpdated(s: State, s': State, t: nat, p: nat)
    requires Inv(s) && Inv(s') && 1 <= t < NR_TASKS && p < PAGES
    requires forall d, e :: Slot(d, e) && !(d == DirOf(t, p) && e == p % ENTRIES) ==> SamePage(s, s', d, e)
    ensures OthersSame(s, s', t)
    ensures Space(s', t) == Space(s, t)[p := PageView(s', DirOf(t, p), p % ENTRIES)]
    ensures Frames(s', t) == Frames(s, t)[p := FrameAt(s', DirOf(t, p), p % ENTRIES)]
    ensures forall q: nat :: q < PAGES && q != p && WritableAt(s', t, q) ==> WritableAt(s, t, q)
  {
    PageSplit(t, p);
    OtherTasksSame(s, s', t, DirOf(t, p), p % ENTRIES);
    forall q: nat | q < PAGES && q != p
      ensures Space(s', t)[q] == Space(s, t)[q] && Frames(s', t)[q] == Frames(s, t)[q]
      ensures WritableAt(s', t, q) ==> WritableAt(s, t, q)
    {
      PageSplit(t, q);
      PagesDiffer(t, p, q);
      PageUntouched(s, s', t, q);
    }
  }

  lemma OtherTasksSame(s: State, s': State, t: nat, d0: int, e0: int)
    requires Inv(s) && Inv(s') && 1 <= t < NR_TASKS && DIRS * t <= d0 < DIRS * t + DIRS
    requires forall d, e :: Slot(d, e) && !(d == d0 && e == e0) ==> SamePage(s, s', d, e)
    ensures OthersSame(s, s', t)
  {
    forall u | 0 <= u < NR_TASKS && u != t ensures SameSpace(s, s', u) {
      if u == 0 {
        SpaceZero(s, s');
      } else {
        SpaceUntouched(s, s', u);
      }
    }
  }

  /** A fork copied the parent's space, whatever its limit covers, and both are on the same frames. */
  lemma SpaceInherited(s: State, s': State, t: Tasks, cur: nat, nr: nat)
    requires Inv(s) && Inv(s') && TasksOk(s, t) && cur < NR_TASKS && 1 <= nr < NR_TASKS && cur != nr
    requires t.alive[cur] && !t.alive[nr]
    requires Inherited(s, s', DIRS * cur, DIRS * nr, DirsOf(t.data[cur]))
    requires SameOutside(s, s', DIRS * nr, DIRS * nr + DirsOf(t.data[cur]))
    ensures Space(s', nr) == Space(s, cur) && Frames(s', nr) == Frames(s, cur)
  {
    forall p: nat | p < PAGES
      ensures Space(s', nr)[p] == Space(s, cur)[p] && Frames(s', nr)[p] == Frames(s, cur)[p]
    {
      PageInherited(s, s', t, cur, nr, p);
    }
  }

  lemma PageInherited(s: State, s': State, t: Tasks, cur: nat, nr: nat, p: nat)
    requires Inv(s) && Inv(s') && TasksOk(s, t) && cur < NR_TASKS && 1 <= nr < NR_TASKS && cur != nr && p < PAGES
    requires t.alive[cur] && !t.alive[nr]
    requires Inherited(s, s', DIRS * cur, DIRS * nr, DirsOf(t.data[cur]))
    requires SameOutside(s, s', DIRS * nr, DIRS * nr + DirsOf(t.data[cur]))
    ensures Space(s', nr)[p] == Space(s, cur)[p] && Frames(s', nr)[p] == Frames(s, cur)[p]
  {
    var n, d, e := DirsOf(t.data[cur]), DirOf(nr, p), p % ENTRIES;
    PageSplit(nr, p);
    PageSplit(cur, p);
    if p / ENTRIES < n {
      assert InheritsAt(s, s', DIRS * cur, DIRS * nr, d, e);
      assert d - DIRS * nr + DIRS * cur == DirOf(cur, p);
    } else {
      assert SamePage(s, s', d, e);
      assert !HasDir(s, d);
      assert !HasDir(s, DirOf(cur, p));
    }
  }

  /** Once the child's directories are gone again, every frame has the owners it had. */
  lemma OwnersBack(s: State, s': State, lo: int, hi: int, f: nat)
    requires Inv(s) && Inv(s') && SameOutside(s, s', lo, hi) && s'.held == s.held
    requires forall d :: lo <= d < hi ==> !HasDir(s, d) && !HasDir(s', d)
    ensures Owners(s', f) == Owners(s, f)
  {
    forall d, e ensures MappedTo(s', d, e, f) <==> MappedTo(s, d, e, f) {
      if Slot(d, e) && !(lo <= d < hi) {
        assert SamePage(s, s', d, e);
      }
    }
    assert Refs(s', f) == Refs(s, f);
    forall d ensures d in DirRefs(s', f) <==> d in DirRefs(s, f) {
      if UserDir(d) && !(lo <= d < hi) {
        assert SameDir(s, s', d);
      }
    }
    assert DirRefs(s', f) == DirRefs(s, f);
  }

  lemma RolledBack(s: State, s': State, lo: int, hi: int)
    requires Inv(s) && Inv(s') && SameOutside(s, s', lo, hi) && s'.held == s.held
    requires forall d :: lo <= d < hi ==> !HasDir(s, d) && !HasDir(s', d)
    ensures s'.count == s.count
  {
    forall i | 0 <= i < PAGING_PAGES ensures s'.count[i] == s.count[i] {
      var f := LOW + i;
      OwnersBack(s, s', lo, hi, f);
      assert s.count[f - LOW] == Owners(s, f) && s'.count[f - LOW] == Owners(s', f);
    }
  }
}

module TaskMemory {
  import opened Counting
  import opened PagingState
  import opened PagingSteps
  import opened PagingCounts
  import opened Paging
  import opened TaskSpaces
  import opened TaskFrames

  const EAGAIN: int := 11
  const ENOMEM: int := 12

  const MAX_ARG_PAGES: nat := 32

  /** The new address space of an exec, once the argument pages from k up are in. */
  ghost function ArgumentSpace(page: seq<nat>, mem: seq<Page>, k: nat): seq<View>
    requires |page| == MAX_ARG_PAGES
  {
    seq(PAGES, p requires 0 <= p < PAGES =>
      var i := p - (PAGES - MAX_ARG_PAGES);
      if k <= i && page[i] != 0 && page[i] < |mem| then Own(mem[page[i]]) else Absent)
  }

  /** The frames of that address space. */
  ghost function ArgumentRow(page: seq<nat>, k: nat): seq<int>
    requires |page| == MAX_ARG_PAGES
  {
    seq(PAGES, p requires 0 <= p < PAGES =>
      var i := p - (PAGES - MAX_ARG_PAGES);
      if k <= i && page[i] != 0 then page[i] as int else -1)
  }

  ghost function ArgumentFrames(page: seq<nat>, k: nat): set<nat> {
    set j | k <= j < |page| && page[j] != 0 :: page[j]
  }

  /** What one stored word makes of a page: nothing becomes a zero page, a low frame is copied first. */
  ghost function Stored(v: View, low: seq<Page>, i: nat, w: Word): View
    requires v.Low? ==> v.frame < |low| && i < |low[v.frame]|
    requires v.Own? ==> i < |v.page|
    requires i < ENTRIES
  {
    match v
    case Absent => Own(ZeroPage()[i := w])
    case Low(f) => Own(low[f][i := w])
    case Own(page) => Own(page[i := w])
  }

  /** What a task reads at a word of a page; a page that is absent reads as zeros. */
  ghost function Loaded(v: View, low: seq<Page>, i: nat): Word
    requires v.Low? ==> v.frame < |low| && i < |low[v.frame]|
    requires v.Own? ==> i < |v.page|
    requires i < ENTRIES
  {
    match v
    case Absent => ZERO
    case Low(f) => low[f][i]
    case Own(page) => page[i]
  }

  lemma PagesFullSize(s: State, t: nat, p: nat)
    requires Inv(s) && t < NR_TASKS && p < PAGES
    ensures var v := Space(s, t)[p];
      && (v.Low? ==> v.frame < LOW)
      && (v.Own? ==> |v.page| == ENTRIES)
  {
    PageSplit(t, p);
  }

  /** Task cur is gone, its pages with it; nobody else notices. */
  ghost predicate Exited(s: State, s': State, t: Tasks, t': Tasks, cur: nat)
    requires Inv(s) && Inv(s') && 1 <= cur < NR_TASKS && |t.alive| == NR_TASKS
  {
    && OthersSame(s, s', cur) && Space(s', cur) == NoSpace() && Frames(s', cur) == NoFrames()
    && t' == t.(alive := t.alive[cur := false])
  }

  /** Word i of page p of task t became w; every other page of t is as it was. */
  ghost predicate WroteWord(s: State, s': State, t: nat, p: nat, i: nat, w: Word)
    requires Inv(s) && Inv(s') && t < NR_TASKS && p < PAGES && i < ENTRIES
  {
    var v := Space(s, t)[p];
    && (v.Low? ==> v.frame < LOW) && (v.Own? ==> |v.page| == ENTRIES)
    && Space(s', t) == Space(s, t)[p := Stored(v, s.mem, i, w)]
  }

  class TaskMemory {
    const m: Memory
    const slot: array<nat>
    const alive: array<bool>
    const code: array<nat>
    const data: array<nat>

    ghost function T(): Tasks
      reads slot, alive, code, data
    {
      Tasks(slot[..], alive[..], code[..], data[..])
    }

    ghost predicate Apart() {
      && m.memMap != slot && m.memMap != code && m.memMap != data
      && slot != code && slot != data && code != data
    }

    ghost predicate Valid()
      reads m, m.mem, m.memMap, slot, alive, code, data
    {
      Apart() && m.Valid() && TasksOk(m.S(), T())
    }

    /** Task 0 alone, with the 640 kB limits of INIT_TASK. */
    constructor ()
      ensures Valid() && fresh(m) && fresh(m.mem) && fresh(m.memMap)
      ensures fresh(slot) && fresh(alive) && fresh(code) && fresh(data)
      ensures forall i :: 1 <= i < NR_TASKS ==> !alive[i] && slot[i] == 0
    {
      m := new Memory();
      slot := new nat[NR_TASKS](_ => 0);
      alive := new bool[NR_TASKS](i => i == 0);
      code := new nat[NR_TASKS](i => if i == 0 then 0xa0000 else 0);
      data := new nat[NR_TASKS](i => if i == 0 then 0xa0000 else 0);
      new;
      assert TasksOk(m.S(), T());
    }

    /** The two free_page_tables of do_exit and of do_execve: the code segment, then the data segment. */
    method FreeSpace(cur: nat)
      requires Valid() && 1 <= cur < NR_TASKS && alive[cur]
      modifies m, m.mem, m.memMap
      ensures Valid() && SameKernel(old(m.S()), m.S()) && m.held == old(m.held)
      ensures OthersSame(old(m.S()), m.S(), cur) && Space(m.S(), cur) == NoSpace() && Frames(m.S(), cur) == NoFrames()
      ensures forall d :: HasDir(m.S(), d) ==> HasDir(old(m.S()), d) && d / DIRS != cur
      ensures old(exists d :: 16 * cur <= d < 16 * cur + DirsOf(data[cur]) && HasDir(m.S(), d)) ==> !NoneFree(m.S())
      ensures GaveBack(old(m.S()), m.S(), cur)
    {
      ghost var s0 := m.S();
      DirsGrow(code[cur], data[cur]);
      ghost var s1 := FreeSegments(cur);
      ExitedPages(s0, s1, m.S(), T(), cur);
      FreedTwice(s0, s1, m.S(), T(), cur, DirsOf(code[cur]), DirsOf(data[cur]));
      SomeGiven(s0, m.S(), T(), cur);
    }

    /** The two calls; s1 is the state between them. */
    method FreeSegments(cur: nat) returns (ghost s1: State)
      requires m.Valid() && data.Length == code.Length == NR_TASKS && 1 <= cur < NR_TASKS
      requires DirsOf(code[cur]) <= DirsOf(data[cur]) <= DIRS
      modifies m, m.mem, m.memMap
      ensures m.Valid() && SameKernel(old(m.S()), m.S()) && m.held == old(m.held)
      ensures Inv(s1) && s1.held == old(m.held)
      ensures SegmentFreed(old(m.S()), s1, cur, DirsOf(code[cur])) && SegmentFreed(s1, m.S(), cur, DirsOf(data[cur]))
    {
      FreeSegment(cur, code[cur]);
      s1 := m.S();
      FreeSegment(cur, data[cur]);
    }

    method FreeSegment(cur: nat, size: nat)
      requires m.Valid() && 1 <= cur < NR_TASKS && DirsOf(size) <= DIRS
      modifies m, m.mem, m.memMap
      ensures m.Valid() && SameKernel(old(m.S()), m.S()) && m.held == old(m.held)
      ensures SegmentFreed(old(m.S()), m.S(), cur, DirsOf(size))
    {
      SixteenPlus(cur, 0);
      m.FreePageTables(16 * cur, size);
    }

    /** The part of do_exit that gives back memory. */
    method DoExit(cur: nat)
      requires Valid() && 1 <= cur < NR_TASKS && alive[cur]
      modifies m, m.mem, m.memMap, alive
      ensures Valid() && m.held == old(m.held) && SameKernel(old(m.S()), m.S())
      ensures Exited(old(m.S()), m.S(), old(T()), T(), cur) && GaveBack(old(m.S()), m.S(), cur)
    {
      FreeSpace(cur);
      alive[cur] := false;
      assert T() == old(T()).(alive := old(T()).alive[cur := false]);
    }

    /** A missing page: a fresh zero page, or the end of the task when no frame is left. */
    method DoNoPage(cur: nat, d: nat, e: nat) returns (ok: bool)
      requires Valid() && 1 <= cur < NR_TASKS && alive[cur] && Slot(d, e) && !Mapped(m.S(), d, e)
      requires d / DIRS == cur && d % DIRS < DirsOf(data[cur])
      modifies m, m.mem, m.memMap, alive
      ensures Valid() && SameKernel(old(m.S()), m.S())
      ensures ok <==> old(if HasDir(m.S(), d) then !NoneFree(m.S()) else TwoFree(m.S()))
      ensures ok ==> T() == old(T()) && m.held == old(m.held)
      ensures ok ==> Writable(m.S(), d, e) && PageView(m.S(), d, e) == Own(ZeroPage())
      ensures ok <==> old(FreeFrames(m.S()) >= LoadNeeds(m.S(), d, e))
      ensures ok ==> Took(old(m.S()), m.S(), d, e, old(LoadNeeds(m.S(), d, e)))
      ensures !ok ==> Exited(old(m.S()), m.S(), old(T()), T(), cur) && EndedShort(old(m.S()), m.S(), cur)
      // the frame that found no page table stays counted and belongs to nobody
      ensures !ok ==> if old(NoneFree(m.S())) then m.held == old(m.held)
                      else exists f :: f !in old(m.held) && m.held == old(m.held) + {f}
    {
      ghost var s0 := m.S();
      NoneFreeIs(s0);
      TwoFreeIs(s0);
      var tmp := m.GetFreePage();
      ghost var s1 := m.S();
      NoneFreeIs(s1);
      if tmp != 0 {
        FreshIsZero(s0, s1, d, e, tmp);
        FreeAfterAlloc(s0, s1, tmp);
        ok := m.PutPage(tmp, d, e);
        if ok {
          AfterPutPage(s0, s1, m.S(), T(), d, e);
          TookByPutPage(s0, s1, m.S(), d, e, tmp);
          return;
        }
      }
      TasksKept(s0, s1, T());
      DoExit(cur);
      ok := false;
      ExitedLater(s0, s1, m.S(), old(T()), T(), cur);
      GaveBackLater(s0, s1, m.S(), cur);
    }

    /** A write to a present page that is not writable. */
    method DoWpPage(cur: nat, d: nat, e: nat) returns (ok: bool)
      requires Valid() && 1 <= cur < NR_TASKS && alive[cur] && Mapped(m.S(), d, e)
      modifies m, m.mem, m.memMap, alive
      ensures Valid() && SameKernel(old(m.S()), m.S()) && m.held == old(m.held)
      ensures ok <==> old(SoleFrame(m.S(), d, e) || !NoneFree(m.S()))
      ensures ok ==> T() == old(T()) && m.mem[0] == old(m.mem[0])
      ensures ok ==> Mapped(m.S(), d, e) && Pte(m.S(), d, e).rw
      ensures ok ==> OnlyPage(old(m.S()), m.S(), d, e) && PageView(m.S(), d, e) == Privatize(old(m.S()), d, e)
      ensures ok ==> OtherEntriesKept(old(m.S()), m.S(), d, e) && NoneFreed(old(m.S()), m.S())
      ensures ok <==> old(FreeFrames(m.S()) >= VerifyNeeds(m.S(), d, e))
      ensures ok ==> Took(old(m.S()), m.S(), d, e, old(VerifyNeeds(m.S(), d, e))) && NoNewBut(old(m.S()), m.S(), d, e)
      ensures !ok ==> Exited(old(m.S()), m.S(), old(T()), T(), cur) && EndedShort(old(m.S()), m.S(), cur)
    {
      ghost var s0 := m.S();
      NoneFreeIs(s0);
      ok := m.UnWpPage(d, e);
      if ok {
        DirsKept(s0, m.S(), T());
      } else {
        DoExit(cur);
      }
    }

    /** The faults of a store: the processor tries again until the entry is present and writable. */
    method MakeWritable(cur: nat, d: nat, e: nat) returns (ok: bool)
      requires Valid() && 1 <= cur < NR_TASKS && alive[cur] && Slot(d, e)
      requires d / DIRS == cur && d % DIRS < DirsOf(data[cur])
      modifies m, m.mem, m.memMap, alive
      ensures Valid() && SameKernel(old(m.S()), m.S())
      ensures ok <==> old(FreeFrames(m.S()) >= StoreNeeds(m.S(), d, e))
      ensures ok ==> T() == old(T()) && m.held == old(m.held)
      ensures ok ==> Took(old(m.S()), m.S(), d, e, old(StoreNeeds(m.S(), d, e))) && Writable(m.S(), d, e)
      ensures ok && old(Mapped(m.S(), d, e)) ==> PageView(m.S(), d, e) == Privatize(old(m.S()), d, e)
      ensures ok && !old(Mapped(m.S(), d, e)) ==> PageView(m.S(), d, e) == Own(ZeroPage())
      ensures old(m.held) <= m.held
      ensures !ok ==> Exited(old(m.S()), m.S(), old(T()), T(), cur) && EndedShort(old(m.S()), m.S(), cur)
    {
      ghost var s0 := m.S();
      if !m.mem[0][d].present || !m.mem[m.mem[0][d].frame][e].present {
        ok := DoNoPage(cur, d, e);
      } else if !m.mem[m.mem[0][d].frame][e].rw {
        ok := DoWpPage(cur, d, e);
      } else {
        WritableIsPaged(s0, d, e);
        assert Took(s0, s0, d, e, 0);
        ok := true;
      }
    }

    /** A store in user mode. */
    method UserStore(cur: nat, p: nat, i: nat, w: Word) returns (ok: bool)
      requires Valid() && 1 <= cur < NR_TASKS && alive[cur] && i < ENTRIES && p * 4096 + 4096 <= data[cur]
      modifies m, m.mem, m.memMap, alive
      ensures Valid() && SameKernel(old(m.S()), m.S()) && OthersSame(old(m.S()), m.S(), cur)
      ensures p < PAGES
      ensures ok ==> T() == old(T()) && m.held == old(m.held)
      ensures ok ==> WroteWord(old(m.S()), m.S(), cur, p, i, w) && WritableAt(m.S(), cur, p)
      ensures ok <==> old(FreeFrames(m.S()) >= StoreNeeds(m.S(), DirOf(cur, p), p % ENTRIES))
      ensures ok ==>
        Took(old(m.S()), m.S(), DirOf(cur, p), p % ENTRIES, old(StoreNeeds(m.S(), DirOf(cur, p), p % ENTRIES)))
      ensures old(m.held) <= m.held
      ensures !ok ==> Exited(old(m.S()), m.S(), old(T()), T(), cur) && EndedShort(old(m.S()), m.S(), cur)
    {
      ghost var s0 := m.S();
      InLimit(data[cur], p);
      PageSplit(cur, p);
      PagesFullSize(s0, cur, p);
      var d, e := 16 * cur + p / 1024, p % 1024;
      ok := MakeWritable(cur, d, e);
      if !ok { return; }
      ghost var s1 := m.S();
      m.StoreWord(d, e, i, w);
      DirsKept(s1, m.S(), T());
      AfterStore(s0, s1, m.S(), d, e);
      StoredPage(s0, s1, m.S(), cur, p, i, w);
    }

    /** A load in user mode. */
    method UserLoad(cur: nat, p: nat, i: nat) returns (ok: bool, w: Word)
      requires Valid() && 1 <= cur < NR_TASKS && alive[cur] && i < ENTRIES && p * 4096 + 4096 <= data[cur]
      modifies m, m.mem, m.memMap, alive
      ensures Valid() && SameKernel(old(m.S()), m.S()) && OthersSame(old(m.S()), m.S(), cur)
      ensures p < PAGES
      ensures ok ==> T() == old(T()) && w == Loaded(old(Space(m.S(), cur)[p]), old(m.mem[..]), i)
      ensures ok ==> Space(m.S(), cur) == if old(Space(m.S(), cur)[p]) == Absent
        then old(Space(m.S(), cur))[p := Own(ZeroPage())] else old(Space(m.S(), cur))
      ensures ok <==> old(FreeFrames(m.S()) >= LoadNeeds(m.S(), DirOf(cur, p), p % ENTRIES))
      ensures ok ==> m.held == old(m.held)
      ensures ok ==>
        Took(old(m.S()), m.S(), DirOf(cur, p), p % ENTRIES, old(LoadNeeds(m.S(), DirOf(cur, p), p % ENTRIES)))
      ensures ok && old(Space(m.S(), cur)[p]) == Absent ==> WritableAt(m.S(), cur, p)
      ensures ok && old(Space(m.S(), cur)[p]) != Absent ==> m.S() == old(m.S())
      ensures old(m.held) <= m.held
      ensures !ok ==> Exited(old(m.S()), m.S(), old(T()), T(), cur) && EndedShort(old(m.S()), m.S(), cur)
    {
      ghost var s0 := m.S();
      InLimit(data[cur], p);
      PageSplit(cur, p);
      PagesFullSize(s0, cur, p);
      var d, e := 16 * cur + p / 1024, p % 1024;
      w := ZERO;
      if !m.mem[0][d].present || !m.mem[m.mem[0][d].frame][e].present {
        ok := DoNoPage(cur, d, e);
        if !ok { return; }
        PageFilled(s0, m.S(), cur, p, d, e);
      } else {
        PageThere(s0, cur, p, d, e);
      }
      WordThere(m.S(), cur, p, d, e, i);
      w := m.mem[m.mem[m.mem[0][d].frame][e].frame][i];
      ok := true;
    }

    /** A store by put_fs in kernel mode, which the write bit does not stop. */
    method PutFs(cur: nat, p: nat, i: nat, w: Word) returns (ok: bool)
      requires Valid() && 1 <= cur < NR_TASKS && alive[cur] && i < ENTRIES && p * 4096 + 4096 <= data[cur]
      requires p < PAGES && Verified(m.S(), DirOf(cur, p), p % ENTRIES)
      modifies m, m.mem, m.memMap, alive
      ensures Valid() && SameKernel(old(m.S()), m.S()) && OthersSame(old(m.S()), m.S(), cur)
      ensures ok ==> T() == old(T()) && m.held == old(m.held)
      ensures ok ==> WroteWord(old(m.S()), m.S(), cur, p, i, w) && WritableAt(m.S(), cur, p)
      ensures ok <==> old(FreeFrames(m.S()) >= LoadNeeds(m.S(), DirOf(cur, p), p % ENTRIES))
      ensures ok ==>
        Took(old(m.S()), m.S(), DirOf(cur, p), p % ENTRIES, old(LoadNeeds(m.S(), DirOf(cur, p), p % ENTRIES)))
      ensures old(m.held) <= m.held
      ensures !ok ==> Exited(old(m.S()), m.S(), old(T()), T(), cur) && EndedShort(old(m.S()), m.S(), cur)
    {
      ghost var s0 := m.S();
      PageSplit(cur, p);
      InLimit(data[cur], p);
      PagesFullSize(s0, cur, p);
      var d, e := 16 * cur + p / 1024, p % 1024;
      if !m.mem[0][d].present || !m.mem[m.mem[0][d].frame][e].present {
        ok := DoNoPage(cur, d, e);
        if !ok { return; }
      } else {
        WritableIsPaged(s0, d, e);
        assert Took(s0, s0, d, e, 0);
      }
      ghost var s1 := m.S();
      m.StoreWord(d, e, i, w);
      DirsKept(s1, m.S(), T());
      AfterStore(s0, s1, m.S(), d, e);
      StoredPage(s0, s1, m.S(), cur, p, i, w);
      ok := true;
    }

    method WriteVerify(cur: nat, address: nat) returns (ok: bool)
      requires Valid() && 1 <= cur < NR_TASKS && alive[cur] && address < 0x1_0000_0000
      modifies m, m.mem, m.memMap, alive
      ensures Valid() && SameKernel(old(m.S()), m.S()) && m.held == old(m.held)
      ensures ok ==> T() == old(T()) && m.mem[0] == old(m.mem[0]) && Privatized(old(m.S()), m.S())
      ensures ok ==> Verified(m.S(), address / 0x400000, address / 4096 % 1024)
      ensures ok ==> forall d, e :: Verified(old(m.S()), d, e) ==> Verified(m.S(), d, e)
      ensures ok <==> !old(NeedyAt(m.S(), address)) || old(FreeFrames(m.S())) > 0
      ensures ok ==> SecuredAt(old(m.S()), m.S(), address)
      ensures !ok ==> Exited(old(m.S()), m.S(), old(T()), T(), cur) && EndedShort(old(m.S()), m.S(), cur)
      ensures !ok ==> old(FreeFrames(m.S())) == 0 && !old(VerifiedAt(m.S(), address))
    {
      ghost var s0 := m.S();
      var d, e := address / 0x400000, address / 4096 % 1024;
      NothingSecured(s0, d, e);
      if !m.mem[0][d].present { return true; }
      var page := m.mem[0][d].frame;
      ReadOnlyIsMapped(s0, d, e);
      if m.mem[page][e].present && !m.mem[page][e].rw {
        ok := DoWpPage(cur, d, e);
        if ok {
          OnePrivatized(s0, m.S(), d, e);
          SecuredBy(s0, m.S(), d, e);
        }
        return;
      }
      ok := true;
    }

    /** Every page that [addr, addr + size) touches in the segment of cur is absent or writable
        afterwards; nobody reads anything else than before.  It fails at the first page that needs a
        frame when none is left.  For an area inside the segment this is when there are fewer frames
        than pages of the area that are present and not cur's alone. */
    method VerifyArea(cur: nat, addr: nat, size: int) returns (ok: bool)
      requires Valid() && 1 <= cur < NR_TASKS && alive[cur] && addr < 0x1_0000_0000
      requires -0x8000_0000 <= size < 0x8000_0000
      modifies m, m.mem, m.memMap, alive
      ensures Valid() && SameKernel(old(m.S()), m.S()) && m.held == old(m.held)
      ensures ok ==> T() == old(T()) && m.mem[0] == old(m.mem[0]) && Privatized(old(m.S()), m.S())
      ensures ok && addr % 4096 + size < 0x8000_0000 ==>
        forall k: nat :: 4096 * k < addr % 4096 + size ==> VerifiedAt(m.S(), VerifyAddress(cur, addr, k))
      ensures !ok ==> alive[..] == old(alive[..])[cur := false] && Space(m.S(), cur) == NoSpace()
      ensures !ok ==> forall u :: 0 <= u < NR_TASKS && u != cur ==> SameReads(old(m.S()), m.S(), u)
      ensures !ok ==> exists k: nat :: FramesEnd(old(m.S()), cur, addr, k) && 4096 * k < addr % 4096 + size
      ensures InSegment(addr, size, old(data[cur])) ==>
        (ok <==> old(FreeFrames(m.S()) >= |Needy(m.S(), cur, FirstPage(addr), AreaEnd(addr, size))|))
      ensures InSegment(addr, size, old(data[cur])) && ok ==>
        Area(old(m.S()), m.S(), cur, FirstPage(addr), AreaEnd(addr, size))
      ensures InSegment(addr, size, old(data[cur])) && !ok ==>
        Exited(old(m.S()), m.S(), old(T()), T(), cur) && GaveBack(old(m.S()), m.S(), cur)
    {
      var left := size + addr % 4096;
      if left >= 0x8000_0000 { left := left - 0x1_0000_0000; }
      var start := (addr - addr % 4096 + cur * 0x4000000) % 0x1_0000_0000;
      ghost var k: nat, p: nat;
      ok, k, p := VerifyPages(cur, start, left, addr, size);
      if ok {
        SweepEnds(old(m.S()), m.S(), cur, addr, size, data[cur], k, p);
      }
    }

    /** The loop of verify_area; k counts the addresses that are through, and p is the page that comes next. */
    method VerifyPages(cur: nat, start: nat, left: int, ghost addr: nat, ghost size: int)
      returns (ok: bool, ghost k: nat, ghost p: nat)
      requires Valid() && 1 <= cur < NR_TASKS && alive[cur] && start == VerifyAddress(cur, addr, 0)
      requires left <= addr % 4096 + size
      modifies m, m.mem, m.memMap, alive
      ensures Valid() && SameKernel(old(m.S()), m.S()) && m.held == old(m.held)
      ensures ok ==> left <= 4096 * k && (k > 0 ==> 4096 * (k - 1) < left) && T() == old(T())
      ensures ok ==> Sweep(old(m.S()), m.S(), cur, addr, size, data[cur], k, p) && p == FirstPage(addr) + k
      ensures !ok ==> 4096 * k < left && SweepFailed(old(m.S()), m.S(), old(T()), T(), cur, addr, size, k)
    {
      ghost var s0 := m.S();
      var a, rest := start, left;
      k, p := 0, FirstPage(addr);
      SweepStarts(s0, cur, addr, size, data[cur]);
      while rest > 0
        invariant rest == left - 4096 * k && (k > 0 ==> rest > -4096) && a == VerifyAddress(cur, addr, k)
        invariant Valid() && alive[cur] && T() == old(T())
        invariant Sweep(s0, m.S(), cur, addr, size, data[cur], k, p) && p == FirstPage(addr) + k
      {
        rest := rest - 4096;
        ok, k, p := VerifyPage(cur, a, s0, addr, size, k, p);
        if !ok { return; }
        a := (a + 4096) % 0x1_0000_0000;
      }
      ok := true;
    }

    /** One turn of it. */
    method VerifyPage(cur: nat, a: nat, ghost s0: State, ghost addr: nat, ghost size: int, ghost k: nat, ghost p: nat)
      returns (ok: bool, ghost k': nat, ghost p': nat)
      requires Valid() && 1 <= cur < NR_TASKS && alive[cur] && a == VerifyAddress(cur, addr, k)
      requires Inv(s0) && TasksOk(s0, T()) && Sweep(s0, m.S(), cur, addr, size, data[cur], k, p)
      requires 4096 * k < addr % 4096 + size && p == FirstPage(addr) + k
      modifies m, m.mem, m.memMap, alive
      ensures Valid() && SameKernel(s0, m.S()) && m.held == s0.held
      ensures ok ==> T() == old(T()) && Sweep(s0, m.S(), cur, addr, size, data[cur], k', p')
      ensures ok ==> k' == k + 1 && p' == p + 1 && VerifyAddress(cur, addr, k') == (a + 4096) % 0x1_0000_0000
      ensures !ok ==> k' == k && SweepFailed(s0, m.S(), old(T()), T(), cur, addr, size, k)
    {
      ghost var s := m.S();
      k', p' := k, p;
      ok := WriteVerify(cur, a);
      if ok {
        k', p' := k + 1, p + 1;
        SecuredPage(s, m.S(), cur, addr, size, data[cur], k, p);
        SweepMore(s0, s, m.S(), cur, addr, size, data[cur], k, p, k', p');
      } else {
        SweepFails(s0, s, m.S(), old(T()), T(), cur, addr, size, k, p);
      }
    }

    /** Copies the tables of cur for slot nr, or gives back all it took. */
    method CopyMem(nr: nat, cur: nat) returns (err: int)
      requires Valid() && cur < NR_TASKS && alive[cur] && 1 <= nr < NR_TASKS && !alive[nr]
      modifies m, m.mem, m.memMap
      ensures m.Valid() && SameKernel(old(m.S()), m.S()) && m.held == old(m.held)
      ensures err == 0 || err == -ENOMEM
      ensures err == 0 <==> old(FreeFrames(m.S()) >= Sources(m.S(), 16 * cur, DirsOf(data[cur])))
      ensures err == 0 ==> MemCopied(old(m.S()), m.S(), cur, nr, DirsOf(data[cur]))
      ensures err == 0 ==> forall p: nat :: p < 16384 ==> PageCopied(old(m.S()), m.S(), cur, nr, p)
      ensures err != 0 ==> MemNotCopied(old(m.S()), m.S(), cur, nr, DirsOf(data[cur]))
    {
      ghost var s0 := m.S();
      ChildSpace(s0, T(), cur, nr);
      err := CopyTables(nr, cur, data[cur]);
      if err == 0 {
        CopyDone(s0, m.S(), T(), cur, nr);
        PagesCopied(s0, m.S(), T(), cur, nr);
      }
    }

    /** Its copy_page_tables, and free_page_tables when that fails. */
    method CopyTables(nr: nat, cur: nat, limit: nat) returns (err: int)
      requires m.Valid() && cur < NR_TASKS && 1 <= nr < NR_TASKS && cur != nr && DirsOf(limit) <= DIRS
      requires limit <= 0x4000000 && (cur == 0 ==> limit <= 0xa0000)
      requires forall d :: 16 * nr <= d < 16 * nr + DirsOf(limit) ==> !HasDir(m.S(), d)
      modifies m, m.mem, m.memMap
      ensures m.Valid() && SameKernel(old(m.S()), m.S()) && m.held == old(m.held)
      ensures err == 0 || err == -ENOMEM
      ensures err == 0 <==> old(FreeFrames(m.S()) >= Sources(m.S(), 16 * cur, DirsOf(limit)))
      ensures err == 0 ==> SharedTo(old(m.S()), m.S(), 16 * cur, 16 * nr, DirsOf(limit), DirsOf(limit))
      ensures err == 0 ==> KeptOutside(old(m.S()), m.S(), TaskDirs(cur) + TaskDirs(nr))
      ensures err == 0 ==> EntriesCopied(old(m.S()), m.S(), cur, nr, DirsOf(limit))
      ensures err != 0 ==> MemNotCopied(old(m.S()), m.S(), cur, nr, DirsOf(limit))
    {
      ghost var s0 := m.S();
      SixteenPlus(cur, 0);
      SixteenPlus(nr, 0);
      err := m.CopyPageTables(16 * cur, 16 * nr, limit);
      CopyWider(s0, m.S(), cur, nr, DirsOf(limit));
      if err != 0 {
        UndoCopy(nr, cur, limit, s0);
        return -ENOMEM;
      }
    }

    method UndoCopy(nr: nat, cur: nat, limit: nat, ghost s0: State)
      requires m.Valid() && Inv(s0) && cur < NR_TASKS && 1 <= nr < NR_TASKS
      requires DirsOf(limit) <= DIRS && SameOutside(s0, m.S(), 16 * nr, 16 * nr + DirsOf(limit))
      requires KeptOutside(s0, m.S(), TaskDirs(cur) + TaskDirs(nr)) && m.held == s0.held
      requires forall d :: 16 * nr <= d < 16 * nr + DirsOf(limit) ==> !HasDir(s0, d)
      modifies m, m.mem, m.memMap
      ensures m.Valid() && SameKernel(old(m.S()), m.S()) && m.held == old(m.held)
      ensures MemNotCopied(s0, m.S(), cur, nr, DirsOf(limit))
    {
      ghost var s1 := m.S();
      m.FreePageTables(16 * nr, limit);
      FreeWider(s0, s1, m.S(), cur, nr, DirsOf(limit));
      SameOutsideTrans(s0, s1, m.S(), 16 * nr, 16 * nr + DirsOf(limit));
      RolledBack(s0, m.S(), 16 * nr, 16 * nr + DirsOf(limit));
    }

    /** The memory part of copy_process.  A fork that runs out of frames leaves mem_map as it was. */
    method CopyProcess(nr: nat, cur: nat) returns (r: int)
      requires Valid() && cur < NR_TASKS && alive[cur] && 1 <= nr < NR_TASKS && slot[nr] == 0
      modifies m, m.mem, m.memMap, slot, alive, code, data
      ensures Valid() && SameKernel(old(m.S()), m.S())
      ensures r == 0 || r == -EAGAIN
      ensures r == 0 <==> old(FreeFrames(m.S()) >= ForkNeeds(m.S(), cur))
      ensures r == 0 ==> ForkedSpace(old(m.S()), m.S(), cur, nr) && T() == Forked(old(T()), cur, nr, slot[nr])
      ensures r == 0 ==> forall p: nat :: p < 16384 ==> PageCopied(old(m.S()), m.S(), cur, nr, p)
      ensures r == 0 && cur == 0 ==> forall p: nat :: p < 16384 ==> PageLent(m.S(), nr, p)
      ensures r == 0 ==> alive[nr] && code[nr] == old(code[cur]) && data[nr] == old(data[cur])
      ensures r == 0 ==> slot[nr] !in old(m.held) && m.held == old(m.held) + {slot[nr]}
      ensures r != 0 ==> NotForked(old(m.S()), m.S(), cur, nr) && T() == old(T())
      ensures r != 0 ==> m.held == old(m.held) && m.memMap[..] == old(m.memMap[..])
    {
      ghost var s0 := m.S();
      var p := m.GetFreePage();
      ghost var s1 := m.S();
      if p == 0 {
        NothingForked(s0, cur, nr);
        return -EAGAIN;
      }
      assert forall d :: SameDir(s0, s1, d);
      TasksKept(s0, s1, T());
      SourcesAre(s0, s1, T(), cur);
      var err := CopyMem(nr, cur);
      if err != 0 {
        GiveUp(p, nr, cur, s0, s1);
        return -EAGAIN;
      }
      ForkSucceeds(s0, s1, m.S(), T(), cur, nr, p);
      PagesFrom(s0, s1, m.S(), cur, nr, p);
      EnterTask(nr, cur, p);
      r := 0;
    }

    /** The end of a copy_process that got no memory: the task structure goes back. */
    method GiveUp(p: nat, nr: nat, cur: nat, ghost s0: State, ghost s1: State)
      requires m.Valid() && Apart() && cur < NR_TASKS && 1 <= nr < NR_TASKS && Inv(s0) && Inv(s1) && NoPage(s0, s1)
      requires TasksOk(s0, T()) && !alive[nr] && LOW <= p < HIGH && s0.count[p - LOW] == 0 && p !in s0.held
      requires s1 == Alloc(s0, p) && m.held == s1.held && KeptOutside(s0, s1, {})
      requires MemNotCopied(s1, m.S(), cur, nr, DirsOf(data[cur]))
      modifies m, m.memMap
      ensures Valid() && SameKernel(old(m.S()), m.S())
      ensures NotForked(s0, m.S(), cur, nr) && m.held == s0.held && m.memMap[..] == s0.count
    {
      ghost var s2 := m.S();
      m.FreeHeldPage(p);
      CountBack(s0, s1, s2, m.S(), p);
      ForkFails(s0, s1, s2, m.S(), T(), cur, nr);
    }

    /** The slot of the new task. */
    method EnterTask(nr: nat, cur: nat, p: nat)
      requires Apart() && slot.Length == alive.Length == code.Length == data.Length == NR_TASKS
      requires cur < NR_TASKS && nr < NR_TASKS
      modifies slot, alive, code, data
      ensures T() == Forked(old(T()), cur, nr, p) && slot[nr] == p
    {
      slot[nr], alive[nr], code[nr], data[nr] := p, true, code[cur], data[cur];
    }

    /** do_execve's change of address space: the old pages go, the argument pages, which the kernel
        holds, become the last 32 pages of the segment.  put_page cannot fail here, because the
        caller gives back at least the page table it was running from. */
    method ExecPages(cur: nat, newCode: nat, page: seq<nat>)
      requires Valid() && 1 <= cur < NR_TASKS && alive[cur] && newCode <= 0x4000000 && |page| == MAX_ARG_PAGES
      requires forall i :: 0 <= i < |page| && page[i] != 0 ==> page[i] in m.held && page[i] !in slot[..]
      requires forall i, j :: 0 <= i < j < |page| && page[i] != 0 ==> page[i] != page[j]
      requires exists d :: 16 * cur <= d < 16 * cur + 16 && HasDir(m.S(), d)
      modifies m, m.mem, m.memMap, code, data
      ensures Valid() && SameKernel(old(m.S()), m.S()) && OthersSame(old(m.S()), m.S(), cur)
      ensures Space(m.S(), cur) == ArgumentSpace(page, old(m.mem[..]), 0) && Frames(m.S(), cur) == ArgumentRow(page, 0)
      ensures m.held == old(m.held) - ArgumentFrames(page, 0)
      ensures slot[..] == old(slot[..]) && alive[..] == old(alive[..])
      ensures code[..] == old(code[..])[cur := newCode] && data[..] == old(data[..])[cur := 0x4000000]
      ensures Replaced(old(m.S()), m.S(), cur, page)
    {
      ghost var s0 := m.S();
      SomeDirectory(s0, T(), cur);
      FreeSpace(cur);
      ghost var s1 := m.S();
      ChangeLdt(cur, newCode, page);
      OthersTrans(s0, s1, m.S(), cur);
      ArgumentsSame(page, s0, s1);
      ReplacedBy(s0, s1, m.S(), cur, page);
    }

    /** change_ldt: the new limits, then the argument pages from the last one down. */
    method ChangeLdt(cur: nat, newCode: nat, page: seq<nat>)
      requires Valid() && 1 <= cur < NR_TASKS && alive[cur] && newCode <= 0x4000000 && |page| == MAX_ARG_PAGES
      requires forall i :: 0 <= i < |page| && page[i] != 0 ==> page[i] in m.held && page[i] !in slot[..]
      requires forall i, j :: 0 <= i < j < |page| && page[i] != 0 ==> page[i] != page[j]
      requires Space(m.S(), cur) == NoSpace() && Frames(m.S(), cur) == NoFrames() && !NoneFree(m.S())
      requires forall d :: HasDir(m.S(), d) ==> d / DIRS != cur
      modifies m, m.mem, m.memMap, code, data
      ensures Valid() && SameKernel(old(m.S()), m.S()) && OthersSame(old(m.S()), m.S(), cur)
      ensures Space(m.S(), cur) == ArgumentSpace(page, old(m.mem[..]), 0) && Frames(m.S(), cur) == ArgumentRow(page, 0)
      ensures m.held == old(m.held) - ArgumentFrames(page, 0)
      ensures slot[..] == old(slot[..]) && alive[..] == old(alive[..])
      ensures code[..] == old(code[..])[cur := newCode] && data[..] == old(data[..])[cur := 0x4000000]
      ensures Placed(old(m.S()), m.S(), cur, page, 0)
    {
      ghost var s0 := m.S();
      code[cur], data[cur] := newCode, 0x4000000;
      LimitsChanged(s0, old(T()), T(), cur);
      ghost var t1 := T();
      var i := MAX_ARG_PAGES;
      NothingLaid(s0, t1, cur, page);
      while i > 0
        invariant 0 <= i <= MAX_ARG_PAGES
        invariant m.Valid() && SameKernel(s0, m.S()) && T() == t1 && Laid(s0, m.S(), t1, cur, page, i)
      {
        i := i - 1;
        PutNext(cur, i, page, s0);
      }
    }

    /** One turn of it. */
    method PutNext(cur: nat, i: nat, page: seq<nat>, ghost s0: State)
      requires m.Valid() && Apart() && Inv(s0) && SameKernel(s0, m.S())
      requires 1 <= cur < NR_TASKS && |page| == MAX_ARG_PAGES
      requires i < MAX_ARG_PAGES && Laid(s0, m.S(), T(), cur, page, i + 1)
      requires alive[cur] && data[cur] == 0x4000000 && Usable(s0, slot[..], page) && !HasDir(s0, 16 * cur + 15)
      modifies m, m.mem, m.memMap
      ensures m.Valid() && SameKernel(s0, m.S()) && Laid(s0, m.S(), T(), cur, page, i)
    {
      ghost var s := m.S();
      LaidSkip(s0, s, T(), cur, page, i);
      if page[i] != 0 {
        UsableNext(s0, s, T(), slot[..], cur, page, i);
        PutArgument(cur, i, page, s0);
        LaidMore(s0, s, m.S(), T(), cur, page, i);
      }
    }

    /** One put_page of change_ldt. */
    method PutArgument(cur: nat, i: nat, page: seq<nat>, ghost s0: State)
      requires m.Valid() && Apart() && TasksOk(m.S(), T())
      requires 1 <= cur < NR_TASKS && alive[cur] && data[cur] == 0x4000000
      requires |page| == MAX_ARG_PAGES && i < MAX_ARG_PAGES && page[i] != 0 && |s0.mem| == HIGH && page[i] < HIGH
      requires Space(m.S(), cur) == ArgumentSpace(page, s0.mem, i + 1) && Frames(m.S(), cur) == ArgumentRow(page, i + 1)
      requires m.mem[page[i]] == s0.mem[page[i]]
      requires page[i] in m.held && page[i] !in slot[..]
      requires HasDir(m.S(), 16 * cur + 15) || !NoneFree(m.S())
      modifies m, m.mem, m.memMap
      ensures m.Valid() && TasksOk(m.S(), T()) && SameKernel(old(m.S()), m.S()) && OthersSame(old(m.S()), m.S(), cur)
      ensures HasDir(m.S(), 16 * cur + 15) && m.held == old(m.held) - {page[i]}
      ensures Space(m.S(), cur) == ArgumentSpace(page, s0.mem, i) && Frames(m.S(), cur) == ArgumentRow(page, i)
      ensures FreeFrames(m.S()) == old(FreeFrames(m.S()) - One(!HasDir(m.S(), DIRS * cur + 15)))
      ensures KeptOutside(old(m.S()), m.S(), {}) && OtherTablesSame(old(m.S()), m.S(), DIRS * cur + 15)
      ensures Writable(m.S(), DIRS * cur + 15, ENTRIES - MAX_ARG_PAGES + i)
    {
      ghost var s := m.S();
      var d, e := 16 * cur + 15, 1024 - MAX_ARG_PAGES + i;
      ArgumentAbsent(s, cur, page, s0.mem, i, d, e);
      var ok := m.PutPage(page[i], d, e);
      ArgumentEntered(s, m.S(), T(), cur, page, s0.mem, i, d, e);
    }

    /** The end of a task slot: release frees the task structure of a task that has exited. */
    method Release(t: nat)
      requires Valid() && 1 <= t < NR_TASKS && !alive[t] && slot[t] != 0
      modifies m, m.memMap, slot
      ensures Valid() && m.mem[..] == old(m.mem[..]) && slot[..] == old(slot[..])[t := 0]
      ensures alive[..] == old(alive[..]) && code[..] == old(code[..]) && data[..] == old(data[..])
      ensures m.held == old(m.held) - {old(slot[t])}
      ensures forall u :: 0 <= u < NR_TASKS ==> SameSpace(old(m.S()), m.S(), u)
      ensures FreeFrames(m.S()) == old(FreeFrames(m.S())) + 1 && Undisturbed(old(m.S()), m.S())
    {
      ghost var s := m.S();
      var p := slot[t];
      slot[t] := 0;
      m.FreeHeldPage(p);
      NoPageSpaces(s, m.S());
      assert forall d :: SameDir(s, m.S(), d);
    }

    /** The kernel writes a word of its own low memory, outside the boot page tables. */
    method LowStore(f: nat, i: nat, w: Word)
      requires Valid() && 3 <= f < LOW && i < ENTRIES
      modifies m.mem
      ensures Valid() && m.mem[..] == old(m.mem[..])[f := old(m.mem[f])[i := w]]
      ensures forall u :: 0 <= u < NR_TASKS ==> SameSpace(old(m.S()), m.S(), u)
      ensures m.held == old(m.held) && FreeFrames(m.S()) == old(FreeFrames(m.S())) && Undisturbed(old(m.S()), m.S())
    {
      ghost var s := m.S();
      WriteStep(s, f, m.mem[f][i := w]);
      WriteBits(s, f, m.mem[f][i := w]);
      m.mem[f] := m.mem[f][i := w];
      assert m.S() == s.(mem := s.mem[f := s.mem[f][i := w]]);
      KernelKept(s, m.S());
      NoPageSpaces(s, m.S());
      assert forall d :: SameDir(s, m.S(), d);
    }

    /** get_free_page for the kernel itself: an argument page of an exec or the buffer of a pipe. */
    method GrabPage() returns (f: nat)
      requires Valid()
      modifies m, m.mem, m.memMap
      ensures Valid() && SameKernel(old(m.S()), m.S()) && m.mem[0] == old(m.mem[0])
      ensures f == 0 <==> old(FreeFrames(m.S())) == 0
      ensures f == 0 ==> m.S() == old(m.S())
      ensures f != 0 ==> f !in old(m.held) && m.held == old(m.held) + {f} && LOW <= f < HIGH && m.mem[f] == ZeroPage()
      ensures f != 0 ==> FreeFrames(m.S()) == old(FreeFrames(m.S())) - 1 && Undisturbed(old(m.S()), m.S())
      ensures f != 0 ==> Unused(old(m.S()), f)
      ensures forall u :: 0 <= u < NR_TASKS ==> SameSpace(old(m.S()), m.S(), u)
    {
      ghost var s := m.S();
      f := m.GetFreePage();
      if f != 0 {
        assert forall d :: SameDir(s, m.S(), d);
        TasksKept(s, m.S(), T());
        forall u | 0 <= u < NR_TASKS ensures SameSpace(s, m.S(), u) { AllocKeepsSpace(s, m.S(), u); }
      }
    }

    /** The kernel writes a word of a page it holds. */
    method FillPage(f: nat, i: nat, w: Word)
      requires Valid() && f in m.held && i < ENTRIES
      modifies m.mem
      ensures Valid() && f < HIGH && m.mem[..] == old(m.mem[..])[f := old(m.mem[f])[i := w]] && LOW <= f
      ensures m.held == old(m.held) && FreeFrames(m.S()) == old(FreeFrames(m.S())) && Undisturbed(old(m.S()), m.S())
      ensures forall u :: 0 <= u < NR_TASKS ==> SameSpace(old(m.S()), m.S(), u)
    {
      ghost var s := m.S();
      forall d | HasDir(s, d) ensures s.mem[0][d].frame != f { TableFrameIsPrivate(s, d); }
      forall d, e | Mapped(s, d, e) ensures Pte(s, d, e).frame != f { DataFrameIsNotHeld(s, d, e); }
      WriteStep(s, f, m.mem[f][i := w]);
      WriteBits(s, f, m.mem[f][i := w]);
      m.mem[f] := m.mem[f][i := w];
      assert m.S() == s.(mem := s.mem[f := s.mem[f][i := w]]);
      KernelKept(s, m.S());
      NoPageSpaces(s, m.S());
      assert forall d :: SameDir(s, m.S(), d);
    }

    /** free_page on such a page; task structures go by Release. */
    method DropPage(f: nat)
      requires Valid() && f in m.held && f !in slot[..]
      modifies m, m.memMap
      ensures Valid() && m.mem[..] == old(m.mem[..]) && m.held == old(m.held) - {f}
      ensures FreeFrames(m.S()) == old(FreeFrames(m.S())) + 1 && Undisturbed(old(m.S()), m.S())
      ensures forall u :: 0 <= u < NR_TASKS ==> SameSpace(old(m.S()), m.S(), u)
    {
      ghost var s := m.S();
      m.FreeHeldPage(f);
      forall u | 0 <= u < NR_TASKS ensures SameSpace(s, m.S(), u) { AllocKeepsSpace(s, m.S(), u); }
      assert forall d :: SameDir(s, m.S(), d);
    }
  }

  lemma OthersTrans(s0: State, s: State, s': State, cur: nat)
    requires Inv(s0) && Inv(s) && Inv(s') && OthersSame(s0, s, cur) && OthersSame(s, s', cur)
    ensures OthersSame(s0, s', cur)
  {
    forall u | 0 <= u < NR_TASKS && u != cur ensures SameSpace(s0, s', u) {
      assert SameSpace(s0, s, u) && SameSpace(s, s', u);
    }
  }

  /** The pages are the kernel's, no task structures, and each is used once. */
  ghost predicate Usable(s: State, slot: seq<nat>, page: seq<nat>) {
    && (forall i :: 0 <= i < |page| && page[i] != 0 ==> page[i] in s.held && page[i] !in slot)
    && (forall i, j :: 0 <= i < j < |page| && page[i] != 0 ==> page[i] != page[j])
  }

  /** What change_ldt has done when the argument pages from number i on are in. */
  ghost predicate Laid(s0: State, s: State, t: Tasks, cur: nat, page: seq<nat>, i: nat)
    requires Inv(s0) && Inv(s) && 1 <= cur < NR_TASKS && |page| == MAX_ARG_PAGES
  {
    && OthersSame(s0, s, cur) && TasksOk(s, t) && (HasDir(s, 16 * cur + 15) || !NoneFree(s))
    && Space(s, cur) == ArgumentSpace(page, s0.mem, i) && Frames(s, cur) == ArgumentRow(page, i)
    && s.held == s0.held - ArgumentFrames(page, i) && Placed(s0, s, cur, page, i)
  }

  lemma NothingLaid(s: State, t: Tasks, cur: nat, page: seq<nat>)
    requires Inv(s) && TasksOk(s, t) && 1 <= cur < NR_TASKS && |page| == MAX_ARG_PAGES
    requires Space(s, cur) == NoSpace() && Frames(s, cur) == NoFrames() && !NoneFree(s)
    ensures Laid(s, s, t, cur, page, MAX_ARG_PAGES)
  {
    NothingPlaced(s, cur, page);
    assert ArgumentSpace(page, s.mem, MAX_ARG_PAGES) == NoSpace() && ArgumentRow(page, MAX_ARG_PAGES) == NoFrames();
    assert ArgumentFrames(page, MAX_ARG_PAGES) == {};
  }

  lemma LaidSkip(s0: State, s: State, t: Tasks, cur: nat, page: seq<nat>, i: nat)
    requires Inv(s0) && Inv(s) && 1 <= cur < NR_TASKS && |page| == MAX_ARG_PAGES && i < MAX_ARG_PAGES
    requires Laid(s0, s, t, cur, page, i + 1)
    ensures page[i] == 0 ==> Laid(s0, s, t, cur, page, i)
  {
    if page[i] == 0 {
      ArgumentsSkip(page, s0.mem, i);
      PlacedSkip(s0, s, cur, page, i);
      assert ArgumentFrames(page, i) == ArgumentFrames(page, i + 1);
    }
  }

  lemma UsableNext(s0: State, s: State, t: Tasks, slot: seq<nat>, cur: nat, page: seq<nat>, i: nat)
    requires Inv(s0) && Inv(s) && 1 <= cur < NR_TASKS && |page| == MAX_ARG_PAGES && i < MAX_ARG_PAGES && page[i] != 0
    requires Laid(s0, s, t, cur, page, i + 1) && Usable(s0, slot, page) && SameKernel(s0, s)
    ensures page[i] in s.held && page[i] !in slot && page[i] < HIGH && s.mem[page[i]] == s0.mem[page[i]]
  {
    ArgumentFramesStep(page, i);
  }

  lemma LaidMore(s0: State, s: State, s': State, t: Tasks, cur: nat, page: seq<nat>, i: nat)
    requires Inv(s0) && Inv(s) && Inv(s') && 1 <= cur < NR_TASKS && |page| == MAX_ARG_PAGES && i < MAX_ARG_PAGES
    requires page[i] != 0 && !HasDir(s0, 16 * cur + 15)
    requires forall i, j :: 0 <= i < j < |page| && page[i] != 0 ==> page[i] != page[j]
    requires Laid(s0, s, t, cur, page, i + 1) && OthersSame(s, s', cur) && TasksOk(s', t)
    requires HasDir(s', 16 * cur + 15) && s'.held == s.held - {page[i]}
    requires Space(s', cur) == ArgumentSpace(page, s0.mem, i) && Frames(s', cur) == ArgumentRow(page, i)
    requires FreeFrames(s') == FreeFrames(s) - One(!HasDir(s, DIRS * cur + 15)) && KeptOutside(s, s', {})
    requires OtherTablesSame(s, s', DIRS * cur + 15) && Writable(s', DIRS * cur + 15, ENTRIES - |page| + i)
    ensures Laid(s0, s', t, cur, page, i)
  {
    ArgumentFramesStep(page, i);
    OthersTrans(s0, s, s', cur);
    PlacedMore(s0, s, s', cur, page, i);
  }

  lemma ArgumentFramesStep(page: seq<nat>, i: nat)
    requires i < |page|
    requires forall i, j :: 0 <= i < j < |page| && page[i] != 0 ==> page[i] != page[j]
    ensures ArgumentFrames(page, i) == ArgumentFrames(page, i + 1) + (if page[i] != 0 then {page[i]} else {})
    ensures page[i] != 0 ==> page[i] !in ArgumentFrames(page, i + 1)
  {
  }

  lemma ArgumentsSame(page: seq<nat>, s: State, s': State)
    requires Inv(s) && Inv(s') && SameKernel(s, s') && s'.held == s.held && |page| == MAX_ARG_PAGES
    requires forall i :: 0 <= i < |page| && page[i] != 0 ==> page[i] in s.held
    ensures ArgumentSpace(page, s'.mem, 0) == ArgumentSpace(page, s.mem, 0)
  {
  }

  lemma ArgumentsSkip(page: seq<nat>, mem: seq<Page>, i: nat)
    requires |page| == MAX_ARG_PAGES && i < MAX_ARG_PAGES
    ensures page[i] == 0 ==> ArgumentSpace(page, mem, i) == ArgumentSpace(page, mem, i + 1)
    ensures page[i] == 0 ==> ArgumentRow(page, i) == ArgumentRow(page, i + 1)
  {
  }

  lemma ArgumentPlaced(page: seq<nat>, mem: seq<Page>, i: nat)
    requires |page| == MAX_ARG_PAGES && i < MAX_ARG_PAGES && page[i] != 0 && page[i] < |mem|
    ensures var p := PAGES - MAX_ARG_PAGES + i;
      && ArgumentSpace(page, mem, i) == ArgumentSpace(page, mem, i + 1)[p := Own(mem[page[i]])]
      && ArgumentRow(page, i) == ArgumentRow(page, i + 1)[p := page[i]]
  {
  }

  /** The page table for the last 4 MB of a task with a segment of 64 MB is inside the segment. */
  lemma LastDirectory(s: State, s': State, t: Tasks, cur: nat)
    requires Inv(s) && Inv(s') && TasksOk(s, t) && 1 <= cur < NR_TASKS && t.alive[cur] && t.data[cur] == 0x4000000
    requires OtherTablesSame(s, s', 16 * cur + 15) && forall i :: 1 <= i < NR_TASKS && t.slot[i] != 0 ==>
      t.slot[i] in s'.held
    ensures TasksOk(s', t)
  {
    SixteenPlus(cur, 15);
    forall d | HasDir(s', d) && d != 16 * cur + 15 ensures HasDir(s, d) { assert SameDir(s, s', d); }
  }

  /** A page that was missing is there now, all zeros. */
  lemma PageFilled(s: State, s': State, cur: nat, p: nat, d: int, e: int)
    requires Inv(s) && Inv(s') && 1 <= cur < NR_TASKS && p < PAGES && d == DirOf(cur, p) && e == p % ENTRIES
    requires !Mapped(s, d, e) && OtherPagesSame(s, s', d, e) && PageView(s', d, e) == Own(ZeroPage())
    ensures Space(s, cur)[p] == Absent && Space(s', cur) == Space(s, cur)[p := Own(ZeroPage())]
    ensures OthersSame(s, s', cur)
  {
    PageSplit(cur, p);
    SpaceUpdated(s, s', cur, p);
  }

  lemma PageThere(s: State, cur: nat, p: nat, d: int, e: int)
    requires Inv(s) && 1 <= cur < NR_TASKS && p < PAGES && d == DirOf(cur, p) && e == p % ENTRIES && Mapped(s, d, e)
    ensures Space(s, cur)[p] != Absent && Took(s, s, d, e, 0) && LoadNeeds(s, d, e) == 0
  {
    PageSplit(cur, p);
  }

  /** The word that the processor finds through the tables is the one in the task's own view. */
  lemma WordThere(s: State, cur: nat, p: nat, d: int, e: int, i: nat)
    requires Inv(s) && 1 <= cur < NR_TASKS && p < PAGES && d == DirOf(cur, p) && e == p % ENTRIES && Mapped(s, d, e)
    requires i < ENTRIES
    ensures var v := Space(s, cur)[p];
      && (v.Low? ==> v.frame < LOW) && (v.Own? ==> |v.page| == ENTRIES) && Pte(s, d, e).frame < HIGH
      && s.mem[Pte(s, d, e).frame][i] == Loaded(v, s.mem, i)
  {
    PagesFullSize(s, cur, p);
    PageSplit(cur, p);
    EntryBound(s, d, e);
  }

  lemma ArgumentAbsent(s: State, cur: nat, page: seq<nat>, mem: seq<Page>, i: nat, d: int, e: int)
    requires Inv(s) && 1 <= cur < NR_TASKS && |page| == MAX_ARG_PAGES && i < MAX_ARG_PAGES && |mem| == HIGH
    requires Space(s, cur) == ArgumentSpace(page, mem, i + 1)
    requires d == 16 * cur + 15 && e == 1024 - MAX_ARG_PAGES + i
    ensures Slot(d, e) && !Mapped(s, d, e)
  {
    var p := PAGES - MAX_ARG_PAGES + i;
    PageSplit(cur, p);
    assert Space(s, cur)[p] == PageView(s, d, e) == Absent;
  }

  /** What put_page has done for argument page i. */
  lemma ArgumentEntered(s: State, s': State, t: Tasks, cur: nat, page: seq<nat>, mem: seq<Page>, i: nat, d: int, e: int)
    requires Inv(s) && Inv(s') && TasksOk(s, t) && 1 <= cur < NR_TASKS && t.alive[cur] && t.data[cur] == 0x4000000
    requires |page| == MAX_ARG_PAGES && i < MAX_ARG_PAGES && page[i] != 0 && |mem| == HIGH && page[i] < HIGH
    requires Space(s, cur) == ArgumentSpace(page, mem, i + 1) && Frames(s, cur) == ArgumentRow(page, i + 1)
    requires d == 16 * cur + 15 && e == 1024 - MAX_ARG_PAGES + i
    requires OtherTablesSame(s, s', d) && OtherPagesSame(s, s', d, e)
    requires PageView(s', d, e) == Own(mem[page[i]]) && FrameAt(s', d, e) == page[i]
    requires forall i :: 1 <= i < NR_TASKS && t.slot[i] != 0 ==> t.slot[i] in s'.held
    ensures TasksOk(s', t) && OthersSame(s, s', cur)
    ensures Space(s', cur) == ArgumentSpace(page, mem, i) && Frames(s', cur) == ArgumentRow(page, i)
  {
    var p := PAGES - MAX_ARG_PAGES + i;
    PageSplit(cur, p);
    LastDirectory(s, s', t, cur);
    SpaceUpdated(s, s', cur, p);
    ArgumentPlaced(page, mem, i);
  }

  /** Only pages of tasks are read-only: the boot page tables have the write bit in all their entries. */
  lemma ReadOnlyIsMapped(s: State, d: int, e: int)
    requires Inv(s) && KernelMapped(s) && 0 <= d < ENTRIES && 0 <= e < ENTRIES && s.mem[0][d].present
    ensures s.mem[0][d].frame < HIGH
    ensures s.mem[s.mem[0][d].frame][e].present && !s.mem[s.mem[0][d].frame][e].rw ==> Mapped(s, d, e)
  {
    if d >= 16 {
      assert HasDir(s, d);
    } else {
      assert d < 2;
      assert s.mem[s.mem[0][d].frame][e] == Entry7(if d == 0 then e else ENTRIES + e);
    }
  }

  lemma SomeGiven(s0: State, s: State, t: Tasks, cur: nat)
    requires Inv(s0) && Inv(s) && TasksOk(s0, t) && 1 <= cur < NR_TASKS && GaveBack(s0, s, cur)
    ensures (exists d :: 16 * cur <= d < 16 * cur + DirsOf(t.data[cur]) && HasDir(s0, d)) ==> !NoneFree(s)
  {
    NoneFreeIs(s);
    if d :| 16 * cur <= d < 16 * cur + DirsOf(t.data[cur]) && HasDir(s0, d) {
      assert d in TablesIn(s0, DIRS * cur, DIRS * cur + DIRS);
    }
  }

  lemma SomeDirectory(s: State, t: Tasks, cur: nat)
    requires Inv(s) && TasksOk(s, t) && 1 <= cur < NR_TASKS
    requires exists d :: 16 * cur <= d < 16 * cur + 16 && HasDir(s, d)
    ensures exists d :: 16 * cur <= d < 16 * cur + DirsOf(t.data[cur]) && HasDir(s, d)
  {
    var d :| 16 * cur <= d < 16 * cur + 16 && HasDir(s, d);
    SixteenPlus(cur, d - 16 * cur);
  }

  lemma LimitsChanged(s: State, t: Tasks, t': Tasks, cur: nat)
    requires Inv(s) && TasksOk(s, t) && 1 <= cur < NR_TASKS && t'.slot == t.slot && t'.alive == t.alive
    requires |t'.code| == |t'.data| == NR_TASKS && t'.code[cur] <= t'.data[cur] == 0x4000000
    requires forall u :: 0 <= u < NR_TASKS && u != cur ==> t'.code[u] == t.code[u] && t'.data[u] == t.data[u]
    requires forall d :: HasDir(s, d) ==> d / DIRS != cur
    ensures TasksOk(s, t')
  {
  }

  ghost function Forked(t: Tasks, cur: nat, nr: nat, p: nat): Tasks
    requires |t.slot| == |t.alive| == |t.code| == |t.data| == NR_TASKS && cur < NR_TASKS && nr < NR_TASKS
  {
    Tasks(t.slot[nr := p], t.alive[nr := true], t.code[nr := t.code[cur]], t.data[nr := t.data[cur]])
  }

  lemma NoDirs(s: State, t: Tasks, nr: nat)
    requires Shape(s) && TasksOk(s, t) && 1 <= nr < NR_TASKS && !t.alive[nr]
    ensures forall d :: 16 * nr <= d < 16 * nr + 16 ==> !HasDir(s, d)
  {
  }

  /** What copy_page_tables asks of its caller. */
  lemma ChildSpace(s: State, t: Tasks, cur: nat, nr: nat)
    requires Inv(s) && TasksOk(s, t) && cur < NR_TASKS && 1 <= nr < NR_TASKS && t.alive[cur] && !t.alive[nr]
    ensures cur != nr && DirsOf(t.data[cur]) <= DIRS && t.data[cur] <= 0x4000000
    ensures cur == 0 ==> t.data[cur] <= 0xa0000
    ensures forall d :: 16 * nr <= d < 16 * nr + DirsOf(t.data[cur]) ==> !HasDir(s, d)
  {
    DirsGrow(t.data[cur], t.data[cur]);
    NoDirs(s, t, nr);
  }

  lemma CopyDone(s: State, s': State, t: Tasks, cur: nat, nr: nat)
    requires Inv(s) && Inv(s') && TasksOk(s, t) && cur < NR_TASKS && 1 <= nr < NR_TASKS && cur != nr
    requires t.alive[cur] && !t.alive[nr] && DirsOf(t.data[cur]) <= DIRS
    requires SharedTo(s, s', 16 * cur, 16 * nr, DirsOf(t.data[cur]), DirsOf(t.data[cur]))
    requires KeptOutside(s, s', TaskDirs(cur) + TaskDirs(nr))
    ensures MemCopied(s, s', cur, nr, DirsOf(t.data[cur]))
  {
    var n := DirsOf(t.data[cur]);
    SpaceInherited(s, s', t, cur, nr);
    RegionOnly(s, s', nr, 16 * nr, 16 * nr + n);
    assert SameSpace(s, s', cur);
    SameFramesReadOnly(s', cur, nr);
  }

  /** Every page of the child by the words of the page tables. */
  lemma PagesCopied(s: State, s': State, t: Tasks, cur: nat, nr: nat)
    requires Inv(s) && Inv(s') && KernelMapped(s) && TasksOk(s, t) && cur < NR_TASKS && 1 <= nr < NR_TASKS
    requires t.alive[cur] && !t.alive[nr] && EntriesCopied(s, s', cur, nr, DirsOf(t.data[cur]))
    requires SameOutside(s, s', 16 * nr, 16 * nr + DirsOf(t.data[cur]))
    ensures forall p: nat :: p < PAGES ==> PageCopied(s, s', cur, nr, p)
  {
    forall p: nat | p < PAGES ensures PageCopied(s, s', cur, nr, p) {
      var k, e := p / ENTRIES, p % ENTRIES;
      SixteenPlus(cur, k);
      SixteenPlus(nr, k);
      if k < DirsOf(t.data[cur]) {
        assert EntryCopied(s, s', 16 * cur, 16 * nr, k, e);
      } else {
        assert !HasDir(s, 16 * nr + k) && SameDir(s, s', 16 * nr + k);
        assert cur > 0 ==> !HasDir(s, 16 * cur + k);
      }
    }
  }

  /** The same from before the frame of the task structure was taken. */
  lemma PagesFrom(s0: State, s1: State, s2: State, cur: nat, nr: nat, f: nat)
    requires Inv(s0) && Inv(s1) && Inv(s2) && KernelMapped(s0) && KernelMapped(s1)
    requires cur < NR_TASKS && 1 <= nr < NR_TASKS && NoPage(s0, s1)
    requires LOW <= f < HIGH && s0.count[f - LOW] == 0 && s1 == Alloc(s0, f)
    requires forall p: nat :: p < PAGES ==> PageCopied(s1, s2, cur, nr, p)
    ensures forall p: nat :: p < PAGES ==> PageCopied(s0, s2, cur, nr, p)
    ensures cur == 0 ==> forall p: nat :: p < PAGES ==> PageLent(s2, nr, p)
  {
    NewTableWords(s0, s1, s1, f);
    forall p: nat | p < PAGES ensures PageCopied(s0, s2, cur, nr, p) {
      var d, e := 16 * cur + p / ENTRIES, p % ENTRIES;
      assert PageCopied(s1, s2, cur, nr, p);
      if cur > 0 {
        assert SameDir(s0, s1, d) && SamePage(s0, s1, d, e);
        if HasDir(s0, d) { SourceWord(s0, s1, d, e); }
      } else if p < 160 {
        SourceWord(s0, s1, 0, p);
      }
    }
    if cur == 0 {
      forall p: nat | p < PAGES ensures PageLent(s2, nr, p) {
        assert PageCopied(s0, s2, cur, nr, p);
        if p < 160 { assert WordAt(s0, 0, p) == Entry7(p); }
      }
    }
  }

  lemma NoPageSpaces(s: State, s': State)
    requires Inv(s) && Inv(s') && forall d, e :: Slot(d, e) ==> SamePage(s, s', d, e)
    ensures forall u :: 0 <= u < NR_TASKS ==> SameSpace(s, s', u)
  {
    forall u | 0 <= u < NR_TASKS ensures SameSpace(s, s', u) {
      if u == 0 { SpaceZero(s, s'); } else { SpaceUntouched(s, s', u); }
    }
  }

  lemma AllocKeepsSpace(s: State, s': State, u: nat)
    requires Inv(s) && Inv(s') && NoPage(s, s') && u < NR_TASKS
    ensures SameSpace(s, s', u)
  {
    NoPageSpaces(s, s');
  }

  lemma AllocThenCopy(s0: State, s1: State, s2: State, t: Tasks, nr: nat, n: nat)
    requires Inv(s0) && Inv(s1) && Inv(s2) && NoPage(s0, s1) && 1 <= nr < NR_TASKS && n <= DIRS
    requires SameOutside(s1, s2, 16 * nr, 16 * nr + n)
    ensures OthersSame(s0, s2, nr)
  {
    RegionOnly(s1, s2, nr, 16 * nr, 16 * nr + n);
    forall u | 0 <= u < NR_TASKS && u != nr ensures SameSpace(s0, s2, u) {
      AllocKeepsSpace(s0, s1, u);
      assert SameSpace(s1, s2, u);
    }
  }

  lemma CountBack(s0: State, s1: State, s2: State, s3: State, p: nat)
    requires Inv(s0) && Inv(s2) && LOW <= p < HIGH && s0.count[p - LOW] == 0
    requires s1 == Alloc(s0, p) && s2.count == s1.count && s3 == Release(s2, p)
    ensures s3.count == s0.count
  {
    assert s0.count[p - LOW := 1][p - LOW := 0] == s0.count;
  }

  lemma NothingForked(s: State, cur: nat, nr: nat)
    requires Inv(s) && nr < NR_TASKS
    ensures NotForked(s, s, cur, nr)
  {
  }

  lemma ForkFails(s0: State, s1: State, s2: State, s3: State, t: Tasks, cur: nat, nr: nat)
    requires Inv(s0) && Inv(s1) && Inv(s2) && Inv(s3) && NoPage(s0, s1) && NoPage(s2, s3)
    requires 1 <= nr < NR_TASKS && cur < NR_TASKS && TasksOk(s0, t) && !t.alive[nr] && s3.held == s0.held
    requires MemNotCopied(s1, s2, cur, nr, DirsOf(t.data[cur]))
    requires KeptOutside(s0, s1, {}) && KeptOutside(s2, s3, {}) && s3.count == s0.count
    ensures TasksOk(s3, t) && NotForked(s0, s3, cur, nr)
  {
    var n, X := DirsOf(t.data[cur]), TaskDirs(cur) + TaskDirs(nr);
    DirsGrow(t.data[cur], t.data[cur]);
    NoDirs(s0, t, nr);
    TablesBack(s0, s1, s2, s3, nr, n);
    TasksKept(s0, s3, t);
    AllocThenCopy(s0, s1, s2, t, nr, n);
    SpacesBack(s0, s2, s3, nr);
    KeptWider(s0, s1, {}, X);
    KeptTrans(s0, s1, s2, X);
    KeptWider(s2, s3, {}, X);
    KeptTrans(s0, s2, s3, X);
  }

  lemma TablesBack(s0: State, s1: State, s2: State, s3: State, nr: nat, n: nat)
    requires Inv(s0) && Inv(s1) && Inv(s2) && Inv(s3) && NoPage(s0, s1) && NoPage(s2, s3)
    requires SameOutside(s1, s2, 16 * nr, 16 * nr + n)
    requires forall d :: 16 * nr <= d < 16 * nr + n ==> !HasDir(s0, d) && !HasDir(s2, d)
    ensures forall d :: HasDir(s3, d) <==> HasDir(s0, d)
  {
    forall d ensures HasDir(s3, d) <==> HasDir(s0, d) {
      assert SameDir(s2, s3, d) && SameDir(s0, s1, d);
      if UserDir(d) && !(16 * nr <= d < 16 * nr + n) { assert SameDir(s1, s2, d); }
    }
  }

  lemma SpacesBack(s0: State, s2: State, s3: State, nr: nat)
    requires Inv(s0) && Inv(s2) && Inv(s3) && NoPage(s2, s3) && OthersSame(s0, s2, nr) && 1 <= nr < NR_TASKS
    requires forall d :: 16 * nr <= d < 16 * nr + 16 ==> !HasDir(s0, d)
    requires forall d :: HasDir(s3, d) <==> HasDir(s0, d)
    ensures forall u :: 0 <= u < NR_TASKS ==> SameSpace(s0, s3, u)
  {
    forall u | 0 <= u < NR_TASKS && u != nr ensures SameSpace(s0, s3, u) {
      assert SameSpace(s0, s2, u);
      AllocKeepsSpace(s2, s3, u);
    }
    SpaceEmpty(s0, nr);
    SpaceEmpty(s3, nr);
    forall p: nat | p < PAGES ensures !WritableAt(s3, nr, p) { PageSplit(nr, p); }
  }

  lemma ForkSucceeds(s0: State, s1: State, s2: State, t: Tasks, cur: nat, nr: nat, p: nat)
    requires Inv(s0) && Inv(s1) && Inv(s2) && NoPage(s0, s1) && KeptOutside(s0, s1, {}) && KernelMapped(s1)
    requires TasksOk(s0, t) && cur < NR_TASKS && t.alive[cur] && 1 <= nr < NR_TASKS && !t.alive[nr]
    requires p !in s0.held && s2.held == s0.held + {p} && p != 0 && FreeFrames(s1) == FreeFrames(s0) - 1
    requires MemCopied(s1, s2, cur, nr, DirsOf(t.data[cur]))
    ensures ForkedSpace(s0, s2, cur, nr) && TasksOk(s2, Forked(t, cur, nr, p))
  {
    var n, X := DirsOf(t.data[cur]), TaskDirs(cur) + TaskDirs(nr);
    DirsGrow(t.data[cur], t.data[cur]);
    AllocThenCopy(s0, s1, s2, t, nr, n);
    AllocKeepsSpace(s0, s1, cur);
    SourcesAre(s0, s1, t, cur);
    ForkedTables(s0, s1, s2, t, cur, nr, n);
    ForkedDirs(s0, s1, s2, t, nr, n);
    ForkedOk(s0, s2, t, cur, nr, p);
    KeptWider(s0, s1, {}, X);
    KeptTrans(s0, s1, s2, X);
  }

  lemma ForkedDirs(s0: State, s1: State, s2: State, t: Tasks, nr: nat, n: nat)
    requires Inv(s0) && Inv(s1) && Inv(s2) && NoPage(s0, s1) && SameOutside(s1, s2, 16 * nr, 16 * nr + n)
    ensures forall d :: HasDir(s2, d) && !(16 * nr <= d < 16 * nr + n) ==> HasDir(s0, d)
  {
    forall d | HasDir(s2, d) && !(16 * nr <= d < 16 * nr + n) ensures HasDir(s0, d) {
      assert SameDir(s0, s1, d) && SameDir(s1, s2, d);
    }
  }

  lemma ForkedOk(s0: State, s2: State, t: Tasks, cur: nat, nr: nat, p: nat)
    requires Inv(s0) && Inv(s2) && TasksOk(s0, t) && cur < NR_TASKS && t.alive[cur] && 1 <= nr < NR_TASKS
    requires p !in s0.held && s2.held == s0.held + {p} && p != 0
    requires forall d :: HasDir(s2, d) && !(16 * nr <= d < 16 * nr + DirsOf(t.data[cur])) ==> HasDir(s0, d)
    requires !t.alive[nr]
    ensures TasksOk(s2, Forked(t, cur, nr, p))
  {
    var t' := Forked(t, cur, nr, p);
    forall d | HasDir(s2, d) ensures t'.alive[d / DIRS] && d % DIRS < DirsOf(t'.data[d / DIRS]) {
      if 16 * nr <= d < 16 * nr + DirsOf(t.data[cur]) {
        SixteenPlus(nr, d - 16 * nr);
      } else {
        assert HasDir(s0, d);
      }
    }
  }

  ghost predicate VerifiedAt(s: State, address: nat)
    requires Inv(s)
  {
    Verified(s, address / 0x400000, address / 4096 % 1024)
  }

  /** A page is as it was, or a copy of the low frame it was. */
  ghost predicate CopyOf(v: View, v': View, mem: seq<Page>) {
    v' == v || (v.Low? && v.frame < |mem| && v' == Own(mem[v.frame]))
  }

  ghost predicate Privatized(s: State, s': State)
    requires Inv(s) && Inv(s')
  {
    && (forall d :: SameDir(s, s', d))
    && (forall d, e :: Slot(d, e) ==> CopyOf(PageView(s, d, e), PageView(s', d, e), s.mem))
  }

  lemma OnePrivatized(s: State, s': State, d: int, e: int)
    requires Inv(s) && Inv(s') && Mapped(s, d, e) && OnlyPage(s, s', d, e)
    requires PageView(s', d, e) == Privatize(s, d, e)
    requires Mapped(s', d, e) && Pte(s', d, e).rw
    ensures Privatized(s, s')
  {
    EntryBound(s, d, e);
    forall d', e' | Slot(d', e') ensures CopyOf(PageView(s, d', e'), PageView(s', d', e'), s.mem) {
      if !(d' == d && e' == e) { assert SamePage(s, s', d', e'); }
    }
  }

  lemma PrivatizedTrans(s0: State, s: State, s': State)
    requires Inv(s0) && Inv(s) && Inv(s') && Privatized(s0, s) && Privatized(s, s')
    requires SameKernel(s0, s) && s.mem[0] == s0.mem[0]
    ensures Privatized(s0, s')
  {
    forall d ensures SameDir(s0, s', d) { assert SameDir(s0, s, d) && SameDir(s, s', d); }
    forall d, e | Slot(d, e) ensures CopyOf(PageView(s0, d, e), PageView(s', d, e), s0.mem) {
      assert CopyOf(PageView(s0, d, e), PageView(s, d, e), s0.mem);
      assert CopyOf(PageView(s, d, e), PageView(s', d, e), s.mem);
      if PageView(s, d, e).Low? {
        assert PageView(s, d, e) == PageView(s0, d, e);
        assert s.mem[PageView(s, d, e).frame] == s0.mem[PageView(s, d, e).frame];
      }
    }
  }

  /** Task t reads the same word at every address. */
  ghost predicate SameReads(s: State, s': State, t: nat)
    requires Inv(s) && Inv(s') && t < NR_TASKS
  {
    forall p :: 0 <= p < PAGES ==> CopyOf(Space(s, t)[p], Space(s', t)[p], s.mem)
  }

  lemma PrivatizedReads(s: State, s': State, t: nat)
    requires Inv(s) && Inv(s') && t < NR_TASKS && Privatized(s, s')
    ensures SameReads(s, s', t)
  {
    forall p | 0 <= p < PAGES ensures CopyOf(Space(s, t)[p], Space(s', t)[p], s.mem) {
      PageSplit(t, p);
      if t >= 1 { assert CopyOf(PageView(s, DirOf(t, p), p % ENTRIES), PageView(s', DirOf(t, p), p % ENTRIES), s.mem); }
    }
  }

  lemma ExitedReads(s0: State, s: State, s': State, t: Tasks, t': Tasks, cur: nat)
    requires Inv(s0) && Inv(s) && Inv(s') && 1 <= cur < NR_TASKS && |t.alive| == NR_TASKS
    requires Privatized(s0, s) && Exited(s, s', t, t', cur)
    ensures forall u :: 0 <= u < NR_TASKS && u != cur ==> SameReads(s0, s', u)
  {
    forall u | 0 <= u < NR_TASKS && u != cur ensures SameReads(s0, s', u) {
      PrivatizedReads(s0, s, u);
      assert SameSpace(s, s', u);
    }
  }

  /** The k-th page of the area needs a frame when the pages before it have used up what there was. */
  ghost predicate FramesEnd(s: State, cur: nat, addr: nat, k: nat)
    requires Inv(s)
  {
    FreeFrames(s) <= k && !VerifiedAt(s, VerifyAddress(cur, addr, k))
  }

  lemma StillVerified(s: State, s': State, address: nat)
    requires Inv(s) && Inv(s') && Privatized(s, s') && KeptOutside(s, s', {})
    ensures VerifiedAt(s, address) ==> VerifiedAt(s', address)
  {
    var d, e := address / 0x400000, address / 4096 % 1024;
    if Slot(d, e) { assert BitsKept(s, s', d, e) && CopyOf(PageView(s, d, e), PageView(s', d, e), s.mem); }
  }

  /** What verify_area has done after k addresses; p is the page that comes next. */
  ghost predicate Sweep(s0: State, s: State, cur: nat, addr: nat, size: int, limit: nat, k: nat, p: nat)
    requires Inv(s0) && Inv(s) && cur < NR_TASKS
  {
    Swept(s0, s, cur, addr, k) && (InSegment(addr, size, limit) ==> Area(s0, s, cur, FirstPage(addr), p))
  }

  /** The part of it that holds for any area. */
  ghost predicate Swept(s0: State, s: State, cur: nat, addr: nat, k: nat)
    requires Inv(s0) && Inv(s) && cur < NR_TASKS
  {
    && SameKernel(s0, s) && s.held == s0.held && s.mem[0] == s0.mem[0] && Privatized(s0, s)
    && (forall j: nat :: j < k ==> VerifiedAt(s, VerifyAddress(cur, addr, j)))
    && KeptOutside(s0, s, {}) && FreeFrames(s) >= FreeFrames(s0) - k
  }

  lemma SweepStarts(s: State, cur: nat, addr: nat, size: int, limit: nat)
    requires Inv(s) && cur < NR_TASKS
    ensures Sweep(s, s, cur, addr, size, limit, 0, FirstPage(addr))
  {
    NoArea(s, cur, FirstPage(addr));
  }

  lemma SweepMore(s0: State, s: State, s': State, cur: nat, addr: nat, size: int, limit: nat, k: nat, p: nat,
                  k': nat, p': nat)
    requires k' == k + 1 && p' == p + 1
    requires Inv(s0) && Inv(s) && Inv(s') && 1 <= cur < NR_TASKS && Sweep(s0, s, cur, addr, size, limit, k, p)
    requires SameKernel(s, s') && s'.held == s.held && s'.mem[0] == s.mem[0] && Privatized(s, s')
    requires KeptOutside(s, s', {}) && FreeFrames(s') >= FreeFrames(s) - 1
    requires VerifiedAt(s', VerifyAddress(cur, addr, k))
    requires InSegment(addr, size, limit) ==> FirstPage(addr) <= p < PAGES && PageSecured(s, s', cur, p)
    ensures Sweep(s0, s', cur, addr, size, limit, k', p')
  {
    SweptMore(s0, s, s', cur, addr, k);
    if InSegment(addr, size, limit) { AreaSwept(s0, s, s', cur, FirstPage(addr), p, p'); }
  }

  lemma SweptMore(s0: State, s: State, s': State, cur: nat, addr: nat, k: nat)
    requires Inv(s0) && Inv(s) && Inv(s') && 1 <= cur < NR_TASKS && Swept(s0, s, cur, addr, k)
    requires SameKernel(s, s') && s'.held == s.held && s'.mem[0] == s.mem[0] && Privatized(s, s')
    requires KeptOutside(s, s', {}) && FreeFrames(s') >= FreeFrames(s) - 1
    requires VerifiedAt(s', VerifyAddress(cur, addr, k))
    ensures Swept(s0, s', cur, addr, k + 1)
  {
    PrivatizedTrans(s0, s, s');
    KeptTrans(s0, s, s', {});
    VerifiedMore(s, s', cur, addr, k);
  }

  lemma VerifiedMore(s: State, s': State, cur: nat, addr: nat, k: nat)
    requires Inv(s) && Inv(s') && Privatized(s, s') && KeptOutside(s, s', {})
    requires forall j: nat :: j < k ==> VerifiedAt(s, VerifyAddress(cur, addr, j))
    requires VerifiedAt(s', VerifyAddress(cur, addr, k))
    ensures forall j: nat :: j < k + 1 ==> VerifiedAt(s', VerifyAddress(cur, addr, j))
  {
    forall j: nat | j < k + 1 ensures VerifiedAt(s', VerifyAddress(cur, addr, j)) {
      StillVerified(s, s', VerifyAddress(cur, addr, j));
    }
  }

  lemma AreaSwept(s0: State, s: State, s': State, cur: nat, lo: nat, p: nat, p': nat)
    requires Inv(s0) && Inv(s) && Inv(s') && 1 <= cur < NR_TASKS && SameKernel(s0, s) && s.mem[0] == s0.mem[0]
    requires lo <= p < PAGES && p' == p + 1 && Area(s0, s, cur, lo, p) && PageSecured(s, s', cur, p)
    ensures Area(s0, s', cur, lo, p')
  {
    LowSame(s0, s);
    AreaMore(s0, s, s', cur, lo, p);
  }

  lemma NeedyAddress(s: State, cur: nat, addr: nat, size: int, limit: nat, k: nat, p: nat)
    requires Inv(s) && 1 <= cur < NR_TASKS && limit <= 0x4000000 && p == FirstPage(addr) + k
    requires InSegment(addr, size, limit) && 4096 * k < addr % 4096 + size && NeedyAt(s, VerifyAddress(cur, addr, k))
    ensures FirstPage(addr) <= p < AreaEnd(addr, size) <= PAGES && NeedyPage(s, cur, p)
  {
    AreaAddress(cur, addr, size, limit, k);
  }

  /** The turn was for page p of task t. */
  ghost predicate PageSecured(s: State, s': State, t: nat, p: nat)
    requires Inv(s) && Inv(s')
  {
    Secured(s, s', DirOf(t, p), p % ENTRIES)
  }

  lemma SecuredPage(s: State, s': State, cur: nat, addr: nat, size: int, limit: nat, k: nat, p: nat)
    requires Inv(s) && Inv(s') && 1 <= cur < NR_TASKS && limit <= 0x4000000 && 4096 * k < addr % 4096 + size
    requires SecuredAt(s, s', VerifyAddress(cur, addr, k)) && p == FirstPage(addr) + k
    ensures KeptOutside(s, s', {}) && FreeFrames(s') >= FreeFrames(s) - 1
    ensures InSegment(addr, size, limit) ==> FirstPage(addr) <= p < PAGES && PageSecured(s, s', cur, p)
  {
    if InSegment(addr, size, limit) { AreaAddress(cur, addr, size, limit, k); }
  }

  lemma LowSame(s: State, s': State)
    requires Inv(s) && Inv(s') && SameKernel(s, s') && s'.mem[0] == s.mem[0]
    ensures forall f :: 0 <= f < LOW ==> s'.mem[f] == s.mem[f]
  {
  }

  lemma SweepEnds(s0: State, s: State, cur: nat, addr: nat, size: int, limit: nat, k: nat, p: nat)
    requires Inv(s0) && Inv(s) && cur < NR_TASKS && Sweep(s0, s, cur, addr, size, limit, k, p) && limit <= 0x4000000
    requires p == FirstPage(addr) + k
    requires InSegment(addr, size, limit) ==>
      addr % 4096 + size <= 4096 * k && (k > 0 ==> 4096 * (k - 1) < addr % 4096 + size)
    ensures InSegment(addr, size, limit) ==> Area(s0, s, cur, FirstPage(addr), AreaEnd(addr, size))
    ensures InSegment(addr, size, limit) ==> FreeFrames(s0) >= |Needy(s0, cur, FirstPage(addr), AreaEnd(addr, size))|
  {
    if InSegment(addr, size, limit) {
      AreaEnds(addr, size, k);
      AreaTook(s0, s, cur, FirstPage(addr), p, AreaEnd(addr, size));
    }
  }

  lemma AreaTook(s0: State, s: State, cur: nat, lo: nat, p: nat, hi: nat)
    requires Inv(s0) && Inv(s) && cur < NR_TASKS && p == hi && Area(s0, s, cur, lo, p)
    ensures Area(s0, s, cur, lo, hi) && FreeFrames(s0) >= |Needy(s0, cur, lo, hi)|
  {
  }

  /** The task ended at the k-th address, for want of a frame. */
  ghost predicate SweepFailed(s0: State, s: State, t: Tasks, t': Tasks, cur: nat, addr: nat, size: int, k: nat)
    requires Inv(s0) && Inv(s) && 1 <= cur < NR_TASKS && |t.alive| == |t.data| == NR_TASKS
  {
    && t' == t.(alive := t.alive[cur := false]) && Space(s, cur) == NoSpace() && FramesEnd(s0, cur, addr, k)
    && (forall u :: 0 <= u < NR_TASKS && u != cur ==> SameReads(s0, s, u))
    && (InSegment(addr, size, t.data[cur]) ==> AreaFailed(s0, s, t, t', cur, addr, size))
  }

  /** For an area inside the segment: there were too few frames, and all went back. */
  ghost predicate AreaFailed(s0: State, s: State, t: Tasks, t': Tasks, cur: nat, addr: nat, size: int)
    requires Inv(s0) && Inv(s) && 1 <= cur < NR_TASKS && |t.alive| == NR_TASKS && size >= 0
  {
    && FreeFrames(s0) < |Needy(s0, cur, FirstPage(addr), AreaEnd(addr, size))|
    && Exited(s0, s, t, t', cur) && GaveBack(s0, s, cur)
  }

  lemma SweepFails(s0: State, s: State, s': State, t: Tasks, t': Tasks, cur: nat, addr: nat, size: int, k: nat, p: nat)
    requires Inv(s0) && Inv(s) && Inv(s') && TasksOk(s0, t) && 1 <= cur < NR_TASKS
    requires Sweep(s0, s, cur, addr, size, t.data[cur], k, p) && 4096 * k < addr % 4096 + size
    requires Exited(s, s', t, t', cur) && EndedShort(s, s', cur) && FreeFrames(s) == 0 && p == FirstPage(addr) + k
    requires NeedyAt(s, VerifyAddress(cur, addr, k)) && !VerifiedAt(s, VerifyAddress(cur, addr, k))
    ensures SweepFailed(s0, s', t, t', cur, addr, size, k)
  {
    ExitedReads(s0, s, s', t, t', cur);
    StillVerified(s0, s, VerifyAddress(cur, addr, k));
    if InSegment(addr, size, t.data[cur]) {
      NeedyAddress(s, cur, addr, size, t.data[cur], k, p);
      AreaFails(s0, s, s', t, t', cur, addr, size, p);
    }
  }

  lemma AreaFails(s0: State, s: State, s': State, t: Tasks, t': Tasks, cur: nat, addr: nat, size: int, p: nat)
    requires Inv(s0) && Inv(s) && Inv(s') && 1 <= cur < NR_TASKS && |t.alive| == NR_TASKS && size >= 0
    requires FirstPage(addr) <= p < AreaEnd(addr, size) <= PAGES
    requires Area(s0, s, cur, FirstPage(addr), p) && NeedyPage(s, cur, p)
    requires Exited(s, s', t, t', cur) && EndedShort(s, s', cur) && FreeFrames(s) == 0
    ensures AreaFailed(s0, s', t, t', cur, addr, size)
  {
    NeedyMissing(s0, s, cur, FirstPage(addr), p, AreaEnd(addr, size));
    AreaExit(s0, s, s', t, t', cur, FirstPage(addr), p);
  }

  /** There were fewer frames than pages of the area that need one. */
  lemma NeedyMissing(s0: State, s: State, cur: nat, lo: nat, p: nat, hi: nat)
    requires Inv(s0) && Inv(s) && cur < NR_TASKS && lo <= p < hi <= PAGES
    requires Area(s0, s, cur, lo, p) && FreeFrames(s) == 0 && NeedyPage(s, cur, p)
    ensures FreeFrames(s0) < |Needy(s0, cur, lo, hi)|
  {
    NeedySplit(s0, cur, lo, p, hi);
    assert p in Needy(s0, cur, p, hi);
  }

  /** The task gave back what it had at the start, since what it took in between had become its own. */
  lemma AreaExit(s0: State, s: State, s': State, t: Tasks, t': Tasks, cur: nat, lo: nat, p: nat)
    requires Inv(s0) && Inv(s) && Inv(s') && 1 <= cur < NR_TASKS && |t.alive| == NR_TASKS
    requires Area(s0, s, cur, lo, p) && Exited(s, s', t, t', cur) && EndedShort(s, s', cur) && FreeFrames(s) == 0
    ensures Exited(s0, s', t, t', cur) && GaveBack(s0, s', cur)
  {
    OthersTrans(s0, s, s', cur);
    KeptWider(s0, s, {}, TaskDirs(cur));
    KeptTrans(s0, s, s', TaskDirs(cur));
    forall d ensures HasDir(s', d) <==> HasDir(s0, d) && d / DIRS != cur { assert SameDir(s0, s, d); }
  }

  /** The kernel may store at this entry: it is absent, or it is writable already. */
  ghost predicate Verified(s: State, d: int, e: int)
    requires Inv(s)
  {
    Mapped(s, d, e) ==> Pte(s, d, e).rw
  }

  lemma InLimit(data: nat, p: nat)
    requires p * 4096 + 4096 <= data <= 0x4000000
    ensures p < PAGES && p / ENTRIES < DirsOf(data)
  {
  }

  /** A writable page is seen through its own frame, before and after. */
  lemma WritableIsPaged(s: State, d: int, e: int)
    requires Inv(s) && Mapped(s, d, e) && Pte(s, d, e).rw
    ensures PageView(s, d, e) == Privatize(s, d, e)
  {
    EntryBound(s, d, e);
  }

  lemma DirsKept(s: State, s': State, t: Tasks)
    requires Inv(s) && Inv(s') && TasksOk(s, t) && s.held == s'.held && forall d :: SameDir(s, s', d)
    ensures TasksOk(s', t)
  {
    forall d | HasDir(s', d) ensures HasDir(s, d) { assert SameDir(s, s', d); }
    TasksKept(s, s', t);
  }

  /** s1 made the page present, private and writable; s2 stored the word. */
  lemma StoredPage(s0: State, s1: State, s2: State, t: nat, p: nat, i: nat, w: Word)
    requires Inv(s0) && Inv(s1) && Inv(s2) && 1 <= t < NR_TASKS && p < PAGES && i < ENTRIES
    requires var d, e := DirOf(t, p), p % ENTRIES;
      && Slot(d, e)
      && OtherPagesSame(s0, s1, d, e)
      && PageView(s1, d, e) == (if Mapped(s0, d, e) then Privatize(s0, d, e) else Own(ZeroPage()))
      && OnlyPage(s1, s2, d, e)
      && PageView(s2, d, e) == Own(PageView(s1, d, e).page[i := w])
    ensures OthersSame(s0, s2, t)
    ensures WroteWord(s0, s2, t, p, i, w)
  {
    var d, e := DirOf(t, p), p % ENTRIES;
    PageSplit(t, p);
    PagesFullSize(s0, t, p);
    forall d', e' | Slot(d', e') && !(d' == d && e' == e) ensures SamePage(s0, s2, d', e') {
      assert SamePage(s0, s1, d', e') && SamePage(s1, s2, d', e');
    }
    SpaceUpdated(s0, s2, t, p);
    if Mapped(s0, d, e) { EntryBound(s0, d, e); }
  }

  lemma ExitedPages(s0: State, s1: State, s2: State, t: Tasks, cur: nat)
    requires Inv(s0) && Inv(s1) && Inv(s2) && TasksOk(s0, t) && 1 <= cur < NR_TASKS
    requires s0.held == s1.held == s2.held
    requires SegmentFreed(s0, s1, cur, DirsOf(t.code[cur])) && SegmentFreed(s1, s2, cur, DirsOf(t.data[cur]))
    ensures OthersSame(s0, s2, cur) && Space(s2, cur) == NoSpace() && Frames(s2, cur) == NoFrames()
    ensures forall d :: HasDir(s2, d) ==> HasDir(s0, d) && d / DIRS != cur
  {
    SameOutsideTrans(s0, s1, s2, 16 * cur, 16 * cur + DirsOf(t.data[cur]));
    RegionOnly(s0, s2, cur, 16 * cur, 16 * cur + DirsOf(t.data[cur]));
    forall d | HasDir(s2, d) ensures HasDir(s0, d) && d / DIRS != cur {
      assert !(16 * cur <= d < 16 * cur + DirsOf(t.data[cur]));
      assert SameDir(s0, s2, d);
    }
    SpaceEmpty(s2, cur);
  }

  /** The tasks fit any state that has no new directory and holds at least the same frames. */
  lemma TasksKept(s: State, s': State, t: Tasks)
    requires Shape(s) && Shape(s') && TasksOk(s, t) && s.held <= s'.held
    requires forall d :: HasDir(s', d) ==> HasDir(s, d)
    ensures TasksOk(s', t)
  {
  }

  lemma FreshIsZero(s0: State, s1: State, d: int, e: int, f: nat)
    requires Inv(s0) && Inv(s1) && Slot(d, e) && !Mapped(s0, d, e) && LOW <= f < HIGH
    requires s1 == Alloc(s0, f) && NoPage(s0, s1)
    ensures !Mapped(s1, d, e) && s1.mem[f] == ZeroPage() && (HasDir(s1, d) <==> HasDir(s0, d))
  {
    assert SamePage(s0, s1, d, e) && SameDir(s0, s1, d);
  }

  lemma FreeAfterAlloc(s0: State, s1: State, f: nat)
    requires |s0.count| == PAGING_PAGES && LOW <= f < HIGH && s0.count[f - LOW] == 0
    requires Shape(s0) && s1 == Alloc(s0, f)
    ensures !NoneFree(s0)
    ensures !NoneFree(s1) <==> TwoFree(s0)
  {
    if !NoneFree(s1) {
      var i :| 0 <= i < |s1.count| && s1.count[i] == 0;
      assert s0.count[i] == 0 && i != f - LOW;
      if i < f - LOW { assert TwoFree(s0); } else { assert TwoFree(s0); }
    }
    if TwoFree(s0) {
      var i, j :| 0 <= i < j < |s0.count| && s0.count[i] == 0 && s0.count[j] == 0;
      if i == f - LOW { assert s1.count[j] == 0; } else { assert s1.count[i] == 0; }
    }
  }

  lemma AfterPutPage(s0: State, s1: State, s2: State, t: Tasks, d: int, e: int)
    requires Inv(s0) && Inv(s1) && Inv(s2) && Slot(d, e) && NoPage(s0, s1)
    requires TasksOk(s0, t) && s0.held <= s2.held && t.alive[d / DIRS] && d % DIRS < DirsOf(t.data[d / DIRS])
    requires forall d' :: d' != d ==> SameDir(s1, s2, d')
    requires forall d', e' :: Slot(d', e') && !(d' == d && e' == e) ==> SamePage(s1, s2, d', e')
    ensures TasksOk(s2, t) && OtherPagesSame(s0, s2, d, e)
  {
    forall d', e' | Slot(d', e') && !(d' == d && e' == e) ensures SamePage(s0, s2, d', e') {
      assert SamePage(s0, s1, d', e') && SamePage(s1, s2, d', e');
    }
    forall d' | HasDir(s2, d') ensures t.alive[d' / DIRS] && d' % DIRS < DirsOf(t.data[d' / DIRS]) {
      if d' != d { assert SameDir(s0, s1, d') && SameDir(s1, s2, d'); }
    }
  }

  lemma AfterStore(s0: State, s1: State, s2: State, d: int, e: int)
    requires Inv(s0) && Inv(s1) && Inv(s2) && OnlyPage(s1, s2, d, e) && KeptOutside(s1, s2, {}) && Writable(s1, d, e)
    requires FreeFrames(s2) == FreeFrames(s1) && FrameAt(s2, d, e) == FrameAt(s1, d, e)
    ensures Writable(s2, d, e)
    ensures forall n: nat :: Took(s0, s1, d, e, n) ==> Took(s0, s2, d, e, n)
  {
    assert BitsKept(s1, s2, d, e);
    forall n: nat | Took(s0, s1, d, e, n) ensures Took(s0, s2, d, e, n) {
      TookThenKept(s0, s1, s2, d, e, n);
    }
  }

  lemma NothingSecured(s: State, d: int, e: int)
    requires Inv(s)
    ensures !Mapped(s, d, e) || Pte(s, d, e).rw ==> Secured(s, s, d, e)
  {
    if Mapped(s, d, e) && Pte(s, d, e).rw { WritableIsPaged(s, d, e); }
  }

  lemma SecuredBy(s: State, s': State, d: int, e: int)
    requires Inv(s) && Inv(s') && Mapped(s, d, e) && OnlyPage(s, s', d, e)
    requires Took(s, s', d, e, VerifyNeeds(s, d, e)) && NoNewBut(s, s', d, e) && NoneFreed(s, s')
    requires Pte(s', d, e).rw && PageView(s', d, e) == Privatize(s, d, e)
    ensures Secured(s, s', d, e)
  {
  }

  lemma TookByPutPage(s0: State, s1: State, s2: State, d: int, e: int, f: nat)
    requires Inv(s0) && Inv(s1) && Inv(s2) && Slot(d, e) && !Mapped(s0, d, e) && Mapped(s2, d, e)
    requires OtherPagesSame(s0, s2, d, e) && FrameAt(s2, d, e) == f && Unused(s0, f)
    requires (forall d' :: SameDir(s0, s1, d')) && OtherTablesSame(s1, s2, d)
    requires KeptOutside(s0, s1, {}) && KeptOutside(s1, s2, {})
    requires FreeFrames(s1) == FreeFrames(s0) - 1 && FreeFrames(s2) == FreeFrames(s1) - One(!HasDir(s1, d))
    ensures Took(s0, s2, d, e, LoadNeeds(s0, d, e))
  {
    KeptTrans(s0, s1, s2, {});
    assert SameDir(s0, s1, d);
    forall d' | d' != d ensures SameDir(s0, s2, d') {
      assert SameDir(s0, s1, d') && SameDir(s1, s2, d');
    }
  }

  lemma ExitedLater(s0: State, s1: State, s2: State, t: Tasks, t': Tasks, cur: nat)
    requires Inv(s0) && Inv(s1) && Inv(s2) && 1 <= cur < NR_TASKS && |t.alive| == NR_TASKS
    requires s1 == s0 || NoPage(s0, s1)
    requires Exited(s1, s2, t, t', cur)
    ensures Exited(s0, s2, t, t', cur)
  {
    forall u | 0 <= u < NR_TASKS && u != cur ensures SameSpace(s0, s2, u) {
      assert SameSpace(s1, s2, u);
      if s1 != s0 { AllocKeepsSpace(s0, s1, u); }
    }
  }
}
