/** The paging code makes only steps of the machine: whole runs of fork, faults, verify_area, system-call
    stores, exec and exits. */
module PagingRuns {
  import opened PagingState
  import opened PagingSteps
  import opened PagingCounts
  import opened Paging
  import opened PagingMachine
  import opened TaskSpaces
  import opened TaskFrames
  import opened TaskMemory

  /** The frames that the kernel has grabbed: it holds them, and they are no task structures. */
  ghost predicate HandlesOk(s: State, t: Tasks, h: set<nat>)
    requires Inv(s)
  {
    forall f :: f in h ==> f in s.held && f !in t.slot
  }

  ghost function TableSet(s: State, u: nat): set<nat>
    requires Inv(s)
  {
    set k: nat | k < DIRS && TableAt(s, u, k)
  }

  ghost predicate AloneAt(s: State, u: nat, p: nat)
    requires Inv(s)
  {
    Alone(s, DirOf(u, p), p % ENTRIES)
  }

  ghost function RwSet(s: State, u: nat): set<nat>
    requires Inv(s)
  {
    set p: nat | p < PAGES && WritableAt(s, u, p)
  }

  ghost function AloneSet(s: State, u: nat): set<nat>
    requires Inv(s)
  {
    set p: nat | p < PAGES && AloneAt(s, u, p)
  }

  ghost function KeptPages(s: State, h: set<nat>): map<nat, Page>
    requires Shape(s)
  {
    map f | f in h && f < HIGH :: s.mem[f]
  }

  ghost function AbsOf(s: State, t: Tasks, h: set<nat>): (a: Abs)
    requires Inv(s) && TasksOk(s, t) && HandlesOk(s, t, h)
    ensures WellFormed(a)
  {
    AbsPages(s, t, h);
    AbsRaw(s, t, h)
  }

  ghost function AbsRaw(s: State, t: Tasks, h: set<nat>): (a: Abs)
    requires Inv(s) && TasksOk(s, t)
    ensures Sized(a)
  {
    Abs(seq(NR_TASKS, u requires 0 <= u < NR_TASKS => Space(s, u)),
        seq(NR_TASKS, u requires 0 <= u < NR_TASKS => TableSet(s, u)),
        seq(NR_TASKS, u requires 0 <= u < NR_TASKS => Frames(s, u)),
        seq(NR_TASKS, u requires 0 <= u < NR_TASKS => RwSet(s, u)),
        t.alive, seq(NR_TASKS, u requires 0 <= u < NR_TASKS => t.slot[u] != 0), t.data,
        KeptPages(s, h), s.mem[..LOW], FreeFrames(s))
  }

  lemma AbsPages(s: State, t: Tasks, h: set<nat>)
    requires Inv(s) && TasksOk(s, t) && HandlesOk(s, t, h)
    ensures WellFormed(AbsRaw(s, t, h))
  {
    var a := AbsRaw(s, t, h);
    forall u, p | 0 <= u < NR_TASKS && 0 <= p < PAGES ensures PageOk(a.spaces[u][p]) && FrameOk(a, u, p) {
      PagesFullSize(s, u, p);
      FrameFits(s, t, h, u, p);
    }
    forall u | 0 <= u < NR_TASKS ensures a.rw[u] <= AlonePages(a, u) {
      AloneAre(s, t, h, u);
      assert RwSet(s, u) <= AloneSet(s, u);
    }
    ZeroLends(s, t, h);
  }

  /** The memory of task 0, in numbers: page p is frame p of the low memory. */
  lemma ZeroLends(s: State, t: Tasks, h: set<nat>)
    requires Inv(s) && TasksOk(s, t)
    ensures forall p :: 0 <= p < 16384 ==> AbsRaw(s, t, h).spaces[0][p] == if p < 160 then Low(p) else Absent
  {
    forall p | 0 <= p < 16384 ensures Space(s, 0)[p] == if p < 160 then Low(p) else Absent { PageSplit(0, p); }
  }

  lemma FrameFits(s: State, t: Tasks, h: set<nat>, u: nat, p: nat)
    requires Inv(s) && TasksOk(s, t) && HandlesOk(s, t, h) && u < NR_TASKS && p < PAGES
    ensures FrameOk(AbsRaw(s, t, h), u, p)
  {
    PageSplit(u, p);
    if u > 0 && Mapped(s, DirOf(u, p), p % ENTRIES) {
      EntryBound(s, DirOf(u, p), p % ENTRIES);
      DataFrameIsNotHeld(s, DirOf(u, p), p % ENTRIES);
    }
  }

  // ---------------------------------------------------------------- who shares a frame

  lemma FrameIs(s: State, u: nat, p: nat)
    requires Inv(s) && 1 <= u < NR_TASKS && p < PAGES
    ensures Frames(s, u)[p] == FrameAt(s, DirOf(u, p), p % ENTRIES)
  {
    PageSplit(u, p);
  }

  /** Every entry is a page of some task. */
  lemma PageOfEntry(s: State, d: int, e: int) returns (u: nat, q: nat)
    requires Inv(s) && Slot(d, e)
    ensures 1 <= u < NR_TASKS && q < PAGES && d == DirOf(u, q) && e == q % ENTRIES
  {
    u, q := d / DIRS, d % DIRS * ENTRIES + e;
  }

  /** A frame with no other page on it is counted once. */
  lemma AloneByCount(s: State, t: Tasks, h: set<nat>, u: nat, p: nat)
    requires Inv(s) && TasksOk(s, t) && 1 <= u < NR_TASKS && p < PAGES
    ensures AloneAt(s, u, p) ==> IsAlone(AbsRaw(s, t, h), u, p)
  {
    var a, d, e := AbsRaw(s, t, h), DirOf(u, p), p % ENTRIES;
    if AloneAt(s, u, p) {
      FrameIs(s, u, p);
      SoleOwner(s, d, e);
      var f := Pte(s, d, e).frame;
      forall u2: nat, q: nat | u2 < NR_TASKS && q < PAGES && OnFrame(a, u2, q, f) ensures u2 == u && q == p {
        if u2 > 0 {
          FrameIs(s, u2, q);
          assert MappedTo(s, DirOf(u2, q), q % ENTRIES, f);
          assert (DirOf(u2, q), q % ENTRIES) in Refs(s, f);
          SamePageNumber(u, p, u2, q);
        }
      }
    }
  }

  lemma SamePageNumber(u: nat, p: nat, u2: nat, q: nat)
    requires p < PAGES && q < PAGES && DirOf(u, p) == DirOf(u2, q) && p % ENTRIES == q % ENTRIES
    ensures u == u2 && p == q
  {
    PageSplit(u, p);
    PageSplit(u2, q);
  }

  lemma CountByAlone(s: State, t: Tasks, h: set<nat>, u: nat, p: nat)
    requires Inv(s) && TasksOk(s, t) && 1 <= u < NR_TASKS && p < PAGES
    ensures IsAlone(AbsRaw(s, t, h), u, p) ==> AloneAt(s, u, p)
  {
    var a, d, e := AbsRaw(s, t, h), DirOf(u, p), p % ENTRIES;
    FrameIs(s, u, p);
    if IsAlone(a, u, p) {
      var f := Pte(s, d, e).frame;
      forall x | x in Refs(s, f) ensures x == (d, e) {
        var u2, q := PageOfEntry(s, x.0, x.1);
        FrameIs(s, u2, q);
        assert OnFrame(a, u2, q, f);
      }
      assert (d, e) in Refs(s, f);
      assert Refs(s, f) == {(d, e)};
      OnlyOwner(s, d, e, f);
    }
  }

  lemma OnlyOwner(s: State, d: int, e: int, f: nat)
    requires Inv(s) && LOW <= f < HIGH && MappedTo(s, d, e, f) && Refs(s, f) == {(d, e)}
    ensures s.count[f - LOW] == 1
  {
    DataFrameIsNotHeld(s, d, e);
    forall d' ensures d' !in DirRefs(s, f) {
      if HasDir(s, d') { DataFrameIsNoTable(s, d, e, d'); }
    }
    assert DirRefs(s, f) == {};
    assert |Refs(s, f)| == 1 && s.count[f - LOW] == Owners(s, f);
  }

  /** The pages that share no frame, by the frames behind all pages and by mem_map. */
  lemma AloneAre(s: State, t: Tasks, h: set<nat>, u: nat)
    requires Inv(s) && TasksOk(s, t) && u < NR_TASKS
    ensures AlonePages(AbsRaw(s, t, h), u) == AloneSet(s, u)
  {
    forall p: nat | p < PAGES ensures AloneAt(s, u, p) <==> IsAlone(AbsRaw(s, t, h), u, p) {
      if u > 0 {
        AloneByCount(s, t, h, u, p);
        CountByAlone(s, t, h, u, p);
      } else {
        PageSplit(0, p);
      }
    }
  }

  lemma UnusedIsFresh(s: State, t: Tasks, h: set<nat>, f: int)
    requires Inv(s) && TasksOk(s, t) && HandlesOk(s, t, h) && Unused(s, f)
    ensures Fresh(AbsOf(s, t, h), f)
  {
    var a := AbsOf(s, t, h);
    forall u: nat, q: nat | u < NR_TASKS && q < PAGES ensures !OnFrame(a, u, q, f) {
      if u > 0 {
        FrameIs(s, u, q);
        if Mapped(s, DirOf(u, q), q % ENTRIES) && FrameAt(s, DirOf(u, q), q % ENTRIES) == f {
          MappedIsCounted(s, DirOf(u, q), q % ENTRIES);
        }
      }
    }
  }

  // ---------------------------------------------------------------- one task's sets

  /** A set of numbers and the same set moved up by c. */
  lemma {:induction false} ShiftCard(A: set<int>, B: set<int>, c: int)
    requires forall x :: x in A ==> x - c in B
    requires forall y :: y in B ==> y + c in A
    ensures |A| == |B|
  {
    if x :| x in A {
      ShiftCard(A - {x}, B - {x - c}, c);
    } else {
      var none: set<int> := {};
      forall y ensures y !in B && y !in A { assert y in B ==> y + c in A; }
      assert forall x :: (x in A <==> x in none) && (x in B <==> x in none);
      assert A == none && B == none;
    }
  }

  lemma TablesAre(s: State, u: nat)
    requires Inv(s) && 1 <= u < NR_TASKS
    ensures |TablesIn(s, DIRS * u, DIRS * u + DIRS)| == |TableSet(s, u)|
  {
    ShiftCard(TablesIn(s, DIRS * u, DIRS * u + DIRS), TableSet(s, u), DIRS * u);
  }

  lemma AloneNumbers(s: State, u: nat)
    requires Inv(s) && 1 <= u < NR_TASKS
    ensures |AloneNos(s, PAGES * u, PAGES * u + PAGES)| == |AloneSet(s, u)|
  {
    forall n | PAGES * u <= n < PAGES * u + PAGES ensures AloneNo(s, n) <==> AloneAt(s, u, n - PAGES * u) {
      NumberOfPage(u, n);
    }
    forall p: nat | p < PAGES ensures AloneNo(s, p + PAGES * u) <==> AloneAt(s, u, p) {
      NumberOfPage(u, p + PAGES * u);
    }
    ShiftCard(AloneNos(s, PAGES * u, PAGES * u + PAGES), AloneSet(s, u), PAGES * u);
  }

  /** What a task has for itself, by page tables and frames and by sets of pages. */
  lemma GivenIsShare(s: State, t: Tasks, h: set<nat>, u: nat)
    requires Inv(s) && TasksOk(s, t) && HandlesOk(s, t, h) && 1 <= u < NR_TASKS
    ensures Given(s, u) == GivenBack(AbsOf(s, t, h), u)
  {
    TablesAre(s, u);
    AloneNumbers(s, u);
    AloneAre(s, t, h, u);
    assert ENTRIES * (DIRS * u) == PAGES * u && ENTRIES * (DIRS * u + DIRS) == PAGES * u + PAGES;
  }

  lemma NumberOfPage(u: nat, n: nat)
    requires PAGES * u <= n < PAGES * u + PAGES
    ensures n / ENTRIES == DirOf(u, n - PAGES * u) && n % ENTRIES == (n - PAGES * u) % ENTRIES
  {
    var p := n - PAGES * u;
    assert n == ENTRIES * (DIRS * u + p / ENTRIES) + p % ENTRIES;
  }

  lemma TableOfPage(s: State, u: nat, p: nat)
    requires Inv(s) && 1 <= u < NR_TASKS && p < PAGES
    ensures p / ENTRIES in TableSet(s, u) <==> HasDir(s, DirOf(u, p))
  {
  }

  lemma CostsAre(s: State, t: Tasks, h: set<nat>, u: nat, p: nat)
    requires Inv(s) && TasksOk(s, t) && HandlesOk(s, t, h) && 1 <= u < NR_TASKS && p < PAGES
    ensures LoadNeeds(s, DirOf(u, p), p % ENTRIES) == LoadCost(AbsOf(s, t, h), u, p)
    ensures VerifyNeeds(s, DirOf(u, p), p % ENTRIES) == VerifyCost(AbsOf(s, t, h), u, p)
    ensures PageAt(AbsOf(s, t, h), u, p).Absent? <==> !Mapped(s, DirOf(u, p), p % ENTRIES)
  {
    PageSplit(u, p);
    TableOfPage(s, u, p);
    AloneAre(s, t, h, u);
    assert p in AloneSet(s, u) <==> AloneAt(s, u, p);
    assert Space(s, u)[p] == PageView(s, DirOf(u, p), p % ENTRIES);
  }

  lemma NoTables(s: State, u: nat)
    requires Inv(s) && 1 <= u < NR_TASKS && forall d :: HasDir(s, d) ==> d / DIRS != u
    ensures TableSet(s, u) == {} && RwSet(s, u) == {} && AloneSet(s, u) == {}
  {
    forall k: nat | k < DIRS ensures !TableAt(s, u, k) { SixteenPlus(u, k); }
    forall p: nat | p < PAGES ensures !WritableAt(s, u, p) && !AloneAt(s, u, p) { PageSplit(u, p); }
  }

  // ---------------------------------------------------------------- the other tasks

  lemma RightsKept(s: State, s': State, u: nat, dirs: set<int>)
    requires Inv(s) && Inv(s') && KeptOutside(s, s', dirs) && u < NR_TASKS
    requires forall d :: DIRS * u <= d < DIRS * u + DIRS ==> d !in dirs
    ensures RwSet(s, u) <= RwSet(s', u)
    ensures NoGain(s, s', u) ==> RwSet(s', u) == RwSet(s, u)
  {
    forall p: nat | p < PAGES ensures WritableAt(s, u, p) ==> WritableAt(s', u, p) {
      PageSplit(u, p);
      var d, e := DirOf(u, p), p % ENTRIES;
      if Slot(d, e) { assert BitsKept(s, s', d, e); }
    }
  }

  lemma TaskZero(s: State)
    requires Inv(s)
    ensures TableSet(s, 0) == {0} && RwSet(s, 0) == {}
  {
    forall p: nat | p < PAGES ensures !WritableAt(s, 0, p) { PageSplit(0, p); }
  }

  lemma TablesKept(s: State, s': State, u: nat)
    requires Inv(s) && Inv(s')
    requires forall d :: d / DIRS == u ==> (HasDir(s', d) <==> HasDir(s, d))
    ensures TableSet(s', u) == TableSet(s, u)
  {
    forall k: nat | k < DIRS ensures TableAt(s', u, k) <==> TableAt(s, u, k) { SixteenPlus(u, k); }
  }

  lemma OthersKeptBy(s: State, t: Tasks, h: set<nat>, s': State, t': Tasks, h': set<nat>, cur: nat, v: nat)
    requires Inv(s) && Inv(s') && TasksOk(s, t) && TasksOk(s', t') && HandlesOk(s, t, h) && HandlesOk(s', t', h')
    requires OthersSame(s, s', cur) && KeptOutside(s, s', TaskDirs(cur) + TaskDirs(v))
    requires forall d :: d / DIRS != cur ==> (HasDir(s', d) <==> HasDir(s, d))
    ensures OthersKept(AbsOf(s, t, h), AbsOf(s', t', h'), cur, v)
  {
    var a, a' := AbsOf(s, t, h), AbsOf(s', t', h');
    TaskZero(s);
    TaskZero(s');
    SpaceZero(s, s');
    forall u | 0 <= u < NR_TASKS && (u == 0 || u != cur) ensures SameMemory(a, a', u) {
      if u > 0 {
        assert SameSpace(s, s', u);
        TablesKept(s, s', u);
      }
    }
    forall u | 0 <= u < NR_TASKS && (u == 0 || (u != cur && u != v)) ensures a'.rw[u] == a.rw[u] {
      if u > 0 {
        OtherDirs(u, cur, v);
        assert SameSpace(s, s', u);
        RightsKept(s, s', u, TaskDirs(cur) + TaskDirs(v));
      }
    }
  }

  lemma OtherDirs(u: nat, cur: nat, v: nat)
    requires u != cur && u != v
    ensures forall d :: DIRS * u <= d < DIRS * u + DIRS ==> d !in TaskDirs(cur) + TaskDirs(v)
  {
    forall d | DIRS * u <= d < DIRS * u + DIRS ensures d !in TaskDirs(cur) + TaskDirs(v) {
      InTaskDirs(cur, d);
      InTaskDirs(v, d);
      SixteenPlus(u, d - DIRS * u);
    }
  }

  lemma TablesButOne(s: State, s': State, d: int, cur: nat)
    requires Inv(s) && Inv(s') && OtherTablesSame(s, s', d) && d / DIRS == cur
    ensures forall d' :: d' / DIRS != cur ==> (HasDir(s', d') <==> HasDir(s, d'))
  {
    forall d' | d' / DIRS != cur ensures HasDir(s', d') <==> HasDir(s, d') { assert SameDir(s, s', d'); }
  }

  /** Pages that the kernel holds keep their contents. */
  lemma KeptSame(s: State, s': State, t: Tasks, h: set<nat>)
    requires Inv(s) && Inv(s') && HandlesOk(s, t, h) && forall f :: f in h ==> s'.mem[f] == s.mem[f]
    ensures KeptPages(s', h) == KeptPages(s, h)
  {
  }

  // ---------------------------------------------------------------- the end of a task

  lemma EndedBy(s: State, t: Tasks, h: set<nat>, s': State, t': Tasks, cur: nat)
    requires Inv(s) && Inv(s') && TasksOk(s, t) && TasksOk(s', t') && HandlesOk(s, t, h) && SameKernel(s, s')
    requires 1 <= cur < NR_TASKS
    requires Exited(s, s', t, t', cur) && TablesGone(s, s', cur)
    requires KeptOutside(s, s', TaskDirs(cur)) && s.held <= s'.held
    ensures HandlesOk(s', t', h) && Ended(AbsOf(s, t, h), AbsOf(s', t', h), cur)
    ensures OthersKept(AbsOf(s, t, h), AbsOf(s', t', h), cur, cur)
    ensures Given(s, cur) == GivenBack(AbsOf(s, t, h), cur)
  {
    NoTables(s', cur);
    KeptSame(s, s', t, h);
    KeptWider(s, s', TaskDirs(cur), TaskDirs(cur) + TaskDirs(cur));
    OthersKeptBy(s, t, h, s', t', h, cur, cur);
    GivenIsShare(s, t, h, cur);
  }

  // ---------------------------------------------------------------- an access

  lemma AccessedBy(s: State, t: Tasks, h: set<nat>, s': State, cur: nat, p: nat, v: View, cost: nat, writes: bool)
    requires Inv(s) && Inv(s') && TasksOk(s, t) && TasksOk(s', t)
    requires HandlesOk(s, t, h) && 1 <= cur < NR_TASKS && p < PAGES
    requires Took(s, s', DirOf(cur, p), p % ENTRIES, cost) && s'.held == s.held && SameKernel(s, s')
    requires Space(s', cur) == Space(s, cur)[p := v]
    requires WritableAt(s', cur, p) <==> writes || WritableAt(s, cur, p)
    ensures HandlesOk(s', t, h) && Accessed(AbsOf(s, t, h), AbsOf(s', t, h), cur, p, v, cost, writes)
    ensures OthersKept(AbsOf(s, t, h), AbsOf(s', t, h), cur, cur)
  {
    var d := DirOf(cur, p);
    PageSplit(cur, p);
    KeptSame(s, s', t, h);
    TablesButOne(s, s', d, cur);
    KeptWider(s, s', {}, TaskDirs(cur) + TaskDirs(cur));
    SpaceUpdated(s, s', cur, p);
    OthersKeptBy(s, t, h, s', t, h, cur, cur);
    TableAdded(s, s', cur, p);
    RightsAdded(s, s', cur, p, writes);
    FrameTaken(s, t, h, s', cur, p, cost > 0);
  }

  lemma TableAdded(s: State, s': State, cur: nat, p: nat)
    requires Inv(s) && Inv(s') && 1 <= cur < NR_TASKS && p < PAGES
    requires OtherTablesSame(s, s', DirOf(cur, p)) && HasDir(s', DirOf(cur, p))
    ensures TableSet(s', cur) == TableSet(s, cur) + {p / ENTRIES}
  {
    forall k: nat | k < DIRS ensures TableAt(s', cur, k) <==> TableAt(s, cur, k) || k == p / ENTRIES {
      if k != p / ENTRIES { assert SameDir(s, s', DIRS * cur + k); }
    }
  }

  lemma RightsAdded(s: State, s': State, cur: nat, p: nat, writes: bool)
    requires Inv(s) && Inv(s') && 1 <= cur < NR_TASKS && p < PAGES && KeptOutside(s, s', {})
    requires forall q: nat :: q < PAGES && q != p && WritableAt(s', cur, q) ==> WritableAt(s, cur, q)
    requires WritableAt(s', cur, p) <==> writes || WritableAt(s, cur, p)
    ensures RwSet(s', cur) == RwSet(s, cur) + (if writes then {p} else {})
  {
    RightsKept(s, s', cur, {});
    forall q: nat | q < PAGES
      ensures q in RwSet(s', cur) <==> q in RwSet(s, cur) || (writes && q == p)
    {
      assert q in RwSet(s, cur) ==> q in RwSet(s', cur);
    }
  }

  lemma FrameTaken(s: State, t: Tasks, h: set<nat>, s': State, cur: nat, p: nat, moved: bool)
    requires Inv(s) && Inv(s') && TasksOk(s, t) && TasksOk(s', t) && HandlesOk(s, t, h) && HandlesOk(s', t, h)
    requires 1 <= cur < NR_TASKS && p < PAGES && FrameBy(s, s', DirOf(cur, p), p % ENTRIES, moved)
    ensures NewFrame(AbsOf(s, t, h), AbsOf(s', t, h), cur, p, moved)
  {
    FrameIs(s, cur, p);
    FrameIs(s', cur, p);
    if moved { UnusedIsFresh(s, t, h, Frames(s', cur)[p]); }
  }

  /** The words stored agree, since only low frames are read. */
  lemma StoredAgrees(v: View, mem: seq<Page>, i: nat, w: Word)
    requires |mem| == HIGH && PageOk(v) && i < ENTRIES && forall f :: 0 <= f < HIGH ==> |mem[f]| == ENTRIES
    ensures Stored(v, mem[..LOW], i, w) == Stored(v, mem, i, w)
    ensures Loaded(v, mem[..LOW], i) == Loaded(v, mem, i)
  {
  }

  // ---------------------------------------------------------------- loads and stores

  /** An access ended the task. */
  lemma AccessFailed(s: State, t: Tasks, h: set<nat>, s': State, t': Tasks, cur: nat, p: nat, o: Outcome, v: View,
                     cost: nat, writes: bool)
    requires Inv(s) && Inv(s') && TasksOk(s, t) && TasksOk(s', t') && HandlesOk(s, t, h) && SameKernel(s, s')
    requires 1 <= cur < NR_TASKS && s.held <= s'.held && FreeFrames(s) < cost && !o.ok
    requires Exited(s, s', t, t', cur) && EndedShort(s, s', cur)
    ensures HandlesOk(s', t', h) && Access(AbsOf(s, t, h), AbsOf(s', t', h), cur, p, o, v, cost, writes)
    ensures OthersKept(AbsOf(s, t, h), AbsOf(s', t', h), cur, cur)
  {
    EndedBy(s, t, h, s', t', cur);
  }

  /** The outcome of a store, by fault or by put_fs. */
  lemma StoreDone(s: State, t: Tasks, h: set<nat>, s': State, t': Tasks, cur: nat, p: nat, i: nat, w: Word, o: Outcome,
                  cost: nat)
    requires Inv(s) && Inv(s') && TasksOk(s, t) && TasksOk(s', t') && HandlesOk(s, t, h) && SameKernel(s, s')
    requires 1 <= cur < NR_TASKS && p < PAGES && i < ENTRIES && (o.ok <==> FreeFrames(s) >= cost)
    requires o.ok ==> t' == t && s'.held == s.held && Took(s, s', DirOf(cur, p), p % ENTRIES, cost)
    requires o.ok ==> WroteWord(s, s', cur, p, i, w) && WritableAt(s', cur, p)
    requires !o.ok ==> s.held <= s'.held && Exited(s, s', t, t', cur) && EndedShort(s, s', cur)
    ensures HandlesOk(s', t', h)
    ensures var a, a' := AbsOf(s, t, h), AbsOf(s', t', h);
      Stores(a, a', cur, p, i, w, o, cost) && OthersKept(a, a', cur, cur)
  {
    var a := AbsOf(s, t, h);
    StoredAgrees(Space(s, cur)[p], s.mem, i, w);
    if o.ok {
      AccessedBy(s, t, h, s', cur, p, Stored(Space(s, cur)[p], s.mem, i, w), cost, true);
    } else {
      AccessFailed(s, t, h, s', t', cur, p, o, Stored(PageAt(a, cur, p), a.low, i, w), cost, true);
    }
  }

  lemma LowIsKept(s: State, t: Tasks, h: set<nat>, s': State, t': Tasks, h': set<nat>)
    requires Inv(s) && Inv(s') && TasksOk(s, t) && TasksOk(s', t') && SameKernel(s, s')
    requires HandlesOk(s, t, h) && HandlesOk(s', t', h')
    ensures LowKept(AbsOf(s, t, h), AbsOf(s', t', h'))
  {
  }

  /** Store and Put are the same change for a different number of frames. */
  lemma StoreNext(s: State, t: Tasks, h: set<nat>, s': State, t': Tasks, op: Op, o: Outcome)
    requires Inv(s) && Inv(s') && TasksOk(s, t) && TasksOk(s', t') && HandlesOk(s, t, h) && HandlesOk(s', t', h)
    requires op.Store? || op.Put?
    requires var a, a' := AbsOf(s, t, h), AbsOf(s', t', h);
      && Enabled(a, op) && OthersKept(a, a', op.cur, op.cur) && LowKept(a, a') && op.p < PAGES
      && Stores(a, a', op.cur, op.p, op.i, op.w, o, StoreFrames(s, op))
    ensures Next(AbsOf(s, t, h), op, o, AbsOf(s', t', h))
  {
    CostsAre(s, t, h, op.cur, op.p);
    StoresNext(AbsOf(s, t, h), AbsOf(s', t', h), op, o);
  }

  lemma StoresNext(a: Abs, a': Abs, op: Op, o: Outcome)
    requires WellFormed(a) && WellFormed(a') && (op.Store? || op.Put?) && Enabled(a, op)
    requires OthersKept(a, a', op.cur, op.cur) && LowKept(a, a')
    requires Stores(a, a', op.cur, op.p, op.i, op.w, o, StoreCost(a, op))
    ensures Next(a, op, o, a')
  {
  }

  ghost function StoreCost(a: Abs, op: Op): nat
    requires WellFormed(a) && (op.Store? || op.Put?) && op.cur < NR_TASKS
  {
    LoadCost(a, op.cur, op.p) + if op.Store? then VerifyCost(a, op.cur, op.p) else 0
  }

  /** What a user's store takes, or one of put_fs. */
  ghost function StoreFrames(s: State, op: Op): nat
    requires Inv(s) && (op.Store? || op.Put?)
  {
    var d, e := DirOf(op.cur, op.p), op.p % ENTRIES;
    if op.Store? then StoreNeeds(s, d, e) else LoadNeeds(s, d, e)
  }

  method StepStore(k: TaskMemory, ghost h: set<nat>, cur: nat, p: nat, i: nat, w: Word) returns (o: Outcome)
    requires k.Valid() && HandlesOk(k.m.S(), k.T(), h) && Enabled(AbsOf(k.m.S(), k.T(), h), Store(cur, p, i, w))
    modifies k.m, k.m.mem, k.m.memMap, k.alive
    ensures k.Valid() && HandlesOk(k.m.S(), k.T(), h)
    ensures Next(old(AbsOf(k.m.S(), k.T(), h)), Store(cur, p, i, w), o, AbsOf(k.m.S(), k.T(), h))
  {
    ghost var s, t, op := k.m.S(), k.T(), Store(cur, p, i, w);
    InLimit(k.data[cur], p);
    var ok := k.UserStore(cur, p, i, w);
    o := Outcome(ok, ZERO, 0);
    StoreDone(s, t, h, k.m.S(), k.T(), cur, p, i, w, o, StoreFrames(s, op));
    LowIsKept(s, t, h, k.m.S(), k.T(), h);
    StoreNext(s, t, h, k.m.S(), k.T(), op, o);
  }

  method StepPut(k: TaskMemory, ghost h: set<nat>, cur: nat, p: nat, i: nat, w: Word) returns (o: Outcome)
    requires k.Valid() && HandlesOk(k.m.S(), k.T(), h) && Enabled(AbsOf(k.m.S(), k.T(), h), Put(cur, p, i, w))
    modifies k.m, k.m.mem, k.m.memMap, k.alive
    ensures k.Valid() && HandlesOk(k.m.S(), k.T(), h)
    ensures Next(old(AbsOf(k.m.S(), k.T(), h)), Put(cur, p, i, w), o, AbsOf(k.m.S(), k.T(), h))
  {
    ghost var s, t, op := k.m.S(), k.T(), Put(cur, p, i, w);
    InLimit(k.data[cur], p);
    CostsAre(s, t, h, cur, p);
    assert p in RwSet(s, cur) ==> WritableAt(s, cur, p);
    var ok := k.PutFs(cur, p, i, w);
    o := Outcome(ok, ZERO, 0);
    StoreDone(s, t, h, k.m.S(), k.T(), cur, p, i, w, o, StoreFrames(s, op));
    LowIsKept(s, t, h, k.m.S(), k.T(), h);
    StoreNext(s, t, h, k.m.S(), k.T(), op, o);
  }

  ghost predicate LoadTook(s: State, s': State, cur: nat, p: nat)
    requires Inv(s) && Inv(s')
  {
    Took(s, s', DirOf(cur, p), p % ENTRIES, LoadNeeds(s, DirOf(cur, p), p % ENTRIES))
  }

  lemma LoadDone(s: State, t: Tasks, h: set<nat>, s': State, t': Tasks, cur: nat, p: nat, i: nat, o: Outcome)
    requires Inv(s) && Inv(s') && TasksOk(s, t) && TasksOk(s', t') && HandlesOk(s, t, h) && SameKernel(s, s')
    requires 1 <= cur < NR_TASKS && p < PAGES && i < ENTRIES && PageOk(Space(s, cur)[p])
    requires o.ok <==> FreeFrames(s) >= LoadNeeds(s, DirOf(cur, p), p % ENTRIES)
    requires o.ok ==> t' == t && s'.held == s.held && LoadTook(s, s', cur, p)
    requires o.ok ==> Space(s', cur) == Space(s, cur)[p := LoadedView(Space(s, cur)[p])]
    requires o.ok ==> if Space(s, cur)[p] == Absent then WritableAt(s', cur, p) else s' == s
    requires o.ok ==> o.word == Loaded(Space(s, cur)[p], s.mem, i)
    requires !o.ok ==> s.held <= s'.held && Exited(s, s', t, t', cur) && EndedShort(s, s', cur)
    ensures HandlesOk(s', t', h)
    ensures var a, a' := AbsOf(s, t, h), AbsOf(s', t', h);
      Loads(a, a', cur, p, i, o) && OthersKept(a, a', cur, cur)
  {
    var v, cost := Space(s, cur)[p], LoadNeeds(s, DirOf(cur, p), p % ENTRIES);
    CostsAre(s, t, h, cur, p);
    StoredAgrees(v, s.mem, i, ZERO);
    if o.ok {
      AccessedBy(s, t, h, s', cur, p, LoadedView(v), cost, v.Absent?);
    } else {
      AccessFailed(s, t, h, s', t', cur, p, o, LoadedView(v), cost, v.Absent?);
    }
  }

  method StepLoad(k: TaskMemory, ghost h: set<nat>, cur: nat, p: nat, i: nat) returns (o: Outcome)
    requires k.Valid() && HandlesOk(k.m.S(), k.T(), h) && Enabled(AbsOf(k.m.S(), k.T(), h), Load(cur, p, i))
    modifies k.m, k.m.mem, k.m.memMap, k.alive
    ensures k.Valid() && HandlesOk(k.m.S(), k.T(), h)
    ensures Next(old(AbsOf(k.m.S(), k.T(), h)), Load(cur, p, i), o, AbsOf(k.m.S(), k.T(), h))
  {
    ghost var s, t := k.m.S(), k.T();
    InLimit(k.data[cur], p);
    PagesFullSize(s, cur, p);
    var ok, w := k.UserLoad(cur, p, i);
    o := Outcome(ok, w, 0);
    if ok { LoadSpace(s, k.m.S(), cur, p); }
    LoadDone(s, t, h, k.m.S(), k.T(), cur, p, i, o);
    LowIsKept(s, t, h, k.m.S(), k.T(), h);
    LoadNext(AbsOf(s, t, h), AbsOf(k.m.S(), k.T(), h), cur, p, i, o);
  }

  lemma LoadSpace(s: State, s': State, cur: nat, p: nat)
    requires Inv(s) && Inv(s') && cur < NR_TASKS && p < PAGES
    requires Space(s', cur) ==
      if Space(s, cur)[p] == Absent then Space(s, cur)[p := Own(ZeroPage())] else Space(s, cur)
    ensures Space(s', cur) == Space(s, cur)[p := LoadedView(Space(s, cur)[p])]
  {
  }

  lemma LoadNext(a: Abs, a': Abs, cur: nat, p: nat, i: nat, o: Outcome)
    requires WellFormed(a) && WellFormed(a') && Enabled(a, Load(cur, p, i)) && Loads(a, a', cur, p, i, o)
    requires OthersKept(a, a', cur, cur) && LowKept(a, a')
    ensures Next(a, Load(cur, p, i), o, a')
  {
  }

  // ---------------------------------------------------------------- exit, fork and verify_area

  method StepExit(k: TaskMemory, ghost h: set<nat>, cur: nat) returns (o: Outcome)
    requires k.Valid() && HandlesOk(k.m.S(), k.T(), h) && Enabled(AbsOf(k.m.S(), k.T(), h), Exit(cur))
    modifies k.m, k.m.mem, k.m.memMap, k.alive
    ensures k.Valid() && HandlesOk(k.m.S(), k.T(), h)
    ensures Next(old(AbsOf(k.m.S(), k.T(), h)), Exit(cur), o, AbsOf(k.m.S(), k.T(), h))
  {
    ghost var s, t := k.m.S(), k.T();
    k.DoExit(cur);
    o := Outcome(true, ZERO, 0);
    EndedBy(s, t, h, k.m.S(), k.T(), cur);
    LowIsKept(s, t, h, k.m.S(), k.T(), h);
  }

  lemma ForkCost(s: State, t: Tasks, h: set<nat>, cur: nat)
    requires Inv(s) && TasksOk(s, t) && HandlesOk(s, t, h) && cur < NR_TASKS
    ensures ForkNeeds(s, cur) == 1 + |AbsOf(s, t, h).tables[cur]|
  {
    if cur == 0 {
      assert TableSet(s, 0) == {0};
    } else {
      TablesAre(s, cur);
    }
  }

  lemma ForkDone(s: State, t: Tasks, h: set<nat>, s': State, t': Tasks, cur: nat, nr: nat, o: Outcome)
    requires Inv(s) && Inv(s') && TasksOk(s, t) && TasksOk(s', t') && HandlesOk(s, t, h) && SameKernel(s, s')
    requires cur < NR_TASKS && 1 <= nr < NR_TASKS && s.held <= s'.held && FreeFrames(s) >= ForkNeeds(s, cur) && o.ok
    requires ForkedSpace(s, s', cur, nr) && t'.slot[nr] !in s.held && t'.slot[nr] != 0
    requires t' == Forked(t, cur, nr, t'.slot[nr])
    ensures HandlesOk(s', t', h)
    ensures var a, a' := AbsOf(s, t, h), AbsOf(s', t', h); Forks(a, a', cur, nr, o) && OthersKept(a, a', nr, cur)
  {
    KeptSame(s, s', t, h);
    ForkOthers(s, t, h, s', t', cur, nr);
    ForkChild(s, t, h, s', t', cur, nr, o);
  }

  lemma ForkOthers(s: State, t: Tasks, h: set<nat>, s': State, t': Tasks, cur: nat, nr: nat)
    requires Inv(s) && Inv(s') && TasksOk(s, t) && TasksOk(s', t') && HandlesOk(s, t, h) && HandlesOk(s', t', h)
    requires cur < NR_TASKS && 1 <= nr < NR_TASKS && OthersSame(s, s', nr)
    requires KeptOutside(s, s', TaskDirs(cur) + TaskDirs(nr))
    requires forall d :: d / DIRS != nr ==> (HasDir(s', d) <==> HasDir(s, d))
    ensures OthersKept(AbsOf(s, t, h), AbsOf(s', t', h), nr, cur)
  {
    assert TaskDirs(cur) + TaskDirs(nr) == TaskDirs(nr) + TaskDirs(cur);
    OthersKeptBy(s, t, h, s', t', h, nr, cur);
  }

  lemma ForkChild(s: State, t: Tasks, h: set<nat>, s': State, t': Tasks, cur: nat, nr: nat, o: Outcome)
    requires Inv(s) && Inv(s') && TasksOk(s, t) && TasksOk(s', t') && HandlesOk(s, t, h) && HandlesOk(s', t', h)
    requires cur < NR_TASKS && 1 <= nr < NR_TASKS && FreeFrames(s) >= ForkNeeds(s, cur) && o.ok
    requires ForkedSpace(s, s', cur, nr) && t' == Forked(t, cur, nr, t'.slot[nr]) && t'.slot[nr] != 0
    requires KeptPages(s', h) == KeptPages(s, h)
    ensures Forks(AbsOf(s, t, h), AbsOf(s', t', h), cur, nr, o)
  {
    ForkCost(s, t, h, cur);
    TablesInherited(s, s', cur, nr);
    NoneWritable(s', cur, nr);
    NowTaken(s, t, h, s', t', nr);
  }

  lemma TablesInherited(s: State, s': State, cur: nat, nr: nat)
    requires Inv(s) && Inv(s') && cur < NR_TASKS && ChildTables(s, s', cur, nr)
    ensures TableSet(s', nr) == TableSet(s, cur)
  {
  }

  lemma NowTaken(s: State, t: Tasks, h: set<nat>, s': State, t': Tasks, nr: nat)
    requires Inv(s) && Inv(s') && TasksOk(s, t) && TasksOk(s', t') && HandlesOk(s, t, h) && HandlesOk(s', t', h)
    requires nr < NR_TASKS && t'.slot == t.slot[nr := t'.slot[nr]] && t'.slot[nr] != 0
    ensures AbsOf(s', t', h).taken == AbsOf(s, t, h).taken[nr := true]
  {
  }

  lemma ForkNotDone(s: State, t: Tasks, h: set<nat>, s': State, cur: nat, nr: nat, o: Outcome)
    requires Inv(s) && Inv(s') && TasksOk(s, t) && TasksOk(s', t) && HandlesOk(s, t, h) && SameKernel(s, s')
    requires cur < NR_TASKS && 1 <= nr < NR_TASKS && s.held <= s'.held && FreeFrames(s) < ForkNeeds(s, cur) && !o.ok
    requires !t.alive[nr] && NotForked(s, s', cur, nr)
    ensures HandlesOk(s', t, h)
    ensures var a, a' := AbsOf(s, t, h), AbsOf(s', t, h); Forks(a, a', cur, nr, o) && OthersKept(a, a', nr, cur)
  {
    ForkCost(s, t, h, cur);
    KeptSame(s, s', t, h);
    ForkOthers(s, t, h, s', t, cur, nr);
    assert SameSpace(s, s', nr) && SameSpace(s, s', cur);
    NoTables(s, nr);
    NoTables(s', nr);
  }

  lemma NoneWritable(s: State, cur: nat, nr: nat)
    requires Inv(s) && cur < NR_TASKS && nr < NR_TASKS && ReadOnlySpaces(s, cur, nr)
    ensures RwSet(s, cur) == {} && RwSet(s, nr) == {}
  {
    forall p: nat | p < PAGES ensures !WritableAt(s, cur, p) && !WritableAt(s, nr, p) {
      assert PagePair(s, cur, nr, p);
    }
  }

  method StepFork(k: TaskMemory, ghost h: set<nat>, cur: nat, nr: nat) returns (o: Outcome)
    requires k.Valid() && HandlesOk(k.m.S(), k.T(), h) && Enabled(AbsOf(k.m.S(), k.T(), h), Fork(cur, nr))
    modifies k.m, k.m.mem, k.m.memMap, k.slot, k.alive, k.code, k.data
    ensures k.Valid() && HandlesOk(k.m.S(), k.T(), h)
    ensures Next(old(AbsOf(k.m.S(), k.T(), h)), Fork(cur, nr), o, AbsOf(k.m.S(), k.T(), h))
  {
    ghost var s, t := k.m.S(), k.T();
    var r := k.CopyProcess(nr, cur);
    o := Outcome(r == 0, ZERO, 0);
    if o.ok {
      ForkDone(s, t, h, k.m.S(), k.T(), cur, nr, o);
    } else {
      ForkNotDone(s, t, h, k.m.S(), cur, nr, o);
    }
    LowIsKept(s, t, h, k.m.S(), k.T(), h);
    ForkNext(AbsOf(s, t, h), AbsOf(k.m.S(), k.T(), h), cur, nr, o);
  }

  lemma ForkNext(a: Abs, a': Abs, cur: nat, nr: nat, o: Outcome)
    requires WellFormed(a) && WellFormed(a') && Enabled(a, Fork(cur, nr)) && Forks(a, a', cur, nr, o)
    requires OthersKept(a, a', nr, cur) && LowKept(a, a')
    ensures Next(a, Fork(cur, nr), o, a')
  {
  }

  lemma NeedyAre(s: State, t: Tasks, h: set<nat>, cur: nat, lo: nat, hi: nat)
    requires Inv(s) && TasksOk(s, t) && HandlesOk(s, t, h) && 1 <= cur < NR_TASKS && hi <= PAGES
    ensures NeedyPages(AbsOf(s, t, h), cur, lo, hi) == Needy(s, cur, lo, hi)
  {
    forall p: nat | lo <= p < hi ensures VerifyCost(AbsOf(s, t, h), cur, p) == 1 <==> NeedyPage(s, cur, p) {
      CostsAre(s, t, h, cur, p);
    }
  }

  lemma AreaInside(addr: nat, size: int, limit: nat)
    requires InSegment(addr, size, limit) && limit <= 0x4000000
    ensures AreaEnd(addr, size) <= PAGES && addr < 0x1_0000_0000 && size < 0x8000_0000
  {
  }

  lemma MadeOwnAgrees(v: View, mem: seq<Page>)
    requires |mem| == HIGH && PageOk(v)
    ensures MadeOwn(v, mem[..LOW]) == MadeOwn(v, mem)
  {
  }

  lemma VerifyDone(s: State, t: Tasks, h: set<nat>, s': State, cur: nat, lo: nat, hi: nat)
    requires Inv(s) && Inv(s') && TasksOk(s, t) && TasksOk(s', t) && HandlesOk(s, t, h) && SameKernel(s, s')
    requires 1 <= cur < NR_TASKS && hi <= PAGES && s'.held == s.held && Area(s, s', cur, lo, hi)
    ensures HandlesOk(s', t, h) && AreaVerified(AbsOf(s, t, h), AbsOf(s', t, h), cur, lo, hi)
    ensures OthersKept(AbsOf(s, t, h), AbsOf(s', t, h), cur, cur)
  {
    var a, a' := AbsOf(s, t, h), AbsOf(s', t, h);
    NeedyAre(s, t, h, cur, lo, hi);
    KeptSame(s, s', t, h);
    forall d ensures HasDir(s', d) <==> HasDir(s, d) { assert SameDir(s, s', d); }
    KeptWider(s, s', {}, TaskDirs(cur) + TaskDirs(cur));
    OthersKeptBy(s, t, h, s', t, h, cur, cur);
    TablesKept(s, s', cur);
    PagesVerified(s, t, h, s', cur, lo, hi);
    RightsVerified(s, t, h, s', cur, lo, hi);
    forall p, q | p in NeedyPages(a, cur, lo, hi) && q in NeedyPages(a, cur, lo, hi) && p < q < PAGES
      ensures a'.frames[cur][p] != a'.frames[cur][q]
    {
      Apart(a', cur, p, q);
    }
  }

  /** Two pages that may be written are on different frames. */
  lemma Apart(a: Abs, t: nat, p: nat, q: nat)
    requires WellFormed(a) && t < NR_TASKS && p < q < PAGES && p in a.rw[t]
    ensures a.frames[t][p] != a.frames[t][q]
  {
    assert p in AlonePages(a, t);
    assert !OnFrame(a, t, q, a.frames[t][p]);
  }

  lemma PagesVerified(s: State, t: Tasks, h: set<nat>, s': State, cur: nat, lo: nat, hi: nat)
    requires Inv(s) && Inv(s') && TasksOk(s, t) && TasksOk(s', t) && HandlesOk(s, t, h) && HandlesOk(s', t, h)
    requires 1 <= cur < NR_TASKS && hi <= PAGES && AreaSpaces(s, s', cur, lo, hi)
    ensures var a, a' := AbsOf(s, t, h), AbsOf(s', t, h);
      forall p: nat :: p < PAGES ==>
        && a'.spaces[cur][p] == (if lo <= p < hi then MadeOwn(a.spaces[cur][p], a.low) else a.spaces[cur][p])
        && NewFrame(a, a', cur, p, p in NeedyPages(a, cur, lo, hi))
  {
    NeedyAre(s, t, h, cur, lo, hi);
    forall p: nat | p < PAGES
      ensures MadeOwn(Space(s, cur)[p], s.mem[..LOW]) == MadeOwn(Space(s, cur)[p], s.mem)
      ensures NewFrame(AbsOf(s, t, h), AbsOf(s', t, h), cur, p, p in Needy(s, cur, lo, hi))
    {
      PagesFullSize(s, cur, p);
      MadeOwnAgrees(Space(s, cur)[p], s.mem);
      assert AreaFrame(s, s', cur, p, lo, hi);
      FrameTaken(s, t, h, s', cur, p, p in Needy(s, cur, lo, hi));
    }
  }

  lemma RightsVerified(s: State, t: Tasks, h: set<nat>, s': State, cur: nat, lo: nat, hi: nat)
    requires Inv(s) && Inv(s') && TasksOk(s, t) && HandlesOk(s, t, h)
    requires 1 <= cur < NR_TASKS && hi <= PAGES && Area(s, s', cur, lo, hi)
    ensures RwSet(s', cur) == RwSet(s, cur) + PresentPages(AbsOf(s, t, h), cur, lo, hi)
  {
    RightsKept(s, s', cur, {});
    forall p: nat | p < PAGES
      ensures WritableAt(s', cur, p) <==> WritableAt(s, cur, p) || (lo <= p < hi && !Space(s, cur)[p].Absent?)
    {
      assert p in RwSet(s, cur) ==> p in RwSet(s', cur);
      PagePresent(s, cur, p);
      PagePresent(s', cur, p);
      if lo <= p < hi { assert PageVerified(s', cur, p); }
    }
  }

  lemma PagePresent(s: State, u: nat, p: nat)
    requires Inv(s) && 1 <= u < NR_TASKS && p < PAGES
    ensures Space(s, u)[p].Absent? <==> !Mapped(s, DirOf(u, p), p % ENTRIES)
  {
    PageSplit(u, p);
  }

  method StepVerify(k: TaskMemory, ghost h: set<nat>, cur: nat, addr: nat, size: int) returns (o: Outcome)
    requires k.Valid() && HandlesOk(k.m.S(), k.T(), h) && Enabled(AbsOf(k.m.S(), k.T(), h), Verify(cur, addr, size))
    modifies k.m, k.m.mem, k.m.memMap, k.alive
    ensures k.Valid() && HandlesOk(k.m.S(), k.T(), h)
    ensures Next(old(AbsOf(k.m.S(), k.T(), h)), Verify(cur, addr, size), o, AbsOf(k.m.S(), k.T(), h))
  {
    ghost var s, t := k.m.S(), k.T();
    AreaInside(addr, size, k.data[cur]);
    var ok := k.VerifyArea(cur, addr, size);
    o := Outcome(ok, ZERO, 0);
    if ok {
      VerifyDone(s, t, h, k.m.S(), cur, FirstPage(addr), AreaEnd(addr, size));
    } else {
      EndedBy(s, t, h, k.m.S(), k.T(), cur);
    }
    LowIsKept(s, t, h, k.m.S(), k.T(), h);
    VerifyNext(s, t, h, k.m.S(), k.T(), cur, addr, size, o);
  }

  lemma VerifyNext(s: State, t: Tasks, h: set<nat>, s': State, t': Tasks, cur: nat, addr: nat, size: int, o: Outcome)
    requires Inv(s) && Inv(s') && TasksOk(s, t) && TasksOk(s', t') && HandlesOk(s, t, h) && HandlesOk(s', t', h)
    requires Enabled(AbsOf(s, t, h), Verify(cur, addr, size))
    requires o.ok <==> FreeFrames(s) >= |Needy(s, cur, FirstPage(addr), AreaEnd(addr, size))|
    requires var a, a' := AbsOf(s, t, h), AbsOf(s', t', h);
      && OthersKept(a, a', cur, cur) && LowKept(a, a')
      && (if o.ok then AreaVerified(a, a', cur, FirstPage(addr), AreaEnd(addr, size))
          else Ended(a, a', cur) && a'.free == a.free + GivenBack(a, cur))
    ensures Next(AbsOf(s, t, h), Verify(cur, addr, size), o, AbsOf(s', t', h))
  {
    AreaInside(addr, size, t.data[cur]);
    NeedyAre(s, t, h, cur, FirstPage(addr), AreaEnd(addr, size));
  }

  // ---------------------------------------------------------------- exec

  lemma StartIs(s: State, t: Tasks, h: set<nat>, page: seq<nat>)
    requires Inv(s) && TasksOk(s, t) && HandlesOk(s, t, h) && Arguments(AbsOf(s, t, h), page)
    ensures StartSpace(AbsOf(s, t, h), page) == ArgumentSpace(page, s.mem, 0)
    ensures forall i :: 0 <= i < |page| && page[i] != 0 ==> page[i] in s.held && page[i] !in t.slot
  {
    var a := AbsOf(s, t, h);
    forall i | 0 <= i < |page| && page[i] != 0
      ensures page[i] in h && page[i] in s.held && a.kept[page[i]] == s.mem[page[i]]
    {
      assert page[i] in a.kept;
    }
  }

  lemma HasTable(s: State, t: Tasks, h: set<nat>, cur: nat)
    requires Inv(s) && TasksOk(s, t) && HandlesOk(s, t, h) && 1 <= cur < NR_TASKS && AbsOf(s, t, h).tables[cur] != {}
    ensures exists d :: 16 * cur <= d < 16 * cur + 16 && HasDir(s, d)
  {
    var k :| k in TableSet(s, cur);
    assert HasDir(s, DIRS * cur + k);
  }

  lemma ArgumentPage(cur: nat, i: nat)
    requires i < MAX_ARG_PAGES
    ensures var p := PAGES - MAX_ARG_PAGES + i;
      DirOf(cur, p) == DIRS * cur + 15 && p % ENTRIES == ENTRIES - MAX_ARG_PAGES + i
  {
  }

  lemma ExecTables(s: State, s': State, cur: nat, page: seq<nat>)
    requires Inv(s) && Inv(s') && 1 <= cur < NR_TASKS && Replaced(s, s', cur, page)
    ensures TableSet(s', cur) == if ArgsFrom(page, 0) then {15} else {}
    ensures forall d :: d / DIRS != cur ==> (HasDir(s', d) <==> HasDir(s, d))
  {
    forall k: nat | k < DIRS ensures TableAt(s', cur, k) <==> ArgsFrom(page, 0) && k == 15 {
      SixteenPlus(cur, k);
    }
    SixteenPlus(cur, 15);
  }

  lemma ExecDone(s: State, t: Tasks, h: set<nat>, s': State, t': Tasks, h': set<nat>, cur: nat, page: seq<nat>)
    requires Inv(s) && Inv(s') && TasksOk(s, t) && TasksOk(s', t') && HandlesOk(s, t, h) && SameKernel(s, s')
    requires 1 <= cur < NR_TASKS && Arguments(AbsOf(s, t, h), page) && OthersSame(s, s', cur)
    requires Replaced(s, s', cur, page)
    requires Space(s', cur) == ArgumentSpace(page, s.mem, 0) && Frames(s', cur) == ArgumentRow(page, 0)
    requires s'.held == s.held - ArgumentFrames(page, 0) && h' == h - ArgumentFrames(page, 0)
    requires t'.slot == t.slot && t'.alive == t.alive && t'.data == t.data[cur := 0x4000000]
    ensures HandlesOk(s', t', h') && Execs(AbsOf(s, t, h), AbsOf(s', t', h'), cur, page)
    ensures OthersKept(AbsOf(s, t, h), AbsOf(s', t', h'), cur, cur)
  {
    StartIs(s, t, h, page);
    ExecTables(s, s', cur, page);
    GivenIsShare(s, t, h, cur);
    KeptWider(s, s', TaskDirs(cur), TaskDirs(cur) + TaskDirs(cur));
    KeptLess(s, s', t, t', h, h', ArgumentFrames(page, 0));
    OthersKeptBy(s, t, h, s', t', h', cur, cur);
    ArgumentsWritable(s', cur, page);
  }

  lemma KeptLess(s: State, s': State, t: Tasks, t': Tasks, h: set<nat>, h': set<nat>, gone: set<nat>)
    requires Inv(s) && Inv(s') && HandlesOk(s, t, h) && SameKernel(s, s') && s'.held == s.held - gone && h' == h - gone
    requires t'.slot == t.slot
    ensures KeptPages(s', h') == KeptPages(s, h) - gone && HandlesOk(s', t', h')
  {
  }

  lemma ArgumentsWritable(s: State, cur: nat, page: seq<nat>)
    requires Inv(s) && |page| == MAX_ARG_PAGES && 1 <= cur < NR_TASKS && Frames(s, cur) == ArgumentRow(page, 0)
    requires forall j :: 0 <= j < |page| && page[j] != 0 ==> Writable(s, DIRS * cur + 15, ENTRIES - |page| + j)
    ensures RwSet(s, cur) == StartPages(page)
  {
    forall p: nat | p < PAGES ensures WritableAt(s, cur, p) <==> ArgumentRow(page, 0)[p] != -1 {
      FrameIs(s, cur, p);
      var i := p - (PAGES - MAX_ARG_PAGES);
      if 0 <= i && page[i] != 0 { ArgumentPage(cur, i); }
    }
  }

  method StepExec(k: TaskMemory, h: set<nat>, cur: nat, newCode: nat, page: seq<nat>) returns (o: Outcome, h': set<nat>)
    requires k.Valid() && HandlesOk(k.m.S(), k.T(), h) && Enabled(AbsOf(k.m.S(), k.T(), h), Exec(cur, newCode, page))
    modifies k.m, k.m.mem, k.m.memMap, k.code, k.data
    ensures k.Valid() && HandlesOk(k.m.S(), k.T(), h')
    ensures Next(old(AbsOf(k.m.S(), k.T(), h)), Exec(cur, newCode, page), o, AbsOf(k.m.S(), k.T(), h'))
  {
    ghost var s, t := k.m.S(), k.T();
    StartIs(s, t, h, page);
    HasTable(s, t, h, cur);
    k.ExecPages(cur, newCode, page);
    o := Outcome(true, ZERO, 0);
    h' := h - FramesOf(page);
    ExecDone(s, t, h, k.m.S(), k.T(), h', cur, page);
    LowIsKept(s, t, h, k.m.S(), k.T(), h');
  }

  function FramesOf(page: seq<nat>): (r: set<nat>)
    ensures r == ArgumentFrames(page, 0)
  {
    set j | 0 <= j < |page| && page[j] != 0 :: page[j]
  }

  // ---------------------------------------------------------------- the kernel's own pages

  lemma KernelDone(s: State, t: Tasks, h: set<nat>, s': State, t': Tasks, h': set<nat>)
    requires Inv(s) && Inv(s') && TasksOk(s, t) && TasksOk(s', t') && Undisturbed(s, s')
    requires HandlesOk(s, t, h) && HandlesOk(s', t', h')
    requires forall u :: 0 <= u < NR_TASKS ==> SameSpace(s, s', u)
    ensures OthersKept(AbsOf(s, t, h), AbsOf(s', t', h'), 0, 0)
  {
    KeptWider(s, s', {}, TaskDirs(0) + TaskDirs(0));
    OthersKeptBy(s, t, h, s', t', h', 0, 0);
  }

  method StepKernel(k: TaskMemory, h: set<nat>, op: Op) returns (o: Outcome, h': set<nat>)
    requires k.Valid() && HandlesOk(k.m.S(), k.T(), h) && Enabled(AbsOf(k.m.S(), k.T(), h), op)
    requires op.Reap? || op.KernelStore? || op.Fill? || op.Drop? || op.Grab?
    modifies k.m, k.m.mem, k.m.memMap, k.slot
    ensures k.Valid() && HandlesOk(k.m.S(), k.T(), h')
    ensures Next(old(AbsOf(k.m.S(), k.T(), h)), op, o, AbsOf(k.m.S(), k.T(), h'))
  {
    match op {
      case Reap(u) => o := StepReap(k, h, u); h' := h;
      case KernelStore(f, i, w) => o := StepLow(k, h, f, i, w); h' := h;
      case Fill(f, i, w) => o := StepFill(k, h, f, i, w); h' := h;
      case Drop(f) => o, h' := StepDrop(k, h, f);
      case Grab => o, h' := StepGrab(k, h);
    }
  }

  method StepReap(k: TaskMemory, ghost h: set<nat>, u: nat) returns (o: Outcome)
    requires k.Valid() && HandlesOk(k.m.S(), k.T(), h) && Enabled(AbsOf(k.m.S(), k.T(), h), Reap(u))
    modifies k.m, k.m.memMap, k.slot
    ensures k.Valid() && HandlesOk(k.m.S(), k.T(), h)
    ensures Next(old(AbsOf(k.m.S(), k.T(), h)), Reap(u), o, AbsOf(k.m.S(), k.T(), h))
  {
    ghost var s, t := k.m.S(), k.T();
    o := Outcome(true, ZERO, 0);
    k.Release(u);
    KernelDone(s, t, h, k.m.S(), k.T(), h);
    assert k.m.S().mem == s.mem;
    assert AbsOf(k.m.S(), k.T(), h).taken == AbsOf(s, t, h).taken[u := false];
  }

  method StepLow(k: TaskMemory, ghost h: set<nat>, f: nat, i: nat, w: Word) returns (o: Outcome)
    requires k.Valid() && HandlesOk(k.m.S(), k.T(), h) && Enabled(AbsOf(k.m.S(), k.T(), h), KernelStore(f, i, w))
    modifies k.m.mem
    ensures k.Valid() && HandlesOk(k.m.S(), k.T(), h)
    ensures Next(old(AbsOf(k.m.S(), k.T(), h)), KernelStore(f, i, w), o, AbsOf(k.m.S(), k.T(), h))
  {
    ghost var s, t := k.m.S(), k.T();
    o := Outcome(true, ZERO, 0);
    k.LowStore(f, i, w);
    KernelDone(s, t, h, k.m.S(), k.T(), h);
    KeptSame(s, k.m.S(), t, h);
    assert k.m.mem[..LOW] == s.mem[..LOW][f := s.mem[f][i := w]];
  }

  method StepFill(k: TaskMemory, ghost h: set<nat>, f: nat, i: nat, w: Word) returns (o: Outcome)
    requires k.Valid() && HandlesOk(k.m.S(), k.T(), h) && Enabled(AbsOf(k.m.S(), k.T(), h), Fill(f, i, w))
    modifies k.m.mem
    ensures k.Valid() && HandlesOk(k.m.S(), k.T(), h)
    ensures Next(old(AbsOf(k.m.S(), k.T(), h)), Fill(f, i, w), o, AbsOf(k.m.S(), k.T(), h))
  {
    ghost var s, t := k.m.S(), k.T();
    o := Outcome(true, ZERO, 0);
    assert f in h;
    k.FillPage(f, i, w);
    KernelDone(s, t, h, k.m.S(), k.T(), h);
    assert KeptPages(k.m.S(), h) == KeptPages(s, h)[f := s.mem[f][i := w]];
  }

  method StepDrop(k: TaskMemory, h: set<nat>, f: nat) returns (o: Outcome, h': set<nat>)
    requires k.Valid() && HandlesOk(k.m.S(), k.T(), h) && Enabled(AbsOf(k.m.S(), k.T(), h), Drop(f))
    modifies k.m, k.m.memMap
    ensures k.Valid() && HandlesOk(k.m.S(), k.T(), h')
    ensures Next(old(AbsOf(k.m.S(), k.T(), h)), Drop(f), o, AbsOf(k.m.S(), k.T(), h'))
  {
    ghost var s, t := k.m.S(), k.T();
    o := Outcome(true, ZERO, 0);
    assert f in h;
    k.DropPage(f);
    h' := h - {f};
    KernelDone(s, t, h, k.m.S(), k.T(), h');
    assert k.m.S().mem == s.mem;
    assert KeptPages(k.m.S(), h') == KeptPages(s, h) - {f};
  }

  method StepGrab(k: TaskMemory, h: set<nat>) returns (o: Outcome, h': set<nat>)
    requires k.Valid() && HandlesOk(k.m.S(), k.T(), h)
    modifies k.m, k.m.mem, k.m.memMap
    ensures k.Valid() && HandlesOk(k.m.S(), k.T(), h')
    ensures Next(old(AbsOf(k.m.S(), k.T(), h)), Grab, o, AbsOf(k.m.S(), k.T(), h'))
  {
    ghost var s, t := k.m.S(), k.T();
    var f := k.GrabPage();
    o := Outcome(f != 0, ZERO, f);
    h' := h;
    if f != 0 {
      h' := h + {f};
      GrabDone(s, t, h, k.m.S(), f, h');
    }
  }

  lemma GrabDone(s: State, t: Tasks, h: set<nat>, s': State, f: nat, h': set<nat>)
    requires Inv(s) && Inv(s') && TasksOk(s, t) && TasksOk(s', t) && HandlesOk(s, t, h) && SameKernel(s, s')
    requires f !in s.held && s'.held == s.held + {f} && LOW <= f < HIGH && s'.mem[f] == ZeroPage() && h' == h + {f}
    requires FreeFrames(s') == FreeFrames(s) - 1 && Undisturbed(s, s') && Unused(s, f)
    requires forall u :: 0 <= u < NR_TASKS ==> SameSpace(s, s', u)
    ensures HandlesOk(s', t, h')
    ensures var a, a' := AbsOf(s, t, h), AbsOf(s', t, h');
      Grabs(a, a', Outcome(true, ZERO, f)) && OthersKept(a, a', 0, 0) && LowKept(a, a')
  {
    SlotsHeld(s, t, f);
    UnusedIsFresh(s, t, h, f);
    KernelDone(s, t, h, s', t, h');
    assert KeptPages(s', h') == KeptPages(s, h)[f := ZeroPage()];
    LowIsKept(s, t, h, s', t, h');
  }

  lemma SlotsHeld(s: State, t: Tasks, f: nat)
    requires Inv(s) && TasksOk(s, t) && f !in s.held && f != 0
    ensures f !in t.slot
  {
    forall i | 0 <= i < NR_TASKS ensures t.slot[i] != f {
      if i > 0 && t.slot[i] != 0 { assert t.slot[i] in s.held; }
    }
  }

  // ---------------------------------------------------------------- whole runs

  method Step(k: TaskMemory, h: set<nat>, op: Op) returns (o: Outcome, h': set<nat>)
    requires k.Valid() && HandlesOk(k.m.S(), k.T(), h) && Enabled(AbsOf(k.m.S(), k.T(), h), op)
    modifies k.m, k.m.mem, k.m.memMap, k.slot, k.alive, k.code, k.data
    ensures k.Valid() && HandlesOk(k.m.S(), k.T(), h')
    ensures Next(old(AbsOf(k.m.S(), k.T(), h)), op, o, AbsOf(k.m.S(), k.T(), h'))
  {
    h' := h;
    match op {
      case Fork(cur, nr) => o := StepFork(k, h, cur, nr);
      case Store(cur, p, i, w) => o := StepStore(k, h, cur, p, i, w);
      case Load(cur, p, i) => o := StepLoad(k, h, cur, p, i);
      case Verify(cur, addr, size) => o := StepVerify(k, h, cur, addr, size);
      case Put(cur, p, i, w) => o := StepPut(k, h, cur, p, i, w);
      case Exec(cur, newCode, page) => o, h' := StepExec(k, h, cur, newCode, page);
      case Exit(cur) => o := StepExit(k, h, cur);
      case Reap(_) => o, h' := StepKernel(k, h, op);
      case Grab => o, h' := StepKernel(k, h, op);
      case Fill(_, _, _) => o, h' := StepKernel(k, h, op);
      case Drop(_) => o, h' := StepKernel(k, h, op);
      case KernelStore(_, _, _) => o, h' := StepKernel(k, h, op);
    }
  }

  method MayPut(k: TaskMemory, cur: nat, p: nat, ghost h: set<nat>) returns (can: bool)
    requires k.Valid() && HandlesOk(k.m.S(), k.T(), h) && 1 <= cur < NR_TASKS && p < PAGES
    ensures can <==> IsVerified(AbsOf(k.m.S(), k.T(), h), cur, p)
  {
    ghost var s := k.m.S();
    PageSplit(cur, p);
    CostsAre(s, k.T(), h, cur, p);
    var d, e := 16 * cur + p / 1024, p % 1024;
    if !k.m.mem[0][d].present || !k.m.mem[k.m.mem[0][d].frame][e].present {
      return true;
    }
    can := k.m.mem[k.m.mem[0][d].frame][e].rw;
    assert can <==> WritableAt(s, cur, p);
  }

  method HasTables(k: TaskMemory, cur: nat, ghost h: set<nat>) returns (has: bool)
    requires k.Valid() && HandlesOk(k.m.S(), k.T(), h) && 1 <= cur < NR_TASKS
    ensures has <==> AbsOf(k.m.S(), k.T(), h).tables[cur] != {}
  {
    ghost var s := k.m.S();
    var i := 0;
    while i < 16
      invariant 0 <= i <= 16 && forall k: nat :: k < i ==> !TableAt(s, cur, k)
    {
      if k.m.mem[0][16 * cur + i].present {
        assert TableAt(s, cur, i) && i in TableSet(s, cur);
        return true;
      }
      i := i + 1;
    }
    assert TableSet(s, cur) == {};
    has := false;
  }

  method AreArguments(k: TaskMemory, h: set<nat>, page: seq<nat>) returns (are: bool)
    requires k.Valid() && HandlesOk(k.m.S(), k.T(), h)
    ensures are <==> Arguments(AbsOf(k.m.S(), k.T(), h), page)
  {
    are := |page| == MAX_ARG_PAGES && (forall i | 0 <= i < |page| :: page[i] != 0 ==> page[i] in h)
      && (forall i, j | 0 <= i < j < |page| :: page[i] != 0 ==> page[i] != page[j]);
    assert forall f :: f in h ==> f in KeptPages(k.m.S(), h);
  }

  method CanPut(k: TaskMemory, ghost h: set<nat>, cur: nat, p: nat, i: nat, w: Word) returns (can: bool)
    requires k.Valid() && HandlesOk(k.m.S(), k.T(), h)
    ensures can <==> Enabled(AbsOf(k.m.S(), k.T(), h), Put(cur, p, i, w))
  {
    can := CanReach(k, cur, p, i);
    if can {
      InLimit(k.data[cur], p);
      can := MayPut(k, cur, p, h);
    }
  }

  method CanExec(k: TaskMemory, h: set<nat>, cur: nat, newCode: nat, page: seq<nat>) returns (can: bool)
    requires k.Valid() && HandlesOk(k.m.S(), k.T(), h)
    ensures can <==> Enabled(AbsOf(k.m.S(), k.T(), h), Exec(cur, newCode, page))
  {
    can := 1 <= cur < NR_TASKS && k.alive[cur] && newCode <= 0x4000000;
    if can { can := HasTables(k, cur, h); }
    if can { can := AreArguments(k, h, page); }
  }

  /** The test of Enabled, as the callers make it. */
  method CanDo(k: TaskMemory, h: set<nat>, op: Op) returns (can: bool)
    requires k.Valid() && HandlesOk(k.m.S(), k.T(), h)
    ensures can <==> Enabled(AbsOf(k.m.S(), k.T(), h), op)
  {
    assert forall f :: f in h <==> f in KeptPages(k.m.S(), h);
    match op {
      case Fork(cur, nr) => can := cur < NR_TASKS && k.alive[cur] && 1 <= nr < NR_TASKS && k.slot[nr] == 0;
      case Store(cur, p, i, _) => can := CanReach(k, cur, p, i);
      case Load(cur, p, i) => can := CanReach(k, cur, p, i);
      case Verify(cur, addr, size) =>
        can := 1 <= cur < NR_TASKS && k.alive[cur] && 0 <= size && addr + size <= k.data[cur];
      case Put(cur, p, i, w) => can := CanPut(k, h, cur, p, i, w);
      case Exec(cur, newCode, page) => can := CanExec(k, h, cur, newCode, page);
      case Exit(cur) => can := 1 <= cur < NR_TASKS && k.alive[cur];
      case Reap(t) => can := 1 <= t < NR_TASKS && !k.alive[t] && k.slot[t] != 0;
      case Grab => can := true;
      case Fill(f, i, _) => can := f in h && i < ENTRIES;
      case Drop(f) => can := f in h;
      case KernelStore(f, i, _) => can := 3 <= f < LOW && i < ENTRIES;
    }
  }

  function CanReach(k: TaskMemory, cur: nat, p: nat, i: nat): bool
    requires k.Valid()
    reads k, k.m, k.m.mem, k.m.memMap, k.slot, k.alive, k.code, k.data
  {
    1 <= cur < NR_TASKS && k.alive[cur] && p * 4096 + 4096 <= k.data[cur] && i < ENTRIES
  }

  /** Every run of the paging code is a run of the private memories: an operation fails in one exactly when
      it fails in the other, for want of frames. */
  method Run(k: TaskMemory, ops: seq<Op>) returns (os: seq<Outcome>, ghost trace: seq<Abs>, h: set<nat>)
    requires k.Valid()
    modifies k.m, k.m.mem, k.m.memMap, k.slot, k.alive, k.code, k.data
    ensures k.Valid() && HandlesOk(k.m.S(), k.T(), h)
    ensures IsRun(trace, ops, os)
    ensures trace[0] == old(AbsOf(k.m.S(), k.T(), {})) && trace[|ops|] == AbsOf(k.m.S(), k.T(), h)
  {
    os, h := [], {};
    trace := [AbsOf(k.m.S(), k.T(), h)];
    var n := 0;
    while n < |ops|
      invariant 0 <= n <= |ops|
      invariant k.Valid() && HandlesOk(k.m.S(), k.T(), h)
      invariant IsRun(trace, ops[..n], os)
      invariant trace[0] == old(AbsOf(k.m.S(), k.T(), {})) && trace[n] == AbsOf(k.m.S(), k.T(), h)
    {
      var can := CanDo(k, h, ops[n]);
      var o := Outcome(false, ZERO, 0);
      if can {
        o, h := Step(k, h, ops[n]);
      }
      ghost var a := AbsOf(k.m.S(), k.T(), h);
      assert Steps(trace[n], ops[n], o, a);
      RunExtends(trace, ops, os, n, o, a);
      trace := trace + [a];
      os := os + [o];
      n := n + 1;
    }
    assert ops[..n] == ops;
  }

  lemma RunExtends(trace: seq<Abs>, ops: seq<Op>, os: seq<Outcome>, n: nat, o: Outcome, a: Abs)
    requires n < |ops| && IsRun(trace, ops[..n], os) && Sized(a) && Steps(trace[n], ops[n], o, a)
    ensures IsRun(trace + [a], ops[..n + 1], os + [o])
  {
    var trace', ops', os' := trace + [a], ops[..n + 1], os + [o];
    forall k | 0 <= k < |ops'| ensures Steps(trace'[k], ops'[k], os'[k], trace'[k + 1]) {
      if k < n {
        assert Steps(trace[k], ops[..n][k], os[k], trace[k + 1]);
      }
    }
  }
}
