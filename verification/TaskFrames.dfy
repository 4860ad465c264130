/** How many frames each operation of a task takes, and what it gives back when it ends. */
module TaskFrames {
  import opened Counting
  import opened PagingState
  import opened PagingSteps
  import opened PagingCounts
  import opened Paging
  import opened TaskSpaces

  ghost function TaskDirs(t: nat): set<int> { Range(DIRS * t, DIRS * t + DIRS) }

  lemma InTaskDirs(t: nat, d: int)
    ensures d in TaskDirs(t) <==> DIRS * t <= d < DIRS * t + DIRS
    ensures d in TaskDirs(t) <==> d >= 0 && d / DIRS == t
  {
    if DIRS * t <= d < DIRS * t + DIRS { assert Between(d, DIRS * t, DIRS * t + DIRS); }
  }

  /** What a task would give back: its page tables, and the frames that it has alone. */
  ghost function Given(s: State, t: nat): nat
    requires Inv(s)
  {
    GivenIn(s, DIRS * t, DIRS * t + DIRS)
  }

  /** Task cur has lost its page tables, every other task has the ones it had. */
  ghost predicate TablesGone(s: State, s': State, cur: nat)
    requires Inv(s) && Inv(s')
  {
    forall d :: HasDir(s', d) <==> HasDir(s, d) && d / DIRS != cur
  }

  /** The end of an address space gives back exactly what the task had for itself, and takes no write bit
      and no frame from another task. */
  ghost predicate GaveBack(s: State, s': State, cur: nat)
    requires Inv(s) && Inv(s')
  {
    && FreeFrames(s') == FreeFrames(s) + Given(s, cur)
    && KeptOutside(s, s', TaskDirs(cur)) && TablesGone(s, s', cur)
  }

  /** What one free_page_tables did to the first n directories of task cur. */
  ghost predicate SegmentFreed(s: State, s': State, cur: nat, n: nat)
    requires Inv(s) && Inv(s')
  {
    && FreedTo(s, s', DIRS * cur, DIRS * cur + n) && SameOutside(s, s', DIRS * cur, DIRS * cur + n)
    && forall d :: DIRS * cur <= d < DIRS * cur + n ==> !HasDir(s', d)
  }

  /** free_page_tables on the code segment and then on the data segment, which contains it. */
  lemma FreedTwice(s0: State, s1: State, s2: State, t: Tasks, cur: nat, n1: nat, n2: nat)
    requires Inv(s0) && Inv(s1) && Inv(s2) && TasksOk(s0, t) && 1 <= cur < NR_TASKS
    requires n1 <= n2 == DirsOf(t.data[cur])
    requires SegmentFreed(s0, s1, cur, n1) && SegmentFreed(s1, s2, cur, n2)
    ensures GaveBack(s0, s2, cur)
  {
    NothingBeyond(s0, t, cur, n2);
    AllGone(s0, s1, s2, t, cur, n1, n2);
    BothFreed(s0, s1, s2, cur, n1, n2);
  }

  lemma BothFreed(s0: State, s1: State, s2: State, cur: nat, n1: nat, n2: nat)
    requires Inv(s0) && Inv(s1) && Inv(s2) && 1 <= cur < NR_TASKS && n1 <= n2 <= DIRS
    requires SegmentFreed(s0, s1, cur, n1) && SegmentFreed(s1, s2, cur, n2) && TablesGone(s0, s2, cur)
    requires Given(s0, cur) == GivenIn(s0, DIRS * cur, DIRS * cur + n2)
    ensures GaveBack(s0, s2, cur)
  {
    GivenTwice(s0, s1, s2, cur, n1, n2);
    KeptTwice(s0, s1, s2, cur, n1, n2);
  }

  lemma GivenTwice(s0: State, s1: State, s2: State, cur: nat, n1: nat, n2: nat)
    requires Inv(s0) && Inv(s1) && Inv(s2) && 1 <= cur < NR_TASKS && n1 <= n2 <= DIRS
    requires SegmentFreed(s0, s1, cur, n1) && SegmentFreed(s1, s2, cur, n2)
    ensures FreeFrames(s2) == FreeFrames(s0) + GivenIn(s0, DIRS * cur, DIRS * cur + n2)
  {
    FirstPart(s0, s1, cur, n1, n2);
    SecondPart(s1, s2, cur, n2);
  }

  lemma DirsGrow(a: nat, b: nat)
    requires a <= b <= 0x4000000
    ensures DirsOf(a) <= DirsOf(b) <= DIRS
  {
  }

  lemma AllGone(s0: State, s1: State, s2: State, t: Tasks, cur: nat, n1: nat, n2: nat)
    requires Inv(s0) && Inv(s1) && Inv(s2) && TasksOk(s0, t) && 1 <= cur < NR_TASKS
    requires n1 <= n2 == DirsOf(t.data[cur]) <= DIRS
    requires SegmentFreed(s0, s1, cur, n1) && SegmentFreed(s1, s2, cur, n2)
    ensures TablesGone(s0, s2, cur)
  {
    forall d ensures HasDir(s2, d) <==> HasDir(s0, d) && d / DIRS != cur {
      if UserDir(d) {
        assert d == DIRS * (d / DIRS) + d % DIRS;
        if !(DIRS * cur <= d < DIRS * cur + n2) { assert SameDir(s0, s1, d) && SameDir(s1, s2, d); }
      }
    }
  }

  lemma KeptTwice(s0: State, s1: State, s2: State, cur: nat, n1: nat, n2: nat)
    requires Inv(s0) && Inv(s1) && Inv(s2) && n1 <= DIRS && n2 <= DIRS
    requires SegmentFreed(s0, s1, cur, n1) && SegmentFreed(s1, s2, cur, n2)
    ensures KeptOutside(s0, s2, TaskDirs(cur))
  {
    RangeGrows(DIRS * cur, DIRS * cur + n1, DIRS * cur + DIRS);
    RangeGrows(DIRS * cur, DIRS * cur + n2, DIRS * cur + DIRS);
    KeptWider(s0, s1, Range(DIRS * cur, DIRS * cur + n1), TaskDirs(cur));
    KeptWider(s1, s2, Range(DIRS * cur, DIRS * cur + n2), TaskDirs(cur));
    KeptTrans(s0, s1, s2, TaskDirs(cur));
  }

  lemma RangeGrows(lo: int, mid: int, hi: int)
    requires mid <= hi
    ensures Range(lo, mid) <= Range(lo, hi)
  {
    forall d | d in Range(lo, mid) ensures d in Range(lo, hi) {
      assert Between(d, lo, hi);
    }
  }

  lemma TablesLeft(s0: State, s1: State, lo: int, mid: int, hi: int)
    requires Inv(s0) && Inv(s1) && SameOutside(s0, s1, lo, mid) && lo <= mid <= hi
    requires forall d :: lo <= d < mid ==> !HasDir(s1, d)
    ensures |TablesIn(s1, lo, hi)| + |TablesIn(s0, lo, mid)| == |TablesIn(s0, lo, hi)|
  {
    TablesSplit(s0, lo, mid, hi);
    TablesSplit(s1, lo, mid, hi);
    assert TablesIn(s1, lo, mid) == {};
    forall d | mid <= d < hi ensures HasDir(s1, d) <==> HasDir(s0, d) {
      if UserDir(d) { assert SameDir(s0, s1, d); }
    }
    assert TablesIn(s1, mid, hi) == TablesIn(s0, mid, hi);
  }

  lemma AloneLeft(s0: State, s1: State, cur: nat, n1: nat, n2: nat)
    requires Inv(s0) && Inv(s1) && n1 <= n2 <= DIRS && 1 <= cur < NR_TASKS
    requires KeptOutside(s0, s1, Range(DIRS * cur, DIRS * cur + n1))
    requires NoNewOutside(s0, s1, cur, Range(DIRS * cur, DIRS * cur + n1))
    requires forall d :: DIRS * cur <= d < DIRS * cur + n1 ==> !HasDir(s1, d)
    ensures var lo := DIRS * cur;
      |AloneNos(s1, ENTRIES * lo, ENTRIES * (lo + n2))| + |AloneNos(s0, ENTRIES * lo, ENTRIES * (lo + n1))|
      == |AloneNos(s0, ENTRIES * lo, ENTRIES * (lo + n2))|
  {
    var lo := DIRS * cur;
    NoneAlone(s1, lo, lo + n1);
    RestAlone(s0, s1, cur, n1, n2);
    AloneSum(s0, s1, ENTRIES * lo, ENTRIES * (lo + n1), ENTRIES * (lo + n2));
  }

  lemma AloneSum(s0: State, s1: State, a: int, b: int, c: int)
    requires Inv(s0) && Inv(s1) && a <= b <= c && AloneNos(s1, a, b) == {} && AloneNos(s1, b, c) == AloneNos(s0, b, c)
    ensures |AloneNos(s1, a, c)| + |AloneNos(s0, a, b)| == |AloneNos(s0, a, c)|
  {
    AloneSplit(s0, a, b, c);
    AloneSplit(s1, a, b, c);
  }

  lemma RestAlone(s0: State, s1: State, cur: nat, n1: nat, n2: nat)
    requires Inv(s0) && Inv(s1) && n1 <= n2 <= DIRS && 1 <= cur < NR_TASKS
    requires KeptOutside(s0, s1, Range(DIRS * cur, DIRS * cur + n1))
    requires NoNewOutside(s0, s1, cur, Range(DIRS * cur, DIRS * cur + n1))
    ensures var lo := DIRS * cur;
      AloneNos(s1, ENTRIES * (lo + n1), ENTRIES * (lo + n2)) == AloneNos(s0, ENTRIES * (lo + n1), ENTRIES * (lo + n2))
  {
    var lo := DIRS * cur;
    forall d, e | Slot(d, e) && lo + n1 <= d < lo + n2 ensures Alone(s1, d, e) <==> Alone(s0, d, e) {
      SixteenPlus(cur, d - lo);
      assert d !in Range(lo, lo + n1) && BitsKept(s0, s1, d, e);
    }
    AloneSame(s0, s1, lo + n1, lo + n2);
  }

  /** What the second call finds is what the first has left. */
  lemma FirstPart(s0: State, s1: State, cur: nat, n1: nat, n2: nat)
    requires Inv(s0) && Inv(s1) && n1 <= n2 <= DIRS && 1 <= cur < NR_TASKS && SegmentFreed(s0, s1, cur, n1)
    ensures var lo := DIRS * cur;
      FreeFrames(s1) + GivenIn(s1, lo, lo + n2) == FreeFrames(s0) + GivenIn(s0, lo, lo + n2)
  {
    TablesLeft(s0, s1, DIRS * cur, DIRS * cur + n1, DIRS * cur + n2);
    AloneLeft(s0, s1, cur, n1, n2);
  }

  lemma SecondPart(s: State, s': State, cur: nat, n: nat)
    requires Inv(s) && Inv(s') && SegmentFreed(s, s', cur, n)
    ensures FreeFrames(s') == FreeFrames(s) + GivenIn(s, DIRS * cur, DIRS * cur + n)
  {
  }

  lemma NoneAlone(s: State, lo: int, hi: int)
    requires Inv(s) && forall d :: lo <= d < hi ==> !HasDir(s, d)
    ensures AloneNos(s, ENTRIES * lo, ENTRIES * hi) == {}
  {
    forall n | ENTRIES * lo <= n < ENTRIES * hi ensures !AloneNo(s, n) {
      assert lo <= n / ENTRIES < hi;
    }
  }

  /** A task has no page table beyond its limit. */
  lemma NothingBeyond(s: State, t: Tasks, cur: nat, n: nat)
    requires Inv(s) && TasksOk(s, t) && 1 <= cur < NR_TASKS && n == DirsOf(t.data[cur])
    ensures n <= DIRS && Given(s, cur) == GivenIn(s, DIRS * cur, DIRS * cur + n)
  {
    var lo := DIRS * cur;
    DirsGrow(t.data[cur], t.data[cur]);
    forall d | lo + n <= d < lo + DIRS ensures !HasDir(s, d) {
      SixteenPlus(cur, d - lo);
    }
    GivenUpTo(s, lo, lo + n, lo + DIRS);
  }

  lemma GivenUpTo(s: State, lo: int, mid: int, hi: int)
    requires Inv(s) && lo <= mid <= hi && forall d :: mid <= d < hi ==> !HasDir(s, d)
    ensures GivenIn(s, lo, hi) == GivenIn(s, lo, mid)
  {
    GivenSplit(s, lo, mid, hi);
    assert TablesIn(s, mid, hi) == {};
    NoneAlone(s, mid, hi);
  }

  // ---------------------------------------------------------------- what an access takes

  /** A load of a missing page takes a frame, and one more if there is no page table. */
  ghost function LoadNeeds(s: State, d: int, e: int): nat
    requires Inv(s)
  {
    if !HasDir(s, d) then 2 else if !Mapped(s, d, e) then 1 else 0
  }

  /** Making a present page writable takes a frame unless the page has its own alone. */
  ghost function VerifyNeeds(s: State, d: int, e: int): nat
    requires Inv(s)
  {
    if Mapped(s, d, e) && !Alone(s, d, e) then 1 else 0
  }

  ghost function StoreNeeds(s: State, d: int, e: int): nat
    requires Inv(s)
  {
    LoadNeeds(s, d, e) + VerifyNeeds(s, d, e)
  }

  /** The page tables of every directory but d are as before. */
  ghost predicate OtherTablesSame(s: State, s': State, d: int)
    requires Inv(s) && Inv(s')
  {
    forall d' :: d' != d ==> SameDir(s, s', d')
  }

  ghost predicate OtherPagesSame(s: State, s': State, d: int, e: int)
    requires Inv(s) && Inv(s')
  {
    forall d', e' :: Slot(d', e') && !(d' == d && e' == e) ==> SamePage(s, s', d', e')
  }

  /** An access of a task that went well: it took `needs` frames, left (d, e) mapped, on a frame nobody owned if
      it took any, and no other page of anybody different or without its write bit or its frame. */
  ghost predicate Took(s: State, s': State, d: int, e: int, needs: nat)
    requires Inv(s) && Inv(s')
  {
    && FreeFrames(s') == FreeFrames(s) - needs && KeptOutside(s, s', {})
    && Mapped(s', d, e) && FrameBy(s, s', d, e, needs > 0)
    && OtherTablesSame(s, s', d) && OtherPagesSame(s, s', d, e)
  }

  lemma TookThenKept(s0: State, s1: State, s2: State, d: int, e: int, needs: nat)
    requires Inv(s0) && Inv(s1) && Inv(s2) && Took(s0, s1, d, e, needs) && OnlyPage(s1, s2, d, e)
    requires FreeFrames(s2) == FreeFrames(s1) && KeptOutside(s1, s2, {})
    requires Mapped(s2, d, e) && FrameAt(s2, d, e) == FrameAt(s1, d, e)
    ensures Took(s0, s2, d, e, needs)
  {
    KeptTrans(s0, s1, s2, {});
    forall d' | d' != d ensures SameDir(s0, s2, d') {
      assert SameDir(s0, s1, d') && SameDir(s1, s2, d');
    }
    forall d', e' | Slot(d', e') && !(d' == d && e' == e) ensures SamePage(s0, s2, d', e') {
      assert SamePage(s0, s1, d', e') && SamePage(s1, s2, d', e');
    }
  }

  /** The end of a task that found no frame: what is free afterwards is what the task had for itself.  The
      frame that do_no_page may have taken before stays taken. */
  ghost predicate EndedShort(s: State, s': State, cur: nat)
    requires Inv(s) && Inv(s')
  {
    FreeFrames(s') == Given(s, cur) && KeptOutside(s, s', TaskDirs(cur)) && TablesGone(s, s', cur)
  }

  lemma GaveBackLater(s0: State, s1: State, s2: State, cur: nat)
    requires Inv(s0) && Inv(s1) && Inv(s2) && GaveBack(s1, s2, cur) && KeptOutside(s0, s1, {})
    requires (forall d :: SameDir(s0, s1, d)) && NoNew(s0, s1) && FreeFrames(s1) == 0
    ensures EndedShort(s0, s2, cur)
  {
    KeptWider(s0, s1, {}, TaskDirs(cur));
    KeptTrans(s0, s1, s2, TaskDirs(cur));
    forall d ensures HasDir(s1, d) <==> HasDir(s0, d) { assert SameDir(s0, s1, d); }
    assert TablesIn(s1, DIRS * cur, DIRS * cur + DIRS) == TablesIn(s0, DIRS * cur, DIRS * cur + DIRS);
    forall d, e | Slot(d, e) ensures Alone(s1, d, e) <==> Alone(s0, d, e) { assert BitsKept(s0, s1, d, e); }
    AloneSame(s0, s1, DIRS * cur, DIRS * cur + DIRS);
  }

  // ---------------------------------------------------------------- fork

  /** A fork takes a frame for the task structure and one for every page table of the parent. */
  ghost function ForkNeeds(s: State, cur: nat): nat
    requires Inv(s)
  {
    1 + (if cur == 0 then 1 else |TablesIn(s, DIRS * cur, DIRS * cur + DIRS)|)
  }

  /** The child has a page table where its parent has one, every other task has the ones it had. */
  ghost predicate ChildTables(s: State, s': State, cur: nat, nr: nat)
    requires Inv(s) && Inv(s') && cur < NR_TASKS
  {
    && (forall d :: d / DIRS != nr ==> (HasDir(s', d) <==> HasDir(s, d)))
    && (forall k :: 0 <= k < DIRS ==> (TableAt(s', nr, k) <==> TableAt(s, cur, k)))
  }

  /** Task t has its k-th page table; task 0 counts with the one that it lends. */
  ghost predicate TableAt(s: State, t: nat, k: nat)
    requires Inv(s)
  {
    if t == 0 then k == 0 else HasDir(s, DIRS * t + k)
  }

  /** No page of either task is writable, and none has its frame alone. */
  ghost predicate ReadOnlySpaces(s: State, t: nat, u: nat)
    requires Inv(s)
  {
    forall p: nat :: p < PAGES ==> PagePair(s, t, u, p)
  }

  ghost predicate PagePair(s: State, t: nat, u: nat, p: nat)
    requires Inv(s)
  {
    ReadOnlyPair(s, DirOf(t, p), DirOf(u, p), p % ENTRIES)
  }

  lemma SameFramesReadOnly(s: State, t: nat, u: nat)
    requires Inv(s) && t < NR_TASKS && 1 <= u < NR_TASKS && t != u && Frames(s, t) == Frames(s, u)
    ensures ReadOnlySpaces(s, t, u)
  {
    forall p: nat | p < PAGES ensures PagePair(s, t, u, p) {
      PageSplit(t, p);
      PageSplit(u, p);
      var d, d2, e := DirOf(t, p), DirOf(u, p), p % ENTRIES;
      assert Frames(s, t)[p] == Frames(s, u)[p];
      if t > 0 && Mapped(s, d2, e) { SharedFrame(s, d, d2, e); }
    }
  }

  /** The child has its parent's pages, on the same frames and for neither to write, and nobody but the two lost
      a write bit or a frame of its own. */
  ghost predicate ForkedSpace(s: State, s': State, cur: nat, nr: nat)
    requires Inv(s) && Inv(s') && cur < NR_TASKS && nr < NR_TASKS
  {
    && OthersSame(s, s', nr) && ChildTables(s, s', cur, nr)
    && Space(s', nr) == Space(s, cur) && Frames(s', nr) == Frames(s, cur) && ReadOnlySpaces(s', cur, nr)
    && FreeFrames(s') == FreeFrames(s) - ForkNeeds(s, cur) && KeptOutside(s, s', TaskDirs(cur) + TaskDirs(nr))
  }

  /** Page p of the child, by the words of the page tables: the parent's word without the write bit; of task 0
      the child gets only the first 160 pages. */
  ghost predicate PageCopied(s: State, s': State, cur: nat, nr: nat, p: nat)
    requires Inv(s) && Inv(s') && cur < NR_TASKS && p < PAGES
  {
    var w, d2, e := WordAt(s, 16 * cur + p / 1024, p % 1024), 16 * nr + p / 1024, p % 1024;
    if w.present && (cur == 0 ==> p < 160) then Mapped(s', d2, e) && Pte(s', d2, e) == w.(rw := false)
    else !Mapped(s', d2, e)
  }

  /** Page p of a child of task 0: frame p of the low memory, for reading, and nothing from page 160 on. */
  ghost predicate PageLent(s: State, nr: nat, p: nat)
    requires Inv(s)
  {
    if p < 160 then LentEntry(s, 16 * nr, p) else !Mapped(s, 16 * nr + p / 1024, p % 1024)
  }

  /** What copy_page_tables did to the words of the first n page tables. */
  ghost predicate EntriesCopied(s: State, s': State, cur: nat, nr: nat, n: nat)
    requires Inv(s) && Inv(s')
  {
    forall k: nat, e: nat :: k < n && e < ENTRIES ==> EntryCopied(s, s', 16 * cur, 16 * nr, k, e)
  }

  /** A failed fork: everything is as it was, but that the parent may have lost write bits. */
  ghost predicate NotForked(s: State, s': State, cur: nat, nr: nat)
    requires Inv(s) && Inv(s') && nr < NR_TASKS
  {
    && (forall u :: 0 <= u < NR_TASKS ==> SameSpace(s, s', u)) && (forall d :: HasDir(s', d) <==> HasDir(s, d))
    && FreeFrames(s') == FreeFrames(s) && KeptOutside(s, s', TaskDirs(cur) + TaskDirs(nr))
  }

  /** What copy_mem did to the first n directories. */
  ghost predicate MemCopied(s: State, s': State, cur: nat, nr: nat, n: nat)
    requires Inv(s) && Inv(s') && cur < NR_TASKS && nr < NR_TASKS
  {
    && SameOutside(s, s', DIRS * nr, DIRS * nr + n)
    && Space(s', nr) == Space(s, cur) && Frames(s', nr) == Frames(s, cur) && ReadOnlySpaces(s', cur, nr)
    && FreeFrames(s') == FreeFrames(s) - Sources(s, DIRS * cur, n) && DirsInherited(s, s', DIRS * cur, DIRS * nr, n)
    && KeptOutside(s, s', TaskDirs(cur) + TaskDirs(nr))
  }

  ghost predicate MemNotCopied(s: State, s': State, cur: nat, nr: nat, n: nat)
    requires Inv(s) && Inv(s')
  {
    && SameOutside(s, s', DIRS * nr, DIRS * nr + n) && s'.count == s.count
    && (forall d :: DIRS * nr <= d < DIRS * nr + n ==> !HasDir(s', d))
    && KeptOutside(s, s', TaskDirs(cur) + TaskDirs(nr))
  }

  lemma SourcesAre(s0: State, s1: State, t: Tasks, cur: nat)
    requires Inv(s0) && Inv(s1) && TasksOk(s0, t) && cur < NR_TASKS && forall d :: SameDir(s0, s1, d)
    ensures 1 + Sources(s1, DIRS * cur, DirsOf(t.data[cur])) == ForkNeeds(s0, cur)
  {
    var lo, n := DIRS * cur, DirsOf(t.data[cur]);
    if cur > 0 {
      forall d ensures HasDir(s1, d) <==> HasDir(s0, d) { assert SameDir(s0, s1, d); }
      forall d | lo <= d < lo + DIRS && HasDir(s0, d) ensures d < lo + n {
        SixteenPlus(cur, d - lo);
      }
      DirsGrow(t.data[cur], t.data[cur]);
      assert TablesIn(s1, lo, lo + n) == TablesIn(s0, lo, lo + DIRS);
    }
  }

  lemma ForkedTables(s0: State, s1: State, s2: State, t: Tasks, cur: nat, nr: nat, n: nat)
    requires Inv(s0) && Inv(s1) && Inv(s2) && TasksOk(s0, t) && cur < NR_TASKS && 1 <= nr < NR_TASKS && cur != nr
    requires n == DirsOf(t.data[cur]) && !t.alive[nr] && KernelMapped(s1)
    requires (forall d :: SameDir(s0, s1, d)) && SameOutside(s1, s2, DIRS * nr, DIRS * nr + n)
    requires DirsInherited(s1, s2, DIRS * cur, DIRS * nr, n)
    ensures ChildTables(s0, s2, cur, nr)
  {
    DirsGrow(t.data[cur], t.data[cur]);
    forall d | d / DIRS != nr ensures HasDir(s2, d) <==> HasDir(s0, d) {
      if UserDir(d) {
        assert d == DIRS * (d / DIRS) + d % DIRS;
        assert SameDir(s0, s1, d) && SameDir(s1, s2, d);
      }
    }
    forall k: nat | k < DIRS ensures TableAt(s2, nr, k) <==> TableAt(s0, cur, k) {
      ChildTable(s0, s1, s2, t, cur, nr, n, k);
    }
  }

  lemma ChildTable(s0: State, s1: State, s2: State, t: Tasks, cur: nat, nr: nat, n: nat, k: nat)
    requires Inv(s0) && Inv(s1) && Inv(s2) && TasksOk(s0, t) && cur < NR_TASKS && 1 <= nr < NR_TASKS && cur != nr
    requires n == DirsOf(t.data[cur]) <= DIRS && !t.alive[nr] && KernelMapped(s1) && k < DIRS
    requires (forall d :: SameDir(s0, s1, d)) && SameOutside(s1, s2, DIRS * nr, DIRS * nr + n)
    requires DirsInherited(s1, s2, DIRS * cur, DIRS * nr, n)
    ensures TableAt(s2, nr, k) <==> TableAt(s0, cur, k)
  {
    SixteenPlus(nr, k);
    SixteenPlus(cur, k);
    var d, d2 := DIRS * cur + k, DIRS * nr + k;
    assert SameDir(s0, s1, d) && SameDir(s0, s1, d2);
    assert d2 - DIRS * nr + DIRS * cur == d;
    if k >= n { assert SameDir(s1, s2, d2); }
  }

  lemma CopyWider(s: State, s': State, cur: nat, nr: nat, n: nat)
    requires Inv(s) && Inv(s') && n <= DIRS
    requires KeptOutside(s, s', Range(DIRS * cur, DIRS * cur + n) + Range(DIRS * nr, DIRS * nr + n))
    ensures KeptOutside(s, s', TaskDirs(cur) + TaskDirs(nr))
  {
    RangeGrows(DIRS * cur, DIRS * cur + n, DIRS * cur + DIRS);
    RangeGrows(DIRS * nr, DIRS * nr + n, DIRS * nr + DIRS);
    KeptWider(s, s', Range(DIRS * cur, DIRS * cur + n) + Range(DIRS * nr, DIRS * nr + n), TaskDirs(cur) + TaskDirs(nr));
  }

  lemma FreeWider(s0: State, s: State, s': State, cur: nat, nr: nat, n: nat)
    requires Inv(s0) && Inv(s) && Inv(s') && n <= DIRS && KeptOutside(s0, s, TaskDirs(cur) + TaskDirs(nr))
    requires KeptOutside(s, s', Range(DIRS * nr, DIRS * nr + n))
    ensures KeptOutside(s0, s', TaskDirs(cur) + TaskDirs(nr))
  {
    RangeGrows(DIRS * nr, DIRS * nr + n, DIRS * nr + DIRS);
    KeptWider(s, s', Range(DIRS * nr, DIRS * nr + n), TaskDirs(cur) + TaskDirs(nr));
    KeptTrans(s0, s, s', TaskDirs(cur) + TaskDirs(nr));
  }

  // ---------------------------------------------------------------- exec and the kernel's own pages

  /** No page table came or went, and nobody lost a write bit or a frame of its own. */
  ghost predicate Undisturbed(s: State, s': State)
    requires Inv(s) && Inv(s')
  {
    KeptOutside(s, s', {}) && forall d :: HasDir(s', d) <==> HasDir(s, d)
  }

  /** There is an argument page from number i on. */
  ghost predicate ArgsFrom(page: seq<nat>, i: nat) { exists j :: i <= j < |page| && page[j] != 0 }

  /** How far change_ldt has got: one page table for all argument pages, and each of them writable. */
  ghost predicate Placed(s0: State, s: State, cur: nat, page: seq<nat>, i: nat)
    requires Inv(s0) && Inv(s)
  {
    && FreeFrames(s) == FreeFrames(s0) - One(ArgsFrom(page, i)) && KeptOutside(s0, s, {})
    && (forall d :: HasDir(s, d) <==> HasDir(s0, d) || (ArgsFrom(page, i) && d == DIRS * cur + 15))
    && (forall j :: i <= j < |page| && page[j] != 0 ==> Writable(s, DIRS * cur + 15, ENTRIES - |page| + j))
  }

  lemma NothingPlaced(s: State, cur: nat, page: seq<nat>)
    requires Inv(s)
    ensures Placed(s, s, cur, page, |page|)
  {
  }

  lemma PlacedSkip(s0: State, s: State, cur: nat, page: seq<nat>, i: nat)
    requires Inv(s0) && Inv(s) && i < |page| && Placed(s0, s, cur, page, i + 1)
    ensures page[i] == 0 ==> Placed(s0, s, cur, page, i)
  {
    if page[i] == 0 {
      assert ArgsFrom(page, i) <==> ArgsFrom(page, i + 1);
    }
  }

  lemma PlacedMore(s0: State, s: State, s': State, cur: nat, page: seq<nat>, i: nat)
    requires Inv(s0) && Inv(s) && Inv(s') && i < |page| <= ENTRIES && Placed(s0, s, cur, page, i + 1) && page[i] != 0
    requires 1 <= cur < NR_TASKS && !HasDir(s0, DIRS * cur + 15)
    requires FreeFrames(s') == FreeFrames(s) - One(!HasDir(s, DIRS * cur + 15)) && KeptOutside(s, s', {})
    requires OtherTablesSame(s, s', DIRS * cur + 15) && Writable(s', DIRS * cur + 15, ENTRIES - |page| + i)
    ensures Placed(s0, s', cur, page, i)
  {
    KeptTrans(s0, s, s', {});
    assert ArgsFrom(page, i);
    forall d ensures HasDir(s', d) <==> HasDir(s0, d) || d == DIRS * cur + 15 {
      if d != DIRS * cur + 15 { assert SameDir(s, s', d); }
    }
    forall j | i <= j < |page| && page[j] != 0 ensures Writable(s', DIRS * cur + 15, ENTRIES - |page| + j) {
      assert j > i ==> BitsKept(s, s', DIRS * cur + 15, ENTRIES - |page| + j);
    }
  }

  /** An exec: the task gives back what it had and gets one page table for its argument pages. */
  ghost predicate Replaced(s0: State, s: State, cur: nat, page: seq<nat>)
    requires Inv(s0) && Inv(s)
  {
    && FreeFrames(s) == FreeFrames(s0) + Given(s0, cur) - One(ArgsFrom(page, 0))
    && KeptOutside(s0, s, TaskDirs(cur))
    && (forall d :: HasDir(s, d) <==>
          (HasDir(s0, d) && d / DIRS != cur) || (ArgsFrom(page, 0) && d == DIRS * cur + 15))
    && (forall j :: 0 <= j < |page| && page[j] != 0 ==> Writable(s, DIRS * cur + 15, ENTRIES - |page| + j))
  }

  lemma ReplacedBy(s0: State, s1: State, s2: State, cur: nat, page: seq<nat>)
    requires Inv(s0) && Inv(s1) && Inv(s2) && GaveBack(s0, s1, cur) && Placed(s1, s2, cur, page, 0)
    ensures Replaced(s0, s2, cur, page)
  {
    KeptWider(s1, s2, {}, TaskDirs(cur));
    KeptTrans(s0, s1, s2, TaskDirs(cur));
  }

  // ---------------------------------------------------------------- verify_area

  /** One turn of write_verify that went well: only the page (d, e) may have changed, by becoming a private
      copy of what it was. */
  ghost predicate Secured(s: State, s': State, d: int, e: int)
    requires Inv(s) && Inv(s')
  {
    && FreeFrames(s') == FreeFrames(s) - VerifyNeeds(s, d, e) && KeptOutside(s, s', {}) && NoNewBut(s, s', d, e)
    && OnlyPage(s, s', d, e) && NoneFreed(s, s') && FrameBy(s, s', d, e, VerifyNeeds(s, d, e) > 0)
    && (if Mapped(s, d, e) then Writable(s', d, e) && PageView(s', d, e) == Privatize(s, d, e) else s' == s)
  }

  /** The k-th linear address verify_area looks at; it wraps at 32 bits. */
  ghost function VerifyAddress(cur: nat, addr: nat, k: nat): (a: nat)
    ensures a < 0x1_0000_0000
  {
    if k == 0 then (addr - addr % 4096 + cur * 0x4000000) % 0x1_0000_0000
    else (VerifyAddress(cur, addr, k - 1) + 4096) % 0x1_0000_0000
  }

  /** The page at a linear address. */
  ghost predicate SecuredAt(s: State, s': State, address: nat)
    requires Inv(s) && Inv(s')
  {
    Secured(s, s', address / 0x400000, address / 4096 % 1024)
  }

  ghost predicate NeedyAt(s: State, address: nat)
    requires Inv(s)
  {
    VerifyNeeds(s, address / 0x400000, address / 4096 % 1024) == 1
  }

  /** The area lies in the segment. */
  ghost predicate InSegment(addr: nat, size: int, limit: nat) { 0 <= size && addr + size <= limit }

  function FirstPage(addr: nat): nat { addr / 4096 }

  /** The page behind the last one that verify_area looks at. */
  function AreaEnd(addr: nat, size: int): nat
    requires size >= 0
  {
    FirstPage(addr) + (addr % 4096 + size + 4095) / 4096
  }

  ghost predicate NeedyPage(s: State, t: nat, p: nat)
    requires Inv(s)
  {
    VerifyNeeds(s, DirOf(t, p), p % ENTRIES) == 1
  }

  /** The pages from lo to hi that take a frame to make them writable. */
  ghost function Needy(s: State, t: nat, lo: nat, hi: nat): set<nat>
    requires Inv(s)
  {
    set p: nat | lo <= p < hi && NeedyPage(s, t, p)
  }

  lemma NeedySplit(s: State, t: nat, lo: nat, mid: nat, hi: nat)
    requires Inv(s) && lo <= mid <= hi
    ensures |Needy(s, t, lo, hi)| == |Needy(s, t, lo, mid)| + |Needy(s, t, mid, hi)|
  {
    assert Needy(s, t, lo, hi) == Needy(s, t, lo, mid) + Needy(s, t, mid, hi);
  }

  lemma NeedyOne(s: State, t: nat, p: nat)
    requires Inv(s)
    ensures |Needy(s, t, p, p + 1)| == VerifyNeeds(s, DirOf(t, p), p % ENTRIES)
  {
    assert Needy(s, t, p, p + 1) == if NeedyPage(s, t, p) then {p} else {};
  }

  /** A low page becomes a copy, any other keeps its contents. */
  ghost function MadeOwn(v: View, mem: seq<Page>): View {
    if v.Low? && v.frame < |mem| then Own(mem[v.frame]) else v
  }

  /** The kernel may store at the page: it is absent, or it is writable. */
  ghost predicate PageVerified(s: State, t: nat, p: nat)
    requires Inv(s)
  {
    Mapped(s, DirOf(t, p), p % ENTRIES) ==> Writable(s, DirOf(t, p), p % ENTRIES)
  }

  /** Page p has its frame still, or a new one if it lies in the part that is through and was shared. */
  ghost predicate AreaFrame(s0: State, s: State, t: nat, p: nat, lo: nat, k: nat)
    requires Inv(s0) && Inv(s)
  {
    FrameBy(s0, s, DirOf(t, p), p % ENTRIES, lo <= p < k && NeedyPage(s0, t, p))
  }

  ghost predicate AreaFrames(s0: State, s: State, t: nat, lo: nat, k: nat)
    requires Inv(s0) && Inv(s)
  {
    && NoneFreed(s0, s) && (forall p: nat :: p < PAGES ==> AreaFrame(s0, s, t, p, lo, k))
    && (forall p: nat :: p < PAGES && !(lo <= p < k) && WritableAt(s, t, p) ==> WritableAt(s0, t, p))
  }

  ghost predicate AreaSpaces(s0: State, s: State, t: nat, lo: nat, k: nat)
    requires Inv(s0) && Inv(s) && t < NR_TASKS
  {
    && OthersSame(s0, s, t) && AreaFrames(s0, s, t, lo, k)
    && (forall p :: 0 <= p < PAGES ==>
          Space(s, t)[p] == if lo <= p < k then MadeOwn(Space(s0, t)[p], s0.mem) else Space(s0, t)[p])
  }

  ghost predicate AreaBits(s0: State, s: State, t: nat, lo: nat, k: nat)
    requires Inv(s0) && Inv(s)
  {
    && KeptOutside(s0, s, {}) && (forall d :: SameDir(s0, s, d))
    && (forall p :: lo <= p < k ==> PageVerified(s, t, p))
    && (forall p :: k <= p < PAGES ==> (NeedyPage(s, t, p) <==> NeedyPage(s0, t, p)))
  }

  /** What verify_area has done when the pages of task t from lo to k are through: they are the task's own
      and writable, nobody sees or loses anything else, and every frame it took is now the task's alone. */
  ghost predicate Area(s0: State, s: State, t: nat, lo: nat, k: nat)
    requires Inv(s0) && Inv(s) && t < NR_TASKS
  {
    && FreeFrames(s) == FreeFrames(s0) - |Needy(s0, t, lo, k)|
    && FreeFrames(s) + Given(s, t) == FreeFrames(s0) + Given(s0, t)
    && AreaSpaces(s0, s, t, lo, k) && AreaBits(s0, s, t, lo, k)
  }

  lemma NoArea(s: State, t: nat, lo: nat)
    requires Inv(s) && t < NR_TASKS
    ensures Area(s, s, t, lo, lo)
  {
    assert Needy(s, t, lo, lo) == {};
  }

  lemma AreaMore(s0: State, s: State, s': State, t: nat, lo: nat, k: nat)
    requires Inv(s0) && Inv(s) && Inv(s') && 1 <= t < NR_TASKS && lo <= k < PAGES && Area(s0, s, t, lo, k)
    requires Secured(s, s', DirOf(t, k), k % ENTRIES) && forall f :: 0 <= f < LOW ==> s.mem[f] == s0.mem[f]
    ensures Area(s0, s', t, lo, k + 1)
  {
    NeedySplit(s0, t, lo, k, k + 1);
    NeedyOne(s0, t, k);
    assert NeedyPage(s, t, k) <==> NeedyPage(s0, t, k);
    SpacesMore(s0, s, s', t, lo, k);
    BitsMore(s0, s, s', t, lo, k);
    GivenMore(s, s', t, k);
  }

  lemma SpacesMore(s0: State, s: State, s': State, t: nat, lo: nat, k: nat)
    requires Inv(s0) && Inv(s) && Inv(s') && 1 <= t < NR_TASKS && lo <= k < PAGES && AreaSpaces(s0, s, t, lo, k)
    requires Secured(s, s', DirOf(t, k), k % ENTRIES) && forall f :: 0 <= f < LOW ==> s.mem[f] == s0.mem[f]
    requires NeedyPage(s, t, k) <==> NeedyPage(s0, t, k)
    ensures AreaSpaces(s0, s', t, lo, k + 1)
  {
    PageSplit(t, k);
    SpaceUpdated(s, s', t, k);
    forall u | 0 <= u < NR_TASKS && u != t ensures SameSpace(s0, s', u) {
      assert SameSpace(s0, s, u) && SameSpace(s, s', u);
    }
    SecuredView(s, s', DirOf(t, k), k % ENTRIES);
    assert Space(s, t)[k] == PageView(s, DirOf(t, k), k % ENTRIES);
    FramesMore(s0, s, s', t, lo, k);
  }

  lemma FramesMore(s0: State, s: State, s': State, t: nat, lo: nat, k: nat)
    requires Inv(s0) && Inv(s) && Inv(s') && 1 <= t < NR_TASKS && lo <= k < PAGES && AreaFrames(s0, s, t, lo, k)
    requires Secured(s, s', DirOf(t, k), k % ENTRIES) && (NeedyPage(s, t, k) <==> NeedyPage(s0, t, k))
    ensures AreaFrames(s0, s', t, lo, k + 1)
  {
    var k1 := k + 1;
    forall p: nat | p < PAGES
      ensures AreaFrame(s0, s', t, p, lo, k1)
      ensures !(lo <= p < k1) && WritableAt(s', t, p) ==> WritableAt(s0, t, p)
    {
      assert AreaFrame(s0, s, t, p, lo, k);
      if p != k {
        PageSplit(t, p);
        PagesDiffer(t, k, p);
        assert SamePage(s, s', DirOf(t, p), p % ENTRIES);
      }
    }
  }

  lemma SecuredView(s: State, s': State, d: int, e: int)
    requires Inv(s) && Inv(s') && Slot(d, e) && Secured(s, s', d, e)
    ensures PageView(s', d, e) == MadeOwn(PageView(s, d, e), s.mem)
    ensures PageView(s, d, e).Low? ==> PageView(s, d, e).frame < LOW
  {
    if Mapped(s, d, e) { EntryBound(s, d, e); }
  }

  lemma BitsMore(s0: State, s: State, s': State, t: nat, lo: nat, k: nat)
    requires Inv(s0) && Inv(s) && Inv(s') && 1 <= t < NR_TASKS && lo <= k < PAGES && AreaBits(s0, s, t, lo, k)
    requires Secured(s, s', DirOf(t, k), k % ENTRIES)
    ensures AreaBits(s0, s', t, lo, k + 1)
  {
    var d, e := DirOf(t, k), k % ENTRIES;
    PageSplit(t, k);
    KeptTrans(s0, s, s', {});
    forall d' ensures SameDir(s0, s', d') { assert SameDir(s0, s, d') && SameDir(s, s', d'); }
    forall p | 0 <= p < PAGES && p != k
      ensures PageVerified(s, t, p) ==> PageVerified(s', t, p)
      ensures NeedyPage(s', t, p) <==> NeedyPage(s, t, p)
    {
      PageSplit(t, p);
      PagesDiffer(t, k, p);
      var d', e' := DirOf(t, p), p % ENTRIES;
      assert SamePage(s, s', d', e') && BitsKept(s, s', d', e');
    }
  }

  /** The page that took a frame has it alone. */
  lemma GivenMore(s: State, s': State, t: nat, k: nat)
    requires Inv(s) && Inv(s') && 1 <= t < NR_TASKS && k < PAGES && Secured(s, s', DirOf(t, k), k % ENTRIES)
    ensures FreeFrames(s') + Given(s', t) == FreeFrames(s) + Given(s, t)
  {
    var d, e := DirOf(t, k), k % ENTRIES;
    PageSplit(t, k);
    assert TablesIn(s', DIRS * t, DIRS * t + DIRS) == TablesIn(s, DIRS * t, DIRS * t + DIRS) by {
      forall d' ensures HasDir(s', d') <==> HasDir(s, d') { assert SameDir(s, s', d'); }
    }
    if Mapped(s, d, e) {
      NumberAdded(s, s', t, d, e);
    }
  }

  lemma NumberAdded(s: State, s': State, t: nat, d: nat, e: nat)
    requires Inv(s) && Inv(s') && 1 <= t < NR_TASKS && DIRS * t <= d < DIRS * t + DIRS && d / DIRS == t && e < ENTRIES
    requires KeptOutside(s, s', {}) && NoNewBut(s, s', d, e) && Alone(s', d, e)
    ensures var lo, hi := ENTRIES * (DIRS * t), ENTRIES * (DIRS * t + DIRS);
      |AloneNos(s', lo, hi)| == |AloneNos(s, lo, hi)| + One(!Alone(s, d, e))
  {
    var lo, hi, n := ENTRIES * (DIRS * t), ENTRIES * (DIRS * t + DIRS), ENTRIES * d + e;
    forall m | lo <= m < hi && m != n ensures AloneNo(s', m) <==> AloneNo(s, m) {
      OtherNumber(s, s', t, d, e, m);
    }
    assert n / ENTRIES == d && n % ENTRIES == e;
    assert lo <= n < hi && AloneNo(s', n) && (AloneNo(s, n) <==> Alone(s, d, e));
    var A := AloneNos(s, lo, hi);
    assert AloneNos(s', lo, hi) == A + {n};
    if AloneNo(s, n) {
      assert A + {n} == A;
    }
  }

  lemma OtherNumber(s: State, s': State, t: nat, d: nat, e: nat, m: int)
    requires Inv(s) && Inv(s') && 1 <= t < NR_TASKS && d / DIRS == t && e < ENTRIES
    requires KeptOutside(s, s', {}) && NoNewBut(s, s', d, e)
    requires ENTRIES * (DIRS * t) <= m < ENTRIES * (DIRS * t + DIRS) && m != ENTRIES * d + e
    ensures AloneNo(s', m) <==> AloneNo(s, m)
  {
    var d', e' := m / ENTRIES, m % ENTRIES;
    assert m == ENTRIES * d' + e' && DIRS * t <= d' < DIRS * t + DIRS;
    SixteenPlus(t, d' - DIRS * t);
    assert Slot(d', e') ==> BitsKept(s, s', d', e');
  }

  /** verify_area's k-th address is the k-th page of an area inside the segment. */
  lemma AreaAddress(cur: nat, addr: nat, size: int, limit: nat, k: nat)
    requires cur < NR_TASKS && InSegment(addr, size, limit) && limit <= 0x4000000 && 4096 * k < addr % 4096 + size
    ensures FirstPage(addr) + k < AreaEnd(addr, size) <= PAGES
    ensures VerifyAddress(cur, addr, k) / 0x400000 == DirOf(cur, FirstPage(addr) + k)
    ensures VerifyAddress(cur, addr, k) / 4096 % 1024 == (FirstPage(addr) + k) % ENTRIES
  {
    var p := FirstPage(addr) + k;
    AddressIs(cur, addr, k);
    assert 4096 * (p + PAGES * cur) / 0x400000 == (p + PAGES * cur) / 1024;
    assert (p + PAGES * cur) / 1024 == p / 1024 + DIRS * cur && (p + PAGES * cur) % 1024 == p % 1024;
  }

  lemma {:induction false} AddressIs(cur: nat, addr: nat, k: nat)
    requires cur < NR_TASKS && FirstPage(addr) + k < PAGES
    ensures VerifyAddress(cur, addr, k) == 4096 * (FirstPage(addr) + k + PAGES * cur)
  {
    if k > 0 { AddressIs(cur, addr, k - 1); }
  }

  lemma AreaEnds(addr: nat, size: int, k: nat)
    requires size >= 0 && addr % 4096 + size <= 4096 * k && (k > 0 ==> 4096 * (k - 1) < addr % 4096 + size)
    ensures FirstPage(addr) + k == AreaEnd(addr, size)
  {
  }
}
