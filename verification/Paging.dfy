/** mm/memory.c with the memory part of fork.c and exit.c.  The page directory, the page
    tables and every page are words of `mem`; `memMap` is mem_map. */
module Paging {
  import opened Counting
  import opened PagingState
  import opened PagingSteps
  import opened PagingCounts

  /** Directories covered by `size` bytes. */
  function DirsOf(size: nat): nat { (size + 0x3fffff) / 0x400000 }

  function BootPage(f: nat): (p: Page) {
    if f == 0 then seq(ENTRIES, d => if d == 0 then Entry7(1) else if d == 1 then Entry7(2) else ZERO)
    else if f == 1 then seq(ENTRIES, e requires 0 <= e => Entry7(e))
    else if f == 2 then seq(ENTRIES, e requires 0 <= e => Entry7(ENTRIES + e))
    else ZeroPage()
  }

  lemma BootInv(s: State)
    requires |s.mem| == HIGH && (forall f :: 0 <= f < HIGH ==> s.mem[f] == BootPage(f))
    requires |s.count| == PAGING_PAGES && (forall i :: 0 <= i < PAGING_PAGES ==> s.count[i] == 0) && s.held == {}
    ensures Inv(s) && KernelMapped(s) && forall d :: !HasDir(s, d)
  {
    assert forall f :: 0 <= f < HIGH ==> |s.mem[f]| == ENTRIES;
    assert s.mem[0] == BootPage(0) && s.mem[1] == BootPage(1) && s.mem[2] == BootPage(2);
    assert forall d :: !HasDir(s, d);
    forall f | LOW <= f < HIGH ensures s.count[f - LOW] == Owners(s, f) {
      assert Refs(s, f) == {};
      assert DirRefs(s, f) == {};
    }
  }

  /** The boot tables: directories 0 and 1 map the first 8 MB onto themselves, writable. */
  ghost predicate KernelMapped(s: State)
    requires Shape(s)
  {
    && (forall d :: 0 <= d < DIRS ==> (s.mem[0][d].present <==> d < 2))
    && s.mem[0][0].frame == 1 && s.mem[0][1].frame == 2
    && (forall e :: 0 <= e < ENTRIES ==> s.mem[1][e] == Entry7(e) && s.mem[2][e] == Entry7(ENTRIES + e))
  }

  lemma KernelKept(s: State, s': State)
    requires Shape(s) && Shape(s') && KernelMapped(s)
    requires s'.mem[1] == s.mem[1] && s'.mem[2] == s.mem[2]
    requires forall d :: 0 <= d < DIRS ==> s'.mem[0][d] == s.mem[0][d]
    ensures KernelMapped(s')
  {
  }

  /** Low memory but for the page directory is as before, and so are the frames that the kernel held and
      still holds. */
  ghost predicate SameKernel(s: State, s': State)
    requires Shape(s) && Shape(s')
  {
    && (forall f :: 1 <= f < LOW ==> s'.mem[f] == s.mem[f])
    && (forall f :: f in s.held && f in s'.held && f < HIGH ==> s'.mem[f] == s.mem[f])
  }

  /** Directories outside [lo, hi) and their pages are as before. */
  ghost predicate SameOutside(s: State, s': State, lo: int, hi: int)
    requires Inv(s) && Inv(s')
  {
    && (forall d :: UserDir(d) && !(lo <= d < hi) ==> SameDir(s, s', d))
    && (forall d, e :: Slot(d, e) && !(lo <= d < hi) ==> SamePage(s, s', d, e))
  }

  /** No directory entry moved; pages of directories other than d are as before. */
  ghost predicate OnlyTable(s: State, s': State, d: int)
    requires Inv(s) && Inv(s')
  {
    && s'.held == s.held
    && (forall d' :: SameDir(s, s', d'))
    && (forall d', e' :: Slot(d', e') && d' != d ==> SamePage(s, s', d', e'))
  }

  lemma ClearedDirectory(s0: State, s: State, s': State, d: int)
    requires Inv(s0) && Inv(s) && Inv(s') && OnlyTable(s0, s, d) && OnlyDir(s, s', d)
    ensures OnlyDirectory(s0, s', d)
  {
    forall d' | d' != d ensures SameDir(s0, s', d') {
      assert SameDir(s0, s, d') && SameDir(s, s', d');
    }
    forall d', e' | Slot(d', e') && d' != d ensures SamePage(s0, s', d', e') {
      assert SamePage(s0, s, d', e') && SamePage(s, s', d', e');
    }
  }

  lemma OnlyTableTrans(s0: State, s: State, s': State, d: int, e: int)
    requires Inv(s0) && Inv(s) && Inv(s') && OnlyTable(s0, s, d) && OnlyPage(s, s', d, e) && s'.held == s.held
    ensures OnlyTable(s0, s', d)
  {
    forall d' ensures SameDir(s0, s', d') {
      assert SameDir(s0, s, d') && SameDir(s, s', d');
    }
    forall d', e' | Slot(d', e') && d' != d ensures SamePage(s0, s', d', e') {
      assert SamePage(s0, s, d', e') && SamePage(s, s', d', e');
    }
  }

  lemma SameOutsideTrans(s0: State, s: State, s': State, lo: int, hi: int)
    requires Inv(s0) && Inv(s) && Inv(s') && SameOutside(s0, s, lo, hi) && SameOutside(s, s', lo, hi)
    ensures SameOutside(s0, s', lo, hi)
  {
    forall d | UserDir(d) && !(lo <= d < hi) ensures SameDir(s0, s', d) {
      assert SameDir(s0, s, d) && SameDir(s, s', d);
    }
    forall d, e | Slot(d, e) && !(lo <= d < hi) ensures SamePage(s0, s', d, e) {
      assert SamePage(s0, s, d, e) && SamePage(s, s', d, e);
    }
  }

  /** How far the inner loop of free_page_tables has got with directory d. */
  ghost predicate ClearedTo(s0: State, s: State, d: int, e: int)
    requires Inv(s0) && Inv(s)
  {
    && FreeFrames(s) == FreeFrames(s0) + |AloneNos(s0, ENTRIES * d, ENTRIES * d + e)|
    && KeptOutside(s0, s, {d}) && NoNewOutside(s0, s, d / DIRS, {d})
    && forall k :: e <= k < ENTRIES ==> (Alone(s, d, k) <==> Alone(s0, d, k))
  }

  ghost predicate NoneRaised(s: State, s': State)
    requires Shape(s) && Shape(s')
  {
    forall i :: 0 <= i < PAGING_PAGES ==> s'.count[i] <= s.count[i]
  }

  /** The first e entries of directory d are clear, and what was done to get there. */
  ghost predicate Clearing(s0: State, s: State, d: int, e: int)
    requires Inv(s0) && Inv(s)
  {
    && OnlyTable(s0, s, d) && HasDir(s, d) && (forall k :: 0 <= k < ENTRIES && k < e ==> !Pte(s, d, k).present)
    && NoneRaised(s0, s) && ClearedTo(s0, s, d, e)
  }

  lemma ClearingMore(s0: State, s: State, s': State, d: int, e: int)
    requires Inv(s0) && Inv(s) && Inv(s') && Slot(d, e) && Clearing(s0, s, d, e) && OnlyPage(s, s', d, e)
    requires HasDir(s', d) && s'.held == s.held && NoneRaised(s, s')
    requires s'.mem[0][d].frame == s.mem[0][d].frame
    requires s'.mem[s.mem[0][d].frame] == s.mem[s.mem[0][d].frame][e := ZERO]
    requires FreeFrames(s') == FreeFrames(s) + One(Alone(s, d, e)) && KeptBut(s, s', d, e) && NoNewBut(s, s', d, e)
    ensures Clearing(s0, s', d, e + 1)
  {
    ClearedMore(s0, s, s', d, e);
    OnlyTableTrans(s0, s, s', d, e);
    assert forall k :: 0 <= k < ENTRIES && k < e ==> Pte(s', d, k) == Pte(s, d, k);
  }

  lemma ClearingDone(s0: State, s: State, d: int)
    requires Inv(s0) && Inv(s) && Clearing(s0, s, d, ENTRIES)
    ensures EmptyTable(s.mem[s.mem[0][d].frame])
  {
    forall k | 0 <= k < ENTRIES ensures !s.mem[s.mem[0][d].frame][k].present { assert !Pte(s, d, k).present; }
  }

  lemma ClearedNothing(s: State, d: int)
    requires Inv(s) && HasDir(s, d)
    ensures Clearing(s, s, d, 0)
  {
    assert AloneNos(s, ENTRIES * d, ENTRIES * d) == {};
  }

  lemma ClearedMore(s0: State, s: State, s': State, d: int, e: int)
    requires Inv(s0) && Inv(s) && Inv(s') && Slot(d, e) && ClearedTo(s0, s, d, e)
    requires FreeFrames(s') == FreeFrames(s) + One(Alone(s, d, e)) && KeptBut(s, s', d, e) && NoNewBut(s, s', d, e)
    ensures ClearedTo(s0, s', d, e + 1)
  {
    AloneSplit(s0, ENTRIES * d, ENTRIES * d + e, ENTRIES * d + e + 1);
    AloneOne(s0, d, e);
    KeptButWider(s, s', d, e);
    KeptTrans(s0, s, s', {d});
    forall k | e + 1 <= k < ENTRIES ensures Alone(s', d, k) <==> Alone(s0, d, k) {
      assert BitsKept(s, s', d, k);
    }
  }

  /** How far the outer loop has got: every table of the task, and every frame that only its pages named,
      is free again. */
  ghost predicate FreedTo(s0: State, s: State, from: int, d: int)
    requires Inv(s0) && Inv(s)
  {
    && FreeFrames(s) == FreeFrames(s0) + GivenIn(s0, from, d)
    && KeptOutside(s0, s, Range(from, d)) && NoNewOutside(s0, s, from / DIRS, Range(from, d))
  }

  /** Ranges that reach beyond one task may free more. */
  ghost predicate Freed(s0: State, s: State, from: int, d: int, n: int)
    requires Inv(s0) && Inv(s)
  {
    && KeptOutside(s0, s, Range(from, d)) && FreeFrames(s) >= FreeFrames(s0) + |TablesIn(s0, from, d)|
    && (from % DIRS == 0 && n <= DIRS ==> FreedTo(s0, s, from, d))
  }

  lemma FreedStep(s0: State, s: State, s': State, from: nat, d: int, n: int)
    requires Inv(s0) && Inv(s) && Inv(s') && Freed(s0, s, from, d, n) && UserDir(d) && from <= d < from + n
    requires FreeFrames(s') == FreeFrames(s) + One(HasDir(s, d)) + |AloneNos(s, ENTRIES * d, ENTRIES * d + ENTRIES)|
    requires KeptOutside(s, s', {d}) && NoNewOutside(s, s', d / DIRS, {d}) && (HasDir(s, d) <==> HasDir(s0, d))
    ensures Freed(s0, s', from, d + 1, n)
  {
    KeptOneMore(s0, s, s', from, d);
    TablesSplit(s0, from, d, d + 1);
    TablesOne(s0, d);
    if from % DIRS == 0 && n <= DIRS {
      SixteenPlus(from / DIRS, d - from);
      FreedMore(s0, s, s', from, d);
    }
  }

  /** The directories from `from` to d are gone, and what was done to get there. */
  ghost predicate Freeing(s0: State, s: State, from: int, d: int, n: int)
    requires Inv(s0) && Inv(s)
  {
    && SameOutside(s0, s, from, from + n) && (forall d' :: from <= d' < d ==> !HasDir(s, d'))
    && (forall d' :: d <= d' < from + n ==> (HasDir(s, d') <==> HasDir(s0, d'))) && Freed(s0, s, from, d, n)
  }

  lemma FreeingMore(s0: State, s: State, s': State, from: nat, d: int, n: int)
    requires Inv(s0) && Inv(s) && Inv(s') && Freeing(s0, s, from, d, n) && UserDir(d) && from <= d < from + n
    requires OnlyDirectory(s, s', d) && !HasDir(s', d)
    requires FreeFrames(s') == FreeFrames(s) + One(HasDir(s, d)) + |AloneNos(s, ENTRIES * d, ENTRIES * d + ENTRIES)|
    requires KeptOutside(s, s', {d}) && NoNewOutside(s, s', d / DIRS, {d})
    ensures Freeing(s0, s', from, d + 1, n)
  {
    FreedStep(s0, s, s', from, d, n);
    SameOutsideTrans(s0, s, s', from, from + n);
    forall d' | d' != d ensures HasDir(s', d') <==> HasDir(s, d') {
      assert SameDir(s, s', d');
    }
  }

  lemma SomeFreed(s0: State, s: State, from: int, n: int)
    requires Inv(s0) && Inv(s) && Freed(s0, s, from, from + n, n)
    ensures (exists d :: from <= d < from + n && HasDir(s0, d)) || !NoneFree(s0) ==> !NoneFree(s)
  {
    NoneFreeIs(s0);
    NoneFreeIs(s);
    if d :| from <= d < from + n && HasDir(s0, d) {
      assert d in TablesIn(s0, from, from + n);
    }
  }

  lemma FreedNothing(s: State, from: int, n: int)
    requires Inv(s)
    ensures Freeing(s, s, from, from, n)
  {
    assert TablesIn(s, from, from) == {} && AloneNos(s, ENTRIES * from, ENTRIES * from) == {};
  }

  lemma KeptOneMore(s0: State, s: State, s': State, from: int, d: int)
    requires Inv(s0) && Inv(s) && Inv(s') && KeptOutside(s0, s, Range(from, d)) && KeptOutside(s, s', {d}) && from <= d
    ensures KeptOutside(s0, s', Range(from, d + 1))
  {
    forall x | x in Range(from, d) || x == d ensures x in Range(from, d + 1) {
      assert Between(x, from, d + 1);
    }
    KeptWider(s0, s, Range(from, d), Range(from, d + 1));
    KeptWider(s, s', {d}, Range(from, d + 1));
    KeptTrans(s0, s, s', Range(from, d + 1));
  }

  lemma FreedMore(s0: State, s: State, s': State, from: int, d: int)
    requires Inv(s0) && Inv(s) && Inv(s') && FreedTo(s0, s, from, d)
    requires UserDir(d) && from <= d && d / DIRS == from / DIRS
    requires FreeFrames(s') == FreeFrames(s) + One(HasDir(s, d)) + |AloneNos(s, ENTRIES * d, ENTRIES * d + ENTRIES)|
    requires KeptOutside(s, s', {d}) && NoNewOutside(s, s', d / DIRS, {d}) && (HasDir(s, d) <==> HasDir(s0, d))
    ensures FreedTo(s0, s', from, d + 1)
  {
    KeptOneMore(s0, s, s', from, d);
    NoNewOneMore(s0, s, s', from, d);
    SameAlone(s0, s, from, d);
    GivenSplit(s0, from, d, d + 1);
    TablesOne(s0, d);
  }

  lemma NoNewOneMore(s0: State, s: State, s': State, from: int, d: int)
    requires Inv(s0) && Inv(s) && Inv(s') && NoNewOutside(s0, s, from / DIRS, Range(from, d)) && from <= d
    requires NoNewOutside(s, s', d / DIRS, {d}) && d / DIRS == from / DIRS
    ensures NoNewOutside(s0, s', from / DIRS, Range(from, d + 1))
  {
    forall x | x in Range(from, d) || x == d ensures x in Range(from, d + 1) {
      assert Between(x, from, d + 1);
    }
  }

  /** Directory d still has alone what it had. */
  lemma SameAlone(s0: State, s: State, from: int, d: int)
    requires Inv(s0) && Inv(s) && FreedTo(s0, s, from, d) && UserDir(d) && d / DIRS == from / DIRS
    ensures AloneNos(s, ENTRIES * d, ENTRIES * (d + 1)) == AloneNos(s0, ENTRIES * d, ENTRIES * (d + 1))
  {
    assert d !in Range(from, d);
    forall d', e | Slot(d', e) && d <= d' < d + 1 ensures Alone(s, d', e) <==> Alone(s0, d', e) {
      assert BitsKept(s0, s, d', e);
    }
    AloneSame(s0, s, d, d + 1);
  }

  class Memory {
    const mem: array<Page>
    const memMap: array<nat>
    ghost var held: set<nat>

    ghost function S(): State
      reads this, mem, memMap
    {
      State(mem[..], memMap[..], held)
    }

    ghost predicate Lengths()
      reads this, mem, memMap
    {
      mem.Length == HIGH && memMap.Length == PAGING_PAGES
    }

    ghost predicate Valid()
      reads this, mem, memMap
    {
      Lengths() && Inv(S()) && KernelMapped(S())
    }

    /** The tables that setup_paging leaves, and a mem_map of zeros. */
    constructor ()
      ensures Valid() && fresh(mem) && fresh(memMap) && held == {}
      ensures forall d :: !HasDir(S(), d)
      ensures mem[0][0] == Word(1, 0, true, true, true) && mem[0][1] == Word(2, 0, true, true, true)
      ensures forall d :: 2 <= d < 1024 ==> !mem[0][d].present
      ensures forall e :: 0 <= e < 1024 ==>
        mem[1][e] == Word(e, 0, true, true, true) && mem[2][e] == Word(1024 + e, 0, true, true, true)
      ensures forall i :: 0 <= i < 1536 ==> memMap[i] == 0
    {
      mem := new Page[HIGH](f => BootPage(f));
      memMap := new nat[PAGING_PAGES](_ => 0);
      held := {};
      new;
      BootInv(S());
    }

    /** Takes the last free frame, counts it once and clears it; 0 when none is free. */
    method GetFreePage() returns (page: nat)
      requires Valid()
      modifies mem, memMap, this
      ensures Valid() && SameKernel(old(S()), S())
      ensures page == 0 <==> forall i :: 0 <= i < PAGING_PAGES ==> old(memMap[i]) != 0
      ensures page == 0 ==> S() == old(S())
      ensures page != 0 ==> LOW <= page < HIGH && old(memMap[page - LOW]) == 0 && page !in old(held)
      ensures page != 0 ==> forall i :: page - LOW < i < PAGING_PAGES ==> old(memMap[i]) != 0
      ensures page != 0 ==> S() == Alloc(old(S()), page) && NoPage(old(S()), S())
      ensures FreeFrames(S()) == old(FreeFrames(S())) - One(page != 0) && KeptOutside(old(S()), S(), {})
      ensures NoNew(old(S()), S())
      ensures page == 0 <==> old(FreeFrames(S())) == 0
    {
      NoneFreeIs(S());
      var i := PAGING_PAGES;
      while i > 0
        invariant 0 <= i <= PAGING_PAGES
        invariant forall k :: i <= k < PAGING_PAGES ==> memMap[k] != 0
        invariant S() == old(S())
      {
        i := i - 1;
        if memMap[i] == 0 {
          page := LOW + i;
          ghost var s := S();
          AllocStep(s, page);
          AllocBits(s, page);
          memMap[i] := 1;
          mem[page] := ZeroPage();
          held := held + {page};
          assert S() == Alloc(s, page);
          KernelKept(s, S());
          return;
        }
      }
      page := 0;
    }

    /** Drops one reference to a frame.  The precondition excludes both panics. */
    method FreePage(f: nat)
      requires Lengths()
      requires LOW <= f ==> f < HIGH && memMap[f - LOW] > 0
      modifies memMap
      ensures f < LOW ==> memMap[..] == old(memMap[..])
      ensures f >= LOW ==> memMap[..] == old(memMap[..])[f - LOW := old(memMap[f - LOW]) - 1]
    {
      if f < LOW { return; }
      memMap[f - LOW] := memMap[f - LOW] - 1;
    }

    /** free_page on a frame that the kernel holds. */
    method FreeHeldPage(f: nat)
      requires Valid() && f in held
      modifies memMap, this
      ensures Valid() && S() == Release(old(S()), f) && NoPage(old(S()), S())
      ensures FreeFrames(S()) == old(FreeFrames(S())) + 1 && KeptOutside(old(S()), S(), {})
    {
      ghost var s := S();
      ReleaseStep(s, f);
      ReleaseBits(s, f);
      FreePage(f);
      held := held - {f};
      assert S() == Release(s, f);
      KernelKept(s, S());
    }

    /** The inner loop of free_page_tables. */
    method ClearTable(d: nat)
      requires Valid() && HasDir(S(), d)
      modifies mem, memMap
      ensures Valid() && SameKernel(old(S()), S()) && HasDir(S(), d) && EmptyTable(mem[mem[0][d].frame])
      ensures OnlyTable(old(S()), S(), d) && NoneRaised(old(S()), S())
      ensures FreeFrames(S()) == old(FreeFrames(S()) + |AloneNos(S(), ENTRIES * d, ENTRIES * d + ENTRIES)|)
      ensures KeptOutside(old(S()), S(), {d}) && NoNewOutside(old(S()), S(), d / DIRS, {d})
    {
      ghost var s0 := S();
      ClearedNothing(s0, d);
      var e := 0;
      while e < ENTRIES
        invariant 0 <= e <= ENTRIES
        invariant Valid() && SameKernel(s0, S()) && Clearing(s0, S(), d, e)
      {
        ClearNext(d, e, s0);
        e := e + 1;
      }
      ClearingDone(s0, S(), d);
    }

    method ClearNext(d: nat, e: nat, ghost s0: State)
      requires Valid() && Inv(s0) && Slot(d, e) && Clearing(s0, S(), d, e) && SameKernel(s0, S())
      modifies mem, memMap
      ensures Valid() && SameKernel(s0, S()) && Clearing(s0, S(), d, e + 1)
    {
      ghost var s := S();
      ClearEntry(d, e);
      ClearingMore(s0, s, S(), d, e);
    }

    /** One turn of it. */
    method ClearEntry(d: nat, e: nat)
      requires Valid() && HasDir(S(), d) && e < ENTRIES
      modifies mem, memMap
      ensures Valid() && SameKernel(old(S()), S()) && OnlyPage(old(S()), S(), d, e)
      ensures HasDir(S(), d) && mem[0][d].frame == old(mem[0][d].frame) && held == old(held)
      ensures mem[mem[0][d].frame] == old(mem[mem[0][d].frame])[e := ZERO] && NoneRaised(old(S()), S())
      ensures FreeFrames(S()) == old(FreeFrames(S()) + One(Alone(S(), d, e)))
      ensures KeptBut(old(S()), S(), d, e) && NoNewBut(old(S()), S(), d, e)
    {
      ghost var s := S();
      var t := mem[0][d].frame;
      ClearPteStep(s, d, e);
      ClearPteBits(s, d, e);
      TableFrameIsPrivate(s, d);
      if mem[t][e].present {
        assert Mapped(s, d, e);
        if LOW <= mem[t][e].frame { MappedIsCounted(s, d, e); }
        FreePage(mem[t][e].frame);
      }
      mem[t] := mem[t][e := ZERO];
      assert S() == ClearPte(s, d, e);
      KernelKept(s, S());
    }

    /** The outer loop body of free_page_tables. */
    method FreeDirectory(d: nat)
      requires Valid() && UserDir(d)
      modifies mem, memMap
      ensures Valid() && SameKernel(old(S()), S()) && held == old(held)
      ensures !HasDir(S(), d) && OnlyDirectory(old(S()), S(), d)
      ensures old(HasDir(S(), d)) || !old(NoneFree(S())) ==> !NoneFree(S())
      ensures FreeFrames(S()) ==
        old(FreeFrames(S()) + One(HasDir(S(), d)) + |AloneNos(S(), ENTRIES * d, ENTRIES * d + ENTRIES)|)
      ensures KeptOutside(old(S()), S(), {d}) && NoNewOutside(old(S()), S(), d / DIRS, {d})
    {
      ghost var s0 := S();
      if !mem[0][d].present {
        NothingAlone(s0, d);
      } else {
        ClearTable(d);
        ghost var s := S();
        UnlinkDirStep(s, d);
        UnlinkDirBits(s, d);
        UnlinkNoNew(s, d);
        KeptWider(s, UnlinkDir(s, d), {}, {d});
        KeptTrans(s0, s, UnlinkDir(s, d), {d});
        FreePage(mem[0][d].frame);
        mem[0] := mem[0][d := ZERO];
        assert S() == UnlinkDir(s, d);
        KernelKept(s, S());
        ClearedDirectory(s0, s, S(), d);
        assert memMap[s.mem[0][d].frame - LOW] == 0;
      }
    }

    method FreePageTables(from: nat, size: nat)
      requires Valid() && DIRS <= from && from + DirsOf(size) <= ENTRIES
      modifies mem, memMap
      ensures Valid() && SameKernel(old(S()), S())
      ensures forall d :: from <= d < from + (size + 0x3fffff) / 0x400000 ==> !HasDir(S(), d)
      ensures held == old(held) && SameOutside(old(S()), S(), from, from + DirsOf(size))
      ensures old(exists d :: from <= d < from + DirsOf(size) && HasDir(S(), d)) || !old(NoneFree(S())) ==>
        !NoneFree(S())
      ensures KeptOutside(old(S()), S(), Range(from, from + DirsOf(size)))
      ensures from % DIRS == 0 && DirsOf(size) <= DIRS ==> FreedTo(old(S()), S(), from, from + DirsOf(size))
    {
      ghost var s0 := S();
      var n := DirsOf(size);
      FreedNothing(s0, from, n);
      var d := from;
      while d < from + n
        invariant from <= d <= from + n
        invariant Valid() && SameKernel(s0, S()) && held == s0.held && Freeing(s0, S(), from, d, n)
      {
        FreeNext(from, d, n, s0);
        d := d + 1;
      }
      SomeFreed(s0, S(), from, n);
    }

    /** One turn of it. */
    method FreeNext(from: nat, d: nat, ghost n: nat, ghost s0: State)
      requires Valid() && Inv(s0) && Freeing(s0, S(), from, d, n) && SameKernel(s0, S()) && held == s0.held
      requires UserDir(d) && from <= d < from + n
      modifies mem, memMap
      ensures Valid() && SameKernel(s0, S()) && held == s0.held && Freeing(s0, S(), from, d + 1, n)
    {
      ghost var s := S();
      FreeDirectory(d);
      FreeingMore(s0, s, S(), from, d, n);
    }

    /** One entry of copy_page_tables: a present page is entered read-only into the new table;
        a paged frame loses the write bit in the old table too and is counted once more. */
    method CopyEntry(d: nat, d2: nat, e: nat)
      requires Valid() && HasDir(S(), d2) && e < ENTRIES && !Mapped(S(), d2, e)
      requires (d == 0 && e < 160) || (HasDir(S(), d) && d != d2 && d % DIRS == d2 % DIRS)
      modifies mem, memMap
      ensures Valid() && SameKernel(old(S()), S()) && OnlyPage(old(S()), S(), d2, e) && HasDir(S(), d2)
      ensures Inherits(old(S()), S(), d, d2, e) && ReadOnlyPair(S(), d, d2, e)
      ensures WordCopied(old(S()), S(), d, d2, e) && SameWords(old(S()), S())
      ensures FreeFrames(S()) == old(FreeFrames(S())) && KeptOutside(old(S()), S(), {d, d2})
    {
      CopyOneEntry(d, d2, e);
      InheritsReadOnly(old(S()), S(), d, d2, e);
    }

    /** Its two cases, from and below LOW_MEM. */
    method CopyOneEntry(d: nat, d2: nat, e: nat)
      requires Valid() && HasDir(S(), d2) && e < ENTRIES && !Mapped(S(), d2, e)
      requires (d == 0 && e < 160) || (HasDir(S(), d) && d != d2 && d % DIRS == d2 % DIRS)
      modifies mem, memMap
      ensures Valid() && SameKernel(old(S()), S()) && OnlyPage(old(S()), S(), d2, e) && HasDir(S(), d2)
      ensures Inherits(old(S()), S(), d, d2, e)
      ensures WordCopied(old(S()), S(), d, d2, e) && SameWords(old(S()), S())
      ensures FreeFrames(S()) == old(FreeFrames(S())) && KeptOutside(old(S()), S(), {d, d2})
    {
      var t, t2 := mem[0][d].frame, mem[0][d2].frame;
      var w := mem[t][e];
      if !w.present { return; }
      if w.frame >= LOW {
        ShareEntry(d, d2, e);
        return;
      }
      ghost var s := S();
      TableFrameIsPrivate(s, d2);
      ShareLowStep(s, d2, e, w.(rw := false));
      SetPteBits(s, d2, e, w.(rw := false));
      SharedLowWords(s, d, d2, e);
      mem[t2] := mem[t2][e := w.(rw := false)];
      assert S() == SetPte(s, d2, e, w.(rw := false));
      KernelKept(s, S());
    }

    /** A paged frame gets one more reference; the count cannot wrap. */
    method ShareEntry(d: nat, d2: nat, e: nat)
      requires Valid() && HasDir(S(), d2) && Mapped(S(), d, e) && !Mapped(S(), d2, e)
      requires LOW <= Pte(S(), d, e).frame && d % DIRS == d2 % DIRS
      modifies mem, memMap
      ensures Valid() && SameKernel(old(S()), S()) && OnlyPage(old(S()), S(), d2, e) && HasDir(S(), d2)
      ensures PageView(S(), d2, e) == PageView(old(S()), d, e) && FrameAt(S(), d2, e) == FrameAt(old(S()), d, e)
      ensures WordCopied(old(S()), S(), d, d2, e) && SameWords(old(S()), S())
      ensures FreeFrames(S()) == old(FreeFrames(S())) && KeptOutside(old(S()), S(), {d, d2})
    {
      ghost var s := S();
      var t, t2 := mem[0][d].frame, mem[0][d2].frame;
      var shared := mem[t][e].(rw := false);
      DirsInjectiveUnless(s, d, d2);
      TableFrameIsPrivate(s, d);
      TableFrameIsPrivate(s, d2);
      ShareStep(s, d, d2, e);
      ShareBits(s, d, d2, e);
      SharedWords(s, d, d2, e);
      EntryBound(s, d, e);
      CountBelowTasks(s, shared.frame);
      mem[t2] := mem[t2][e := shared];
      mem[t] := mem[t][e := shared];
      assert memMap[shared.frame - LOW] < 0xffff;
      memMap[shared.frame - LOW] := memMap[shared.frame - LOW] + 1;
      assert S() == Share(s, d, d2, e);
      KernelKept(s, S());
    }

    /** The inner loop of copy_page_tables: the first nr entries of directory d are shared with d2. */
    method CopyTable(d: nat, d2: nat, nr: nat)
      requires Valid() && HasDir(S(), d2) && EmptyTable(mem[mem[0][d2].frame])
      requires (d == 0 && nr <= 160) || (HasDir(S(), d) && nr == ENTRIES && d != d2 && d % DIRS == d2 % DIRS)
      modifies mem, memMap
      ensures Valid() && SameKernel(old(S()), S()) && TableCopied(old(S()), S(), d, d2, nr)
      ensures forall e :: 0 <= e < nr ==> ReadOnlyPair(S(), d, d2, e)
      ensures TableWords(old(S()), S(), d, d2, nr)
    {
      var e := 0;
      NothingCopied(S(), d, d2);
      while e < nr
        invariant 0 <= e <= nr
        invariant Valid() && SameKernel(old(S()), S()) && TableCopied(old(S()), S(), d, d2, e)
        invariant TableWords(old(S()), S(), d, d2, e)
      {
        CopyEntryNext(d, d2, e, old(S()));
        e := e + 1;
      }
      TableReadOnly(old(S()), S(), d, d2, nr);
    }

    /** One turn of it. */
    method CopyEntryNext(d: nat, d2: nat, e: nat, ghost s0: State)
      requires Valid() && Inv(s0) && KernelMapped(s0) && SameKernel(s0, S()) && e < ENTRIES && d < ENTRIES && d != d2
      requires TableCopied(s0, S(), d, d2, e) && TableWords(s0, S(), d, d2, e) && UserDir(d2)
      requires (d == 0 && e < 160) || (HasDir(s0, d) && d % DIRS == d2 % DIRS)
      modifies mem, memMap
      ensures Valid() && SameKernel(s0, S())
      ensures TableCopied(s0, S(), d, d2, e + 1) && TableWords(s0, S(), d, d2, e + 1)
    {
      ghost var s := S();
      AbsentEntry(s, d2, e);
      CopyEntry(d, d2, e);
      CopiedOne(s0, s, S(), d, d2, e);
      TableWordsMore(s0, s, S(), d, d2, e);
    }

    /** -1 when no frame is left for a page table; the caller then frees what was built. */
    method CopyPageTables(from: nat, to: nat, size: nat) returns (err: int)
      requires Valid() && from % DIRS == 0 && to % DIRS == 0 && from != to && DIRS <= to
      requires size <= 0x4000000 && (from == 0 ==> size <= 0xa0000)
      requires from + DIRS <= ENTRIES && to + DIRS <= ENTRIES
      requires forall d :: to <= d < to + DirsOf(size) ==> !HasDir(S(), d)
      modifies mem, memMap, this
      ensures Valid() && SameKernel(old(S()), S()) && held == old(held)
      ensures SameOutside(old(S()), S(), to, to + DirsOf(size))
      ensures err == 0 || err == -1
      ensures err == 0 ==> SharedTo(old(S()), S(), from, to, DirsOf(size), DirsOf(size))
      ensures err == 0 ==> AllReadOnly(S(), from, to, DirsOf(size))
      ensures err == 0 ==> forall d: nat, e: nat :: d < (size + 0x3fffff) / 0x400000 && e < 1024 ==>
        EntryCopied(old(S()), S(), from, to, d, e)
      ensures err == 0 && from == 0 && size > 0 ==>
        forall e: nat :: e < 1024 ==> if e < 160 then LentEntry(S(), to, e) else !Mapped(S(), to, e)
      ensures err == -1 ==> NoneFree(S())
      ensures err == 0 <==> old(FreeFrames(S()) >= Sources(S(), from, DirsOf(size)))
      ensures KeptOutside(old(S()), S(), Range(from, from + DirsOf(size)) + Range(to, to + DirsOf(size)))
    {
      ghost var s0 := S();
      var n := DirsOf(size);
      assert TablesIn(s0, from, from + 0) == {};
      var k := 0;
      while k < n
        invariant 0 <= k <= n
        invariant Valid() && SameKernel(s0, S()) && held == s0.held
        invariant SharedTo(s0, S(), from, to, n, k) && WordsTo(s0, S(), from, to, k)
      {
        DirArithmetic(from, to, size, k);
        var failed := CopyNext(from, to, k, n, s0);
        if failed { return -1; }
        k := k + 1;
      }
      SharedReadOnly(s0, S(), from, to, size);
      EveryEntry(s0, S(), from, to, n);
      return 0;
    }

    /** One turn of it. */
    method CopyNext(from: nat, to: nat, k: nat, ghost n: nat, ghost s0: State) returns (failed: bool)
      requires Valid() && Inv(s0) && KernelMapped(s0) && SharedTo(s0, S(), from, to, n, k) && k < n
      requires SameKernel(s0, S()) && held == s0.held
      requires from + k < ENTRIES && UserDir(to + k) && from + n <= ENTRIES && to + n <= ENTRIES && DIRS <= to
      requires (from == 0 ==> n <= 1) && (from == 0 || DIRS <= from)
      requires (from + k) % DIRS == (to + k) % DIRS && !(to <= from + k < to + n) && WordsTo(s0, S(), from, to, k)
      modifies mem, memMap, this
      ensures Valid() && SameKernel(s0, S()) && held == s0.held
      ensures failed ==> S() == old(S()) && NoneFree(S()) && FreeFrames(s0) < Sources(s0, from, n)
      ensures !failed ==> SharedTo(s0, S(), from, to, n, k + 1) && WordsTo(s0, S(), from, to, k + 1)
    {
      ghost var s := S();
      SourceThere(s0, s, from, to, n, k);
      SourcesMore(s0, from, n, k);
      NoneFreeIs(s);
      failed := CopyDirectory(from + k, to + k);
      if !failed {
        SharedMore(s0, s, S(), from, to, n, k);
        WordsMore(s0, s, S(), from, to, n, k);
      }
    }

    /** The outer loop body of copy_page_tables. */
    method CopyDirectory(d: nat, d2: nat) returns (failed: bool)
      requires Valid() && d < ENTRIES && UserDir(d2) && d != d2 && d % DIRS == d2 % DIRS && !HasDir(S(), d2)
      requires d < DIRS ==> d == 0
      modifies mem, memMap, this
      ensures Valid() && SameKernel(old(S()), S()) && held == old(held)
      ensures failed ==> S() == old(S()) && NoneFree(S())
      ensures failed <==> old(mem[0][d].present && FreeFrames(S()) == 0)
      ensures !failed ==> DirCopied(old(S()), S(), d, d2) && TableWords(old(S()), S(), d, d2, ENTRIES)
    {
      failed := false;
      ghost var s0 := S();
      if !mem[0][d].present {
        NoDirectory(s0, d, d2);
        NoWords(s0, d, d2);
        return;
      }
      NoneFreeIs(s0);
      var t2 := GetFreePage();
      if t2 == 0 { return true; }
      ghost var s1 := S();
      MakeTable(d2, t2);
      ghost var s2 := S();
      SourceKept(s0, s1, s2, d, d2);
      NewTableWords(s0, s1, s2, t2);
      LinkDirSilent(s0, s1, s2, d2);
      CopyTable(d, d2, if d == 0 then 0xa0 else 1024);
      DirectoryCopied(s0, s1, s2, S(), d, d2, if d == 0 then 0xa0 else 1024);
      TableWordsAll(s2, S(), d, d2, if d == 0 then 0xa0 else 1024);
      WordsFrom(s0, s2, S(), d, d2);
    }

    /** A frame that the kernel holds becomes the page table of directory d. */
    method MakeTable(d: nat, f: nat)
      requires Valid() && UserDir(d) && !HasDir(S(), d) && f in held && EmptyTable(mem[f])
      modifies mem, this
      ensures Valid() && SameKernel(old(S()), S()) && held == old(held) - {f}
      ensures HasDir(S(), d) && OnlyDir(old(S()), S(), d) && EmptyTable(mem[mem[0][d].frame])
      ensures mem[0][d] == Word(f, 0, true, true, true) && SameWords(old(S()), S())
      ensures FreeFrames(S()) == old(FreeFrames(S())) && KeptOutside(old(S()), S(), {})
    {
      ghost var s := S();
      LinkDirStep(s, d, f);
      LinkDirTables(s, d, f);
      LinkDirBits(s, d, f);
      mem[0] := mem[0][d := Entry7(f)];
      held := held - {f};
      assert S() == LinkDir(s, d, f);
      KernelKept(s, S());
    }

    /** Enters a frame the kernel holds at an address that maps nothing; makes the page table if it
        has to.  False when that takes a frame and none is left. */
    method PutPage(page: nat, d: nat, e: nat) returns (ok: bool)
      requires Valid() && page in held && Slot(d, e) && !Mapped(S(), d, e)
      modifies mem, memMap, this
      ensures Valid() && SameKernel(old(S()), S())
      ensures ok <==> old(HasDir(S(), d) || !NoneFree(S()))
      ensures !ok ==> S() == old(S())
      ensures ok ==> held == old(held) - {page}
      ensures ok ==> Mapped(S(), d, e) && Pte(S(), d, e) == Word(page, 0, true, true, true)
      ensures ok ==> PageView(S(), d, e) == Own(old(mem[page])) && FrameAt(S(), d, e) == page
      ensures ok ==> forall d' :: d' != d ==> SameDir(old(S()), S(), d')
      ensures ok ==> forall d', e' :: Slot(d', e') && !(d' == d && e' == e) ==> SamePage(old(S()), S(), d', e')
      ensures ok ==> FreeFrames(S()) == old(FreeFrames(S()) - One(!HasDir(S(), d))) && KeptOutside(old(S()), S(), {})
    {
      ghost var s0 := S();
      ok := EnsureTable(d);
      if !ok { return; }
      ghost var s1 := S();
      StillAbsent(s0, s1, d, e);
      EnterPage(page, d, e);
      KeptTrans(s0, s1, S(), {});
      OnlyPageAfter(s0, s1, S(), d, e);
    }

    /** The first half of put_page: a page table for directory d. */
    method EnsureTable(d: nat) returns (ok: bool)
      requires Valid() && UserDir(d)
      modifies mem, memMap, this
      ensures Valid() && SameKernel(old(S()), S()) && held == old(held)
      ensures ok <==> old(HasDir(S(), d) || !NoneFree(S()))
      ensures !ok ==> S() == old(S())
      ensures ok ==> HasDir(S(), d) && OnlyDir(old(S()), S(), d) && KeptOutside(old(S()), S(), {})
      ensures ok ==> FreeFrames(S()) == old(FreeFrames(S()) - One(!HasDir(S(), d)))
    {
      ghost var s0 := S();
      NoneFreeIs(s0);
      if mem[0][d].present { return true; }
      var tmp := GetFreePage();
      if tmp == 0 { return false; }
      ghost var s1 := S();
      MakeTable(d, tmp);
      KeptTrans(s0, s1, S(), {});
      LinkDirSilent(s0, s1, S(), d);
      ok := true;
    }

    /** The second half: the entry. */
    method EnterPage(page: nat, d: nat, e: nat)
      requires Valid() && page in held && HasDir(S(), d) && e < ENTRIES && !Mapped(S(), d, e)
      modifies mem, this
      ensures Valid() && SameKernel(old(S()), S()) && held == old(held) - {page}
      ensures OnlyPage(old(S()), S(), d, e) && Mapped(S(), d, e) && Pte(S(), d, e) == Word(page, 0, true, true, true)
      ensures PageView(S(), d, e) == Own(old(mem[page])) && FrameAt(S(), d, e) == page
      ensures FreeFrames(S()) == old(FreeFrames(S())) && KeptOutside(old(S()), S(), {})
    {
      ghost var s := S();
      var t := mem[0][d].frame;
      TableFrameIsPrivate(s, d);
      LinkPteStep(s, d, e, page);
      LinkPteBits(s, d, e, page);
      LinkPteTables(s, d, e, page);
      mem[t] := mem[t][e := Entry7(page)];
      held := held - {page};
      assert S() == LinkPte(s, d, e, page);
      KernelKept(s, S());
    }

    /** Makes a present page writable: the last owner keeps its frame, any other gets a copy.
        False where the source calls do_exit(SIGSEGV): a copy is needed and no frame is left. */
    method UnWpPage(d: nat, e: nat) returns (ok: bool)
      requires Valid() && Mapped(S(), d, e)
      modifies mem, memMap, this
      ensures Valid() && SameKernel(old(S()), S()) && held == old(held) && mem[0] == old(mem[0])
      ensures ok <==> old(SoleFrame(S(), d, e) || !NoneFree(S()))
      ensures !ok ==> S() == old(S())
      ensures ok ==> OnlyPage(old(S()), S(), d, e) && Mapped(S(), d, e) && Pte(S(), d, e).rw
      ensures ok ==> PageView(S(), d, e) == Privatize(old(S()), d, e) && OtherEntriesKept(old(S()), S(), d, e)
      ensures ok && old(SoleFrame(S(), d, e)) ==> Pte(S(), d, e) == old(Pte(S(), d, e)).(rw := true)
      ensures ok && !old(SoleFrame(S(), d, e)) ==> Pte(S(), d, e) == Word(Pte(S(), d, e).frame, 0, true, true, true)
      ensures ok ==> mem[Pte(S(), d, e).frame] == old(mem[Pte(S(), d, e).frame])
      ensures ok ==> FreeFrames(S()) == old(FreeFrames(S()) - One(!SoleFrame(S(), d, e)))
      ensures ok ==> FrameBy(old(S()), S(), d, e, old(!SoleFrame(S(), d, e))) && NoneFreed(old(S()), S())
      ensures ok ==> KeptOutside(old(S()), S(), {}) && NoNewBut(old(S()), S(), d, e)
    {
      EntryBound(S(), d, e);
      NoneFreeIs(S());
      var t := mem[0][d].frame;
      var old_page := mem[t][e].frame;
      if old_page >= LOW && memMap[old_page - LOW] == 1 {
        GrantWrite(d, e);
        return true;
      }
      ok := CopyOnWrite(d, e);
    }

    /** The rest of un_wp_page: a new frame with the contents of the old one. */
    method CopyOnWrite(d: nat, e: nat) returns (ok: bool)
      requires Valid() && Mapped(S(), d, e) && !SoleFrame(S(), d, e)
      modifies mem, memMap, this
      ensures Valid() && SameKernel(old(S()), S()) && held == old(held) && mem[0] == old(mem[0])
      ensures ok <==> old(FreeFrames(S()) > 0)
      ensures !ok ==> S() == old(S())
      ensures ok ==> OnlyPage(old(S()), S(), d, e) && Mapped(S(), d, e) && Pte(S(), d, e).rw
      ensures ok ==> PageView(S(), d, e) == Privatize(old(S()), d, e) && OtherEntriesKept(old(S()), S(), d, e)
      ensures ok ==> Pte(S(), d, e) == Word(Pte(S(), d, e).frame, 0, true, true, true)
      ensures ok ==> mem[Pte(S(), d, e).frame] == old(mem[Pte(S(), d, e).frame])
      ensures ok ==> FreeFrames(S()) == old(FreeFrames(S())) - 1 && NoneFreed(old(S()), S())
      ensures ok ==> Unused(old(S()), FrameAt(S(), d, e))
      ensures ok ==> KeptOutside(old(S()), S(), {}) && NoNewBut(old(S()), S(), d, e)
    {
      ghost var s0 := S();
      var new_page := GetFreePage();
      if new_page == 0 { return false; }
      ghost var s1 := S();
      CopyAfterAlloc(s0, s1, d, e, new_page);
      CopyKeepsEntries(s0, s1, d, e, new_page);
      CopyToPage(d, e, new_page);
      ok := true;
    }

    /** The entry gets its write bit back. */
    method GrantWrite(d: nat, e: nat)
      requires Valid() && Mapped(S(), d, e) && SoleFrame(S(), d, e)
      modifies mem
      ensures Valid() && SameKernel(old(S()), S()) && mem[0] == old(mem[0])
      ensures OnlyPage(old(S()), S(), d, e) && Mapped(S(), d, e) && Pte(S(), d, e).rw
      ensures PageView(S(), d, e) == Privatize(old(S()), d, e) && OtherEntriesKept(old(S()), S(), d, e)
      ensures Pte(S(), d, e) == old(Pte(S(), d, e)).(rw := true)
      ensures mem[Pte(S(), d, e).frame] == old(mem[Pte(S(), d, e).frame])
      ensures FrameAt(S(), d, e) == FrameAt(old(S()), d, e) && S().count == old(S().count)
      ensures FreeFrames(S()) == old(FreeFrames(S())) && KeptOutside(old(S()), S(), {}) && NoNewBut(old(S()), S(), d, e)
    {
      ghost var s := S();
      GrantStep(s, d, e);
      TableFrameIsPrivate(s, d);
      SetPteBits(s, d, e, Pte(s, d, e).(rw := true));
      InvDistinct(s);
      SetPteReads(s, d, e, Pte(s, d, e).(rw := true));
      var t := mem[0][d].frame;
      mem[t] := mem[t][e := mem[t][e].(rw := true)];
      assert S() == SetPte(s, d, e, Pte(s, d, e).(rw := true));
      KernelKept(s, S());
    }

    /** The end of un_wp_page. */
    method CopyToPage(d: nat, e: nat, new_page: nat)
      requires Valid() && Mapped(S(), d, e) && new_page in held && LOW <= new_page < HIGH
      requires LOW <= Pte(S(), d, e).frame ==> 1 <= memMap[Pte(S(), d, e).frame - LOW]
      requires var s' := CopyPte(S(), d, e, new_page);
        Inv(s') && s'.mem[0] == mem[0] && s'.mem[1] == mem[1] && s'.mem[2] == mem[2]
      modifies mem, memMap, this
      ensures Valid() && SameKernel(old(S()), S()) && S() == CopyPte(old(S()), d, e, new_page)
    {
      ghost var s := S();
      EntryBound(s, d, e);
      var t := mem[0][d].frame;
      var old_page := mem[t][e].frame;
      if old_page >= LOW {
        memMap[old_page - LOW] := memMap[old_page - LOW] - 1;
      }
      mem[t] := mem[t][e := Entry7(new_page)];
      mem[new_page] := mem[old_page];
      held := held - {new_page};
      TableFrameIsPrivate(s, d);
      assert S().mem == CopyPte(s, d, e, new_page).mem;
      assert S() == CopyPte(s, d, e, new_page);
      KernelKept(s, S());
    }

    /** One word written through a writable entry. */
    method StoreWord(d: nat, e: nat, i: nat, w: Word)
      requires Valid() && Mapped(S(), d, e) && Pte(S(), d, e).rw && i < ENTRIES
      modifies mem
      ensures Valid() && SameKernel(old(S()), S()) && OnlyPage(old(S()), S(), d, e)
      ensures PageView(S(), d, e) == Own(old(PageView(S(), d, e)).page[i := w])
      ensures mem[0] == old(mem[0])
      ensures forall d', e' :: Mapped(S(), d', e') ==>
        Mapped(old(S()), d', e') && Pte(S(), d', e') == Pte(old(S()), d', e')
      ensures FreeFrames(S()) == old(FreeFrames(S())) && KeptOutside(old(S()), S(), {})
    {
      ghost var s := S();
      EntryBound(s, d, e);
      var f := mem[mem[0][d].frame][e].frame;
      forall d' | HasDir(s, d') ensures s.mem[0][d'].frame != f { DataFrameIsNoTable(s, d, e, d'); }
      WriteStep(s, f, mem[f][i := w]);
      WriteBits(s, f, mem[f][i := w]);
      SoleOwner(s, d, e);
      DataFrameIsNotHeld(s, d, e);
      forall d', e' | MappedTo(s, d', e', f) ensures d' == d && e' == e { assert (d', e') in Refs(s, f); }
      mem[f] := mem[f][i := w];
      assert S() == s.(mem := s.mem[f := s.mem[f][i := w]]);
      KernelKept(s, S());
    }
  }

  /** The contents behind a present page, whoever shares it. */
  ghost function Privatize(s: State, d: int, e: int): View
    requires Inv(s) && Mapped(s, d, e)
  {
    Own(s.mem[Pte(s, d, e).frame])
  }

  lemma LinkDirSilent(s0: State, s1: State, s2: State, d: int)
    requires Inv(s0) && Inv(s1) && Inv(s2) && NoPage(s0, s1) && OnlyDir(s1, s2, d)
    ensures OnlyDir(s0, s2, d)
  {
    forall d' | d' != d ensures SameDir(s0, s2, d') { assert SameDir(s0, s1, d') && SameDir(s1, s2, d'); }
    forall d', e' | Slot(d', e') ensures SamePage(s0, s2, d', e') {
      assert SamePage(s0, s1, d', e') && SamePage(s1, s2, d', e');
    }
  }

  lemma StillAbsent(s0: State, s: State, d: int, e: int)
    requires Inv(s0) && Inv(s) && OnlyDir(s0, s, d) && Slot(d, e) && !Mapped(s0, d, e)
    ensures !Mapped(s, d, e)
  {
    assert SamePage(s0, s, d, e);
  }

  lemma OnlyPageAfter(s0: State, s: State, s': State, d: int, e: int)
    requires Inv(s0) && Inv(s) && Inv(s') && OnlyDir(s0, s, d) && OnlyPage(s, s', d, e)
    ensures forall d' :: d' != d ==> SameDir(s0, s', d')
    ensures forall d', e' :: Slot(d', e') && !(d' == d && e' == e) ==> SamePage(s0, s', d', e')
  {
    forall d' | d' != d ensures SameDir(s0, s', d') { assert SameDir(s0, s, d') && SameDir(s, s', d'); }
    forall d', e' | Slot(d', e') && !(d' == d && e' == e) ensures SamePage(s0, s', d', e') {
      assert SamePage(s0, s, d', e') && SamePage(s, s', d', e');
    }
  }

  lemma OnlyPageAfterNoPage(s0: State, s: State, s': State, d: int, e: int)
    requires Inv(s0) && Inv(s) && Inv(s') && NoPage(s0, s) && OnlyPage(s, s', d, e)
    ensures OnlyPage(s0, s', d, e)
  {
    forall d' ensures SameDir(s0, s', d') { assert SameDir(s0, s, d') && SameDir(s, s', d'); }
    forall d', e' | Slot(d', e') && !(d' == d && e' == e) ensures SamePage(s0, s', d', e') {
      assert SamePage(s0, s, d', e') && SamePage(s, s', d', e');
    }
  }

  /** un_wp_page's copy, from the state in which the new frame is held. */
  ghost function CopyPte(s: State, d: int, e: int, f: nat): State
    requires Inv(s) && Mapped(s, d, e) && f in s.held
  {
    var g := Pte(s, d, e).frame;
    var t := s.mem[0][d].frame;
    var mem := s.mem[t := s.mem[t][e := Entry7(f)]];
    State(mem[f := mem[g]],
          if g >= LOW then s.count[g - LOW := if s.count[g - LOW] > 0 then s.count[g - LOW] - 1 else 0] else s.count,
          s.held - {f})
  }

  lemma CopyStep(s: State, d: int, e: int, f: nat)
    requires Inv(s) && Mapped(s, d, e) && f in s.held
    ensures var s' := CopyPte(s, d, e, f);
      && Inv(s') && OnlyPage(s, s', d, e) && Mapped(s', d, e) && Pte(s', d, e).rw
      && PageView(s', d, e) == Privatize(s, d, e) && FrameAt(s', d, e) == f
    ensures LOW <= Pte(s, d, e).frame ==> 1 <= s.count[Pte(s, d, e).frame - LOW]
    ensures var s' := CopyPte(s, d, e, f);
      FreeFrames(s') == FreeFrames(s) + One(SoleFrame(s, d, e)) && KeptBut(s, s', d, e) && NoNewBut(s, s', d, e)
  {
    var g, t := Pte(s, d, e).frame, s.mem[0][d].frame;
    forall d' | HasDir(s, d') ensures s.mem[0][d'].frame != f { TableFrameIsPrivate(s, d'); }
    DataFrameIsNotHeld(s, d, e);
    DataFrameIsNoTable(s, d, e, d);
    if LOW <= g { MappedIsCounted(s, d, e); }
    WriteStep(s, f, s.mem[g]);
    var s1 := s.(mem := s.mem[f := s.mem[g]]);
    assert Mapped(s1, d, e) && Pte(s1, d, e) == Pte(s, d, e);
    forall d', e' | Mapped(s, d', e') ensures Pte(s, d', e').frame != f { DataFrameIsNotHeld(s, d', e'); }
    assert NoPage(s, s1);
    ClearPteStep(s1, d, e);
    var s2 := ClearPte(s1, d, e);
    LinkPteStep(s2, d, e, f);
    LinkPteTables(s2, d, e, f);
    var s3 := LinkPte(s2, d, e, f);
    assert s3 == CopyPte(s, d, e, f) by {
      assert s3.mem[t] == s.mem[t][e := Entry7(f)];
      assert s3.mem == CopyPte(s, d, e, f).mem;
    }
    OnlyPageTwice(s1, s2, s3, d, e);
    OnlyPageAfterNoPage(s, s1, s3, d, e);
    WriteBits(s, f, s.mem[g]);
    ClearPteBits(s1, d, e);
    LinkPteBits(s2, d, e, f);
    CopyBits(s, s1, s2, s3, d, e);
  }

  lemma CopyBits(s: State, s1: State, s2: State, s3: State, d: int, e: int)
    requires Inv(s) && Inv(s1) && Inv(s2) && Inv(s3)
    requires KeptOutside(s, s1, {}) && KeptBut(s1, s2, d, e) && KeptOutside(s2, s3, {})
    requires NoNewBut(s, s1, d, e) && NoNewBut(s1, s2, d, e) && NoNewBut(s2, s3, d, e)
    ensures KeptBut(s, s3, d, e) && NoNewBut(s, s3, d, e)
  {
    KeptButTrans(s, s1, s2, d, e);
    KeptButTwice(s, s2, s3, d, e);
    NoNewTrans(s, s1, s2, d, e);
    NoNewTrans(s, s2, s3, d, e);
  }

  /** Every other entry is the word it was. */
  ghost predicate OtherEntriesKept(s: State, s': State, d: int, e: int)
    requires Inv(s) && Inv(s')
  {
    forall d', e' :: Mapped(s', d', e') && !(d' == d && e' == e) ==>
      Mapped(s, d', e') && Pte(s', d', e') == Pte(s, d', e')
  }

  lemma CopyKeepsEntries(s0: State, s1: State, d: int, e: int, f: nat)
    requires Inv(s0) && Mapped(s0, d, e) && LOW <= f < HIGH && s0.count[f - LOW] == 0
    requires Inv(s1) && s1 == Alloc(s0, f) && Mapped(s1, d, e) && Inv(CopyPte(s1, d, e, f))
    ensures OtherEntriesKept(s0, CopyPte(s1, d, e, f), d, e)
  {
    var s' := CopyPte(s1, d, e, f);
    var t := s1.mem[0][d].frame;
    InvDistinct(s1);
    forall d' | HasDir(s1, d') ensures s1.mem[0][d'].frame != f { TableFrameIsPrivate(s1, d'); }
    forall d', e' | Mapped(s', d', e') && !(d' == d && e' == e)
      ensures Mapped(s0, d', e') && Pte(s', d', e') == Pte(s0, d', e')
    {
      assert s'.mem[0] == s1.mem[0] == s0.mem[0];
      assert HasDir(s1, d') && HasDir(s0, d');
      assert s1.mem[s1.mem[0][d'].frame] == s0.mem[s0.mem[0][d'].frame];
    }
  }

  lemma CopyAfterAlloc(s0: State, s1: State, d: int, e: int, f: nat)
    requires Inv(s0) && Mapped(s0, d, e) && LOW <= f < HIGH && s0.count[f - LOW] == 0
    requires Inv(s1) && s1 == Alloc(s0, f) && NoPage(s0, s1)
    ensures Mapped(s1, d, e) && Pte(s1, d, e) == Pte(s0, d, e)
    ensures LOW <= Pte(s0, d, e).frame ==> 1 <= s1.count[Pte(s0, d, e).frame - LOW]
    ensures var s' := CopyPte(s1, d, e, f);
      && Inv(s') && OnlyPage(s0, s', d, e) && Mapped(s', d, e) && Pte(s', d, e).rw
      && PageView(s', d, e) == Privatize(s0, d, e) && FrameAt(s', d, e) == f && s'.mem[0] == s1.mem[0]
      && s'.mem[1] == s1.mem[1] && s'.mem[2] == s1.mem[2]
    ensures var s' := CopyPte(s1, d, e, f);
      FreeFrames(s') == FreeFrames(s0) - One(!SoleFrame(s0, d, e)) && KeptOutside(s0, s', {}) && NoNewBut(s0, s', d, e)
    ensures !SoleFrame(s0, d, e) ==> NoneFreed(s0, CopyPte(s1, d, e, f))
  {
    FreshFrame(s0, s1, d, e, f);
    CopyStep(s1, d, e, f);
    OnlyPageAfterNoPage(s0, s1, CopyPte(s1, d, e, f), d, e);
    AllocBits(s0, f);
    CopiedPageBits(s0, s1, CopyPte(s1, d, e, f), d, e);
    if !SoleFrame(s0, d, e) { CopyFreesNone(s0, s1, d, e, f); }
  }

  lemma CopyFreesNone(s0: State, s1: State, d: int, e: int, f: nat)
    requires Inv(s0) && Inv(s1) && Mapped(s0, d, e) && !SoleFrame(s0, d, e) && LOW <= f < HIGH && s0.count[f - LOW] == 0
    requires s1 == Alloc(s0, f) && Mapped(s1, d, e) && Pte(s1, d, e) == Pte(s0, d, e) && Inv(CopyPte(s1, d, e, f))
    ensures NoneFreed(s0, CopyPte(s1, d, e, f))
  {
    if LOW <= Pte(s0, d, e).frame { MappedIsCounted(s0, d, e); }
  }

  lemma CopiedPageBits(s0: State, s1: State, s': State, d: int, e: int)
    requires Inv(s0) && Inv(s1) && Inv(s') && KeptOutside(s0, s1, {}) && KeptBut(s1, s', d, e) && Writable(s', d, e)
    requires NoNewBut(s0, s1, d, e) && NoNewBut(s1, s', d, e)
    ensures KeptOutside(s0, s', {}) && NoNewBut(s0, s', d, e)
  {
    KeptButTrans(s0, s1, s', d, e);
    NoNewTrans(s0, s1, s', d, e);
    forall d', e' | Slot(d', e') ensures BitsKept(s0, s', d', e') {
      if d' == d && e' == e { assert Alone(s', d, e); }
    }
  }

  lemma OnlyPageTwice(s0: State, s: State, s': State, d: int, e: int)
    requires Inv(s0) && Inv(s) && Inv(s') && OnlyPage(s0, s, d, e) && OnlyPage(s, s', d, e)
    ensures OnlyPage(s0, s', d, e)
  {
    forall d' ensures SameDir(s0, s', d') { assert SameDir(s0, s, d') && SameDir(s, s', d'); }
    forall d', e' | Slot(d', e') && !(d' == d && e' == e) ensures SamePage(s0, s', d', e') {
      assert SamePage(s0, s, d', e') && SamePage(s, s', d', e');
    }
  }

  lemma FreshFrame(s0: State, s1: State, d: int, e: int, f: nat)
    requires Inv(s0) && Mapped(s0, d, e) && LOW <= f < HIGH && s0.count[f - LOW] == 0 && s1 == Alloc(s0, f)
    ensures Inv(s1) && Mapped(s1, d, e) && Pte(s1, d, e) == Pte(s0, d, e) && Privatize(s1, d, e) == Privatize(s0, d, e)
  {
    AllocStep(s0, f);
    EntryBound(s0, d, e);
    if LOW <= Pte(s0, d, e).frame { MappedIsCounted(s0, d, e); }
    forall d' | HasDir(s0, d') ensures s0.mem[0][d'].frame != f { assert s0.count[s0.mem[0][d'].frame - LOW] == 1; }
    TablesUntouched(s0, s1);
    MappedSame(s0, s1);
  }

  /** Entry e of directory d2 now shows what a child gets for entry e of directory d, on the same frame. */
  ghost predicate Inherits(s: State, s': State, d: int, d2: int, e: int)
    requires Inv(s) && Inv(s') && 0 <= e < ENTRIES
  {
    PageView(s', d2, e) == InheritedView(s, d, e) && FrameAt(s', d2, e) == InheritedFrame(s, d, e)
  }

  ghost predicate InheritsAt(s: State, s': State, from: int, to: int, d: int, e: int)
    requires Inv(s) && Inv(s') && 0 <= e < ENTRIES
  {
    Inherits(s, s', d - to + from, d, e)
  }

  /** The first k directories from `to` look as the ones from `from` did. */
  ghost predicate Inherited(s0: State, s: State, from: int, to: int, k: int)
    requires Inv(s0) && Inv(s)
  {
    forall d, e :: to <= d < to + k && 0 <= e < ENTRIES ==> InheritsAt(s0, s, from, to, d, e)
  }

  // ---------------------------------------------------------------- what a fork copies, word by word

  /** The word at entry e of directory d; zero where there is no page table. */
  ghost function WordAt(s: State, d: int, e: int): Word
    requires Shape(s) && 0 <= d < ENTRIES && 0 <= e < ENTRIES
  {
    if s.mem[0][d].present && s.mem[0][d].frame < HIGH then s.mem[s.mem[0][d].frame][e] else ZERO
  }

  /** Entry e of directory d2 is what was in entry e of directory d without the write bit, and nothing if that
      was not present; of directory 0 only the first 160 entries count. */
  ghost predicate WordCopied(s: State, s': State, d: int, d2: int, e: int)
    requires Inv(s) && Inv(s') && 0 <= d < ENTRIES && 0 <= e < ENTRIES
  {
    var w := WordAt(s, d, e);
    if w.present && (d == 0 ==> e < 160) then Mapped(s', d2, e) && Pte(s', d2, e) == w.(rw := false)
    else !Mapped(s', d2, e)
  }

  /** Entry e of the k-th directory from `to` and of the k-th from `from`. */
  ghost predicate EntryCopied(s: State, s': State, from: nat, to: nat, k: nat, e: nat)
    requires Inv(s) && Inv(s')
  {
    from + k < ENTRIES && e < ENTRIES && WordCopied(s, s', from + k, to + k, e)
  }

  /** Frame e of the low memory, for reading. */
  ghost predicate LentEntry(s: State, d: int, e: nat)
    requires Inv(s)
  {
    Mapped(s, d, e) && Pte(s, d, e) == Word(e, 0, true, false, true)
  }

  /** A present entry is what it was but for its write bit. */
  ghost predicate SameWord(s: State, s': State, d: int, e: int)
    requires Inv(s) && Inv(s')
  {
    Mapped(s, d, e) ==> Mapped(s', d, e) && Pte(s', d, e).(rw := false) == Pte(s, d, e).(rw := false)
  }

  ghost predicate SameWords(s: State, s': State)
    requires Inv(s) && Inv(s')
  {
    forall d, e :: SameWord(s, s', d, e)
  }

  lemma SameWordsTrans(s0: State, s: State, s': State)
    requires Inv(s0) && Inv(s) && Inv(s') && SameWords(s0, s) && SameWords(s, s')
    ensures SameWords(s0, s')
  {
    forall d, e ensures SameWord(s0, s', d, e) { assert SameWord(s0, s, d, e) && SameWord(s, s', d, e); }
  }

  lemma SharedWords(s: State, d: int, d2: int, e: int)
    requires Inv(s) && HasDir(s, d2) && Mapped(s, d, e) && !Mapped(s, d2, e) && LOW <= Pte(s, d, e).frame
    requires Pte(s, d, e).frame < HIGH && Inv(Share(s, d, d2, e))
    ensures SameWords(s, Share(s, d, d2, e)) && WordCopied(s, Share(s, d, d2, e), d, d2, e)
  {
    ShareTables(s, d, d2, e);
  }

  lemma SharedLowWords(s: State, d: int, d2: int, e: int)
    requires Inv(s) && KernelMapped(s) && HasDir(s, d2) && 0 <= e < ENTRIES && !Mapped(s, d2, e)
    requires (d == 0 && e < 160) || HasDir(s, d)
    requires WordAt(s, d, e).present && Inv(SetPte(s, d2, e, WordAt(s, d, e).(rw := false)))
    ensures var s' := SetPte(s, d2, e, WordAt(s, d, e).(rw := false));
      SameWords(s, s') && WordCopied(s, s', d, d2, e)
  {
    InvDistinct(s);
    SetPteReads(s, d2, e, WordAt(s, d, e).(rw := false));
  }

  /** The first n entries of directory d2 are those of directory d, and no other entry has changed. */
  ghost predicate TableWords(s0: State, s: State, d: nat, d2: int, n: int)
    requires Inv(s0) && Inv(s) && d < ENTRIES
  {
    SameWords(s0, s) && forall k :: 0 <= k < ENTRIES && k < n ==> WordCopied(s0, s, d, d2, k)
  }

  /** The source as it was at the start. */
  lemma SourceWord(s0: State, s: State, d: nat, e: int)
    requires Inv(s0) && Inv(s) && d < ENTRIES && 0 <= e < ENTRIES && SameWords(s0, s)
    requires (d == 0 && KernelMapped(s0) && KernelMapped(s)) || (HasDir(s0, d) && HasDir(s, d) && SamePage(s0, s, d, e))
    ensures WordAt(s, d, e).present == WordAt(s0, d, e).present
    ensures WordAt(s, d, e).present ==> WordAt(s, d, e).(rw := false) == WordAt(s0, d, e).(rw := false)
  {
    if d != 0 { assert SameWord(s0, s, d, e); }
  }

  lemma CopiedStays(s0: State, s: State, s': State, d: nat, d2: int, e: int)
    requires Inv(s0) && Inv(s) && Inv(s') && d < ENTRIES && 0 <= e < ENTRIES && WordCopied(s0, s, d, d2, e)
    requires SameWord(s, s', d2, e) && (Slot(d2, e) ==> SamePage(s, s', d2, e))
    ensures WordCopied(s0, s', d, d2, e)
  {
    if Mapped(s, d2, e) { assert !Writable(s', d2, e); }
  }

  lemma TableWordsMore(s0: State, s: State, s': State, d: nat, d2: int, e: int)
    requires Inv(s0) && Inv(s) && Inv(s') && KernelMapped(s0) && KernelMapped(s) && d < ENTRIES && d != d2
    requires UserDir(d2) && 0 <= e < ENTRIES && TableWords(s0, s, d, d2, e) && OnlyTable(s0, s, d2)
    requires OnlyPage(s, s', d2, e) && WordCopied(s, s', d, d2, e) && SameWords(s, s')
    requires d == 0 || (HasDir(s0, d) && HasDir(s, d))
    ensures TableWords(s0, s', d, d2, e + 1)
  {
    SameWordsTrans(s0, s, s');
    if d != 0 { assert SamePage(s0, s, d, e); }
    SourceWord(s0, s, d, e);
    forall k | 0 <= k < ENTRIES && k < e + 1 ensures WordCopied(s0, s', d, d2, k) {
      if k < e {
        assert SamePage(s, s', d2, k) && SameWord(s, s', d2, k);
        CopiedStays(s0, s, s', d, d2, k);
      }
    }
  }

  /** Behind the entries copied the new table is empty. */
  lemma TableWordsAll(s0: State, s: State, d: nat, d2: int, n: int)
    requires Inv(s0) && Inv(s) && d < ENTRIES && TableWords(s0, s, d, d2, n) && TableCopied(s0, s, d, d2, n)
    requires (d == 0 && n == 160) || n == ENTRIES
    ensures TableWords(s0, s, d, d2, ENTRIES)
  {
    forall k | n <= k < ENTRIES ensures WordCopied(s0, s, d, d2, k) { assert PageView(s, d2, k) == Absent; }
  }

  lemma NoWords(s: State, d: nat, d2: nat)
    requires Inv(s) && d < ENTRIES && UserDir(d2) && !HasDir(s, d2) && !s.mem[0][d].present
    ensures TableWords(s, s, d, d2, ENTRIES)
  {
  }

  /** A new page table changes no entry. */
  lemma NewTableWords(s0: State, s1: State, s2: State, f: nat)
    requires Inv(s0) && Inv(s1) && Inv(s2) && LOW <= f < HIGH && s0.count[f - LOW] == 0 && s1 == Alloc(s0, f)
    requires SameWords(s1, s2)
    ensures SameWords(s0, s2)
  {
    forall d | HasDir(s0, d) ensures s0.mem[0][d].frame != f { assert s0.count[s0.mem[0][d].frame - LOW] == 1; }
    TablesUntouched(s0, s1);
    MappedSame(s0, s1);
    SameWordsTrans(s0, s1, s2);
  }

  lemma WordsFrom(s0: State, s: State, s': State, d: nat, d2: nat)
    requires Inv(s0) && Inv(s) && Inv(s') && KernelMapped(s0) && KernelMapped(s) && d < ENTRIES && d != d2
    requires OnlyDir(s0, s, d2) && SameWords(s0, s) && TableWords(s, s', d, d2, ENTRIES)
    requires d == 0 || (HasDir(s0, d) && HasDir(s, d))
    ensures TableWords(s0, s', d, d2, ENTRIES)
  {
    SameWordsTrans(s0, s, s');
    forall e | 0 <= e < ENTRIES ensures WordCopied(s0, s', d, d2, e) {
      if d != 0 { assert SamePage(s0, s, d, e); }
      SourceWord(s0, s, d, e);
      assert WordCopied(s, s', d, d2, e);
    }
  }

  /** The first n directories from `to` are through. */
  ghost predicate WordsTo(s0: State, s: State, from: nat, to: nat, n: nat)
    requires Inv(s0) && Inv(s)
  {
    SameWords(s0, s) && forall k: nat, e: nat :: k < n && e < ENTRIES ==> EntryCopied(s0, s, from, to, k, e)
  }

  lemma WordsMore(s0: State, s: State, s': State, from: nat, to: nat, n: nat, k: nat)
    requires Inv(s0) && Inv(s) && Inv(s') && KernelMapped(s0) && KernelMapped(s) && k < n
    requires SameOutside(s0, s, to, to + n) && WordsTo(s0, s, from, to, k) && from + k < ENTRIES && UserDir(to + k)
    requires !(to <= from + k < to + n) && (from + k < DIRS ==> from + k == 0) && DIRS <= to
    requires OnlyDirectory(s, s', to + k) && TableWords(s, s', from + k, to + k, ENTRIES)
    ensures WordsTo(s0, s', from, to, k + 1)
  {
    SameWordsTrans(s0, s, s');
    forall j: nat, e: nat | j < k + 1 && e < ENTRIES ensures EntryCopied(s0, s', from, to, j, e) {
      if j < k {
        assert EntryCopied(s0, s, from, to, j, e) && SamePage(s, s', to + j, e) && SameWord(s, s', to + j, e);
        CopiedStays(s0, s, s', from + j, to + j, e);
      } else {
        EntryFrom(s0, s, s', from + k, to + k, e, to, n);
      }
    }
  }

  lemma EntryFrom(s0: State, s: State, s': State, d: nat, d2: nat, e: nat, to: nat, n: nat)
    requires Inv(s0) && Inv(s) && Inv(s') && KernelMapped(s0) && KernelMapped(s) && d < ENTRIES && e < ENTRIES
    requires SameOutside(s0, s, to, to + n) && !(to <= d < to + n) && (d < DIRS ==> d == 0)
    requires SameWords(s0, s) && TableWords(s, s', d, d2, ENTRIES)
    ensures WordCopied(s0, s', d, d2, e)
  {
    assert WordCopied(s, s', d, d2, e);
    if d != 0 { assert SameDir(s0, s, d) && SamePage(s0, s, d, e); }
    if d == 0 || HasDir(s0, d) { SourceWord(s0, s, d, e); }
  }

  /** At the end, with what that means for the child of task 0. */
  lemma EveryEntry(s0: State, s: State, from: nat, to: nat, n: nat)
    requires Inv(s0) && Inv(s) && KernelMapped(s0) && WordsTo(s0, s, from, to, n) && UserDir(to)
    ensures from == 0 && n > 0 ==>
      forall e: nat :: e < ENTRIES ==> if e < 160 then LentEntry(s, to, e) else !Mapped(s, to, e)
  {
    if from == 0 && n > 0 {
      forall e: nat | e < ENTRIES ensures if e < 160 then LentEntry(s, to, e) else !Mapped(s, to, e) {
        assert EntryCopied(s0, s, from, to, 0, e);
        assert WordAt(s0, 0, e) == Entry7(e);
      }
    }
  }

  /** Directory d and its pages are all that changed. */
  ghost predicate OnlyDirectory(s: State, s': State, d: int)
    requires Inv(s) && Inv(s')
  {
    && (forall d' :: d' != d ==> SameDir(s, s', d'))
    && (forall d', e' :: Slot(d', e') && d' != d ==> SamePage(s, s', d', e'))
  }

  lemma UnlinkNoNew(s: State, d: int)
    requires Inv(s) && HasDir(s, d) && EmptyTable(s.mem[s.mem[0][d].frame]) && Inv(UnlinkDir(s, d))
    ensures NoNewOutside(s, UnlinkDir(s, d), d / DIRS, {d})
  {
    UnlinkDirTables(s, d);
    forall d', e' | Mapped(s, d', e') ensures Pte(s, d', e').frame != s.mem[0][d].frame {
      DataFrameIsNoTable(s, d', e', d);
    }
  }

  lemma CopiedBits(s0: State, s1: State, s2: State, s3: State, d: int, d2: int)
    requires Inv(s0) && Inv(s1) && Inv(s2) && Inv(s3)
    requires KeptOutside(s0, s1, {}) && KeptOutside(s1, s2, {}) && KeptOutside(s2, s3, {d, d2})
    ensures KeptOutside(s0, s3, {d, d2})
  {
    KeptTrans(s0, s1, s2, {});
    KeptWider(s0, s2, {}, {d, d2});
    KeptTrans(s0, s2, s3, {d, d2});
  }

  /** Where the outer loop of copy_page_tables has got to. */
  ghost predicate SharedTo(s0: State, s: State, from: nat, to: int, n: int, k: nat)
    requires Inv(s0) && Inv(s)
  {
    && SameOutside(s0, s, to, to + n) && (forall d :: to + k <= d < to + n ==> !HasDir(s, d))
    && Inherited(s0, s, from, to, k) && CopiedTo(s0, s, from, to, n, k) && DirsInherited(s0, s, from, to, k)
  }

  /** The page tables of the first k directories from `to` are there as the ones from `from` were. */
  ghost predicate DirsInherited(s0: State, s: State, from: int, to: int, k: int)
    requires Inv(s0) && Inv(s)
  {
    forall d :: to <= d < to + k && 0 <= d - to + from < ENTRIES ==>
      (HasDir(s, d) <==> s0.mem[0][d - to + from].present)
  }

  lemma NextDir(s0: State, s: State, s': State, from: int, to: int, k: int)
    requires Inv(s0) && Inv(s) && Inv(s') && DirsInherited(s0, s, from, to, k) && OnlyDirectory(s, s', to + k) && 0 <= k
    requires 0 <= from + k < ENTRIES ==> (HasDir(s', to + k) <==> s0.mem[0][from + k].present)
    ensures DirsInherited(s0, s', from, to, k + 1)
  {
    forall d | to <= d < to + k + 1 && 0 <= d - to + from < ENTRIES
      ensures HasDir(s', d) <==> s0.mem[0][d - to + from].present
    {
      if d < to + k { assert SameDir(s, s', d); }
    }
  }

  lemma SharedMore(s0: State, s: State, s': State, from: nat, to: nat, n: nat, k: nat)
    requires Inv(s0) && Inv(s) && Inv(s') && k < n && SharedTo(s0, s, from, to, n, k)
    requires (from == 0 ==> n <= 1 && s0.mem[0][0].present) && (from == 0 || DIRS <= from) && from + n <= ENTRIES
    requires DIRS <= to && to + n <= ENTRIES && !(to <= from + k < to + n)
    requires DirCopied(s, s', from + k, to + k) && (s.mem[0][from + k].present <==> s0.mem[0][from + k].present)
    ensures SharedTo(s0, s', from, to, n, k + 1)
  {
    CopiedMore(s0, s, s', from, to, n, k);
    DirectoryOnly(s, s', to, n, k);
    SameOutsideTrans(s0, s, s', to, to + n);
    NextStillEmpty(s, s', to, n, k);
    NextInherited(s0, s, s', from, to, n, k, from + k);
    NextDir(s0, s, s', from, to, k);
  }

  /** What one turn did: d2 has the pages of d, for one frame if there was a page table to copy. */
  ghost predicate DirCopied(s: State, s': State, d: nat, d2: nat)
    requires Inv(s) && Inv(s') && d < ENTRIES
  {
    && OnlyDirectory(s, s', d2) && KeptOutside(s, s', {d, d2})
    && FreeFrames(s') == FreeFrames(s) - One(s.mem[0][d].present)
    && (HasDir(s', d2) <==> s.mem[0][d].present)
    && (forall e :: 0 <= e < ENTRIES ==> Inherits(s, s', d, d2, e) && ReadOnlyPair(s', d, d2, e))
  }

  lemma NoDirectory(s: State, d: nat, d2: nat)
    requires Inv(s) && d < ENTRIES && (d < DIRS ==> d == 0) && UserDir(d2) && !HasDir(s, d2) && !s.mem[0][d].present
    requires KernelMapped(s)
    ensures DirCopied(s, s, d, d2)
  {
  }

  lemma SourceKept(s0: State, s1: State, s2: State, d: nat, d2: nat)
    requires Inv(s0) && Inv(s1) && Inv(s2) && NoPage(s0, s1) && OnlyDir(s1, s2, d2) && d < ENTRIES && d != d2
    requires (d < DIRS ==> d == 0) && s0.mem[0][d].present
    ensures d != 0 ==> HasDir(s0, d) && HasDir(s2, d)
  {
    assert d != 0 ==> SameDir(s1, s2, d) && SameDir(s0, s1, d);
  }

  /** A new page table, filled from directory d. */
  lemma DirectoryCopied(s0: State, s1: State, s2: State, s3: State, d: nat, d2: nat, nr: nat)
    requires Inv(s0) && Inv(s1) && Inv(s2) && Inv(s3) && d < ENTRIES && s0.mem[0][d].present && UserDir(d2) && d != d2
    requires NoPage(s0, s1) && OnlyDir(s1, s2, d2) && TableCopied(s2, s3, d, d2, nr)
    requires (d == 0 && nr == 160) || (HasDir(s0, d) && nr == ENTRIES)
    requires FreeFrames(s1) == FreeFrames(s0) - 1 && FreeFrames(s2) == FreeFrames(s1)
    requires KeptOutside(s0, s1, {}) && KeptOutside(s1, s2, {})
    ensures DirCopied(s0, s3, d, d2)
  {
    CopiedBits(s0, s1, s2, s3, d, d2);
    LinkDirSilent(s0, s1, s2, d2);
    forall d' | d' != d2 ensures SameDir(s0, s3, d') {
      assert SameDir(s0, s2, d') && SameDir(s2, s3, d');
    }
    forall d', e' | Slot(d', e') && d' != d2 ensures SamePage(s0, s3, d', e') {
      assert SamePage(s0, s2, d', e') && SamePage(s2, s3, d', e');
    }
    forall e | 0 <= e < ENTRIES ensures Inherits(s0, s3, d, d2, e) {
      if e < nr { assert Inherits(s2, s3, d, d2, e); }
      if d != 0 { assert SamePage(s0, s2, d, e); }
    }
    CopiedReadOnly(s0, s3, d, d2);
  }

  lemma CopiedReadOnly(s: State, s': State, d: nat, d2: nat)
    requires Inv(s) && Inv(s') && UserDir(d2) && d != d2 && (d == 0 || HasDir(s, d)) && OnlyDirectory(s, s', d2)
    requires forall e :: 0 <= e < ENTRIES ==> Inherits(s, s', d, d2, e)
    ensures forall e :: 0 <= e < ENTRIES ==> ReadOnlyPair(s', d, d2, e)
  {
    forall e | 0 <= e < ENTRIES ensures ReadOnlyPair(s', d, d2, e) {
      if d != 0 { assert SamePage(s, s', d, e); }
      InheritsReadOnly(s, s', d, d2, e);
    }
  }

  lemma DirectoryOnly(s: State, s': State, to: int, n: int, k: int)
    requires Inv(s) && Inv(s') && OnlyDirectory(s, s', to + k) && 0 <= k < n
    ensures SameOutside(s, s', to, to + n)
  {
  }

  /** How far the outer loop of copy_page_tables has got: a frame for every page table so far, and the write
      bits of the source and the target are all that may be gone. */
  ghost predicate CopiedTo(s0: State, s: State, from: nat, to: int, n: int, k: nat)
    requires Inv(s0) && Inv(s)
  {
    && FreeFrames(s) == FreeFrames(s0) - Sources(s0, from, k)
    && KeptOutside(s0, s, Range(from, from + n) + Range(to, to + n))
  }

  lemma CopiedMore(s0: State, s: State, s': State, from: nat, to: int, n: nat, k: nat)
    requires Inv(s0) && Inv(s) && Inv(s') && k < n && CopiedTo(s0, s, from, to, n, k)
    requires (from == 0 ==> n <= 1 && s0.mem[0][0].present) && (from == 0 || DIRS <= from) && from + n <= ENTRIES
    requires KeptOutside(s, s', {from + k, to + k})
    requires FreeFrames(s') == FreeFrames(s) - One(s0.mem[0][from + k].present)
    ensures CopiedTo(s0, s', from, to, n, k + 1)
  {
    SourcesMore(s0, from, n, k);
    assert Between(from + k, from, from + n) && Between(to + k, to, to + n);
    KeptWider(s, s', {from + k, to + k}, Range(from, from + n) + Range(to, to + n));
    KeptTrans(s0, s, s', Range(from, from + n) + Range(to, to + n));
  }

  /** The source directory is there when the loop comes to it exactly if it was there at the start. */
  lemma SourceThere(s0: State, s: State, from: nat, to: nat, n: nat, k: nat)
    requires Inv(s0) && Inv(s) && SameOutside(s0, s, to, to + n) && k < n && from + k < ENTRIES
    requires KernelMapped(s0) && KernelMapped(s) && !(to <= from + k < to + n) && (from + k < DIRS ==> from + k == 0)
    ensures s.mem[0][from + k].present <==> s0.mem[0][from + k].present
  {
    if UserDir(from + k) { assert SameDir(s0, s, from + k); }
  }

  /** How many page tables copy_page_tables makes for the first n directories. */
  ghost function Sources(s: State, from: nat, n: nat): nat
    requires Shape(s)
  {
    if from == 0 then One(n > 0) else |TablesIn(s, from, from + n)|
  }

  lemma SourcesMore(s: State, from: nat, n: nat, k: nat)
    requires Shape(s) && k < n && (from == 0 ==> n <= 1) && (from == 0 || DIRS <= from) && from + n <= ENTRIES
    requires from == 0 ==> s.mem[0][0].present
    ensures Sources(s, from, k + 1) == Sources(s, from, k) + One(s.mem[0][from + k].present) <= Sources(s, from, n)
  {
    if from > 0 {
      TablesSplit(s, from, from + k, from + k + 1);
      TablesOne(s, from + k);
      TablesSplit(s, from, from + k + 1, from + n);
    }
  }

  /** After a copy neither side may write to the page, and neither has its frame alone. */
  ghost predicate ReadOnlyPair(s: State, d: int, d2: int, e: int)
    requires Inv(s)
  {
    !Writable(s, d, e) && !Writable(s, d2, e) && !Alone(s, d, e) && !Alone(s, d2, e)
  }

  /** Two entries with one frame: it is counted twice, so that neither may be writable. */
  lemma SharedFrame(s: State, d: int, d2: int, e: int)
    requires Inv(s) && d != d2 && Mapped(s, d, e) && Mapped(s, d2, e) && Pte(s, d, e).frame == Pte(s, d2, e).frame
    ensures ReadOnlyPair(s, d, d2, e)
  {
    OtherFrame(s, d, e, d2, e);
    OtherFrame(s, d2, e, d, e);
  }

  lemma InheritsReadOnly(s: State, s': State, d: int, d2: int, e: int)
    requires Inv(s) && Inv(s') && d != d2 && UserDir(d2) && 0 <= e < ENTRIES && Inherits(s, s', d, d2, e)
    requires d == 0 || (UserDir(d) && FrameAt(s', d, e) == FrameAt(s, d, e))
    ensures ReadOnlyPair(s', d, d2, e)
  {
    if d != 0 && Mapped(s', d2, e) { SharedFrame(s', d, d2, e); }
  }

  ghost predicate AllReadOnly(s: State, from: int, to: int, n: int)
    requires Inv(s)
  {
    forall d, e :: to <= d < to + n && 0 <= e < ENTRIES ==> PairAt(s, from, to, d, e)
  }

  ghost predicate PairAt(s: State, from: int, to: int, d: int, e: int)
    requires Inv(s)
  {
    ReadOnlyPair(s, d - to + from, d, e)
  }

  lemma SharedReadOnly(s0: State, s: State, from: nat, to: nat, size: nat)
    requires Inv(s0) && Inv(s) && SharedTo(s0, s, from, to, DirsOf(size), DirsOf(size))
    requires from % DIRS == 0 && to % DIRS == 0 && from != to && DIRS <= to
    requires size <= 0x4000000 && (from == 0 ==> size <= 0xa0000)
    requires from + DIRS <= ENTRIES && to + DIRS <= ENTRIES
    ensures AllReadOnly(s, from, to, DirsOf(size))
  {
    var n := DirsOf(size);
    if n > 0 { DirArithmetic(from, to, size, n - 1); }
    Apart16(from, to, n);
    forall d, e | to <= d < to + n && 0 <= e < ENTRIES ensures PairAt(s, from, to, d, e) {
      var d0 := d - to + from;
      assert InheritsAt(s0, s, from, to, d, e);
      if d0 != 0 { assert SamePage(s0, s, d0, e); }
      InheritsReadOnly(s0, s, d0, d, e);
    }
  }

  lemma Apart16(from: nat, to: nat, n: nat)
    requires from % DIRS == 0 && to % DIRS == 0 && from != to && n <= DIRS
    ensures to + n <= from || from + n <= to
  {
  }

  lemma DirArithmetic(from: nat, to: nat, size: nat, k: nat)
    requires from % DIRS == 0 && to % DIRS == 0 && from != to && DIRS <= to && k < DirsOf(size)
    requires size <= 0x4000000 && (from == 0 ==> size <= 0xa0000)
    requires from + DIRS <= ENTRIES && to + DIRS <= ENTRIES
    ensures DirsOf(size) <= DIRS && UserDir(to + k) && from + k < ENTRIES
    ensures (from + k) % DIRS == (to + k) % DIRS
    ensures from + k < DIRS ==> from + k == 0
    ensures !(to <= from + k < to + DirsOf(size))
  {
    assert DirsOf(size) <= 16;
    assert from == 0 ==> DirsOf(size) <= 1;
    SixteenPlus(from / 16, k);
    SixteenPlus(to / 16, k);
  }

  lemma SixteenPlus(a: nat, k: nat)
    requires k < 16
    ensures (16 * a + k) % 16 == k && (16 * a + k) / 16 == a
  {
  }

  lemma NextStillEmpty(s: State, s': State, to: int, n: int, k: int)
    requires Inv(s) && Inv(s') && OnlyDirectory(s, s', to + k)
    requires forall d :: to + k <= d < to + n ==> !HasDir(s, d)
    ensures forall d :: to + k + 1 <= d < to + n ==> !HasDir(s', d)
  {
    forall d | to + k + 1 <= d < to + n ensures !HasDir(s', d) {
      assert SameDir(s, s', d);
    }
  }

  lemma NextInherited(s0: State, s: State, s': State, from: int, to: int, n: int, k: int, d0: int)
    requires Inv(s0) && Inv(s) && Inv(s') && SameOutside(s0, s, to, to + n) && 0 <= k < n
    requires DIRS <= to && to + n <= ENTRIES && d0 == from + k && !(to <= d0 < to + n)
    requires OnlyDirectory(s, s', to + k) && Inherited(s0, s, from, to, k)
    requires var d2 := to + k; forall e :: 0 <= e < ENTRIES ==> Inherits(s, s', d0, d2, e)
    ensures Inherited(s0, s', from, to, k + 1)
  {
    forall d, e | to <= d < to + k + 1 && 0 <= e < ENTRIES ensures InheritsAt(s0, s', from, to, d, e) {
      if d < to + k {
        assert SamePage(s, s', d, e) && InheritsAt(s0, s, from, to, d, e);
      } else {
        assert Inherits(s, s', d0, d, e);
        if Slot(d0, e) { assert SamePage(s0, s, d0, e); }
      }
    }
  }

  lemma DirsInjectiveUnless(s: State, d: int, d2: int)
    requires Inv(s) && HasDir(s, d) && HasDir(s, d2) && d != d2
    ensures s.mem[0][d].frame != s.mem[0][d2].frame
  {
    InvDistinct(s);
  }

  lemma EntryBound(s: State, d: int, e: int)
    requires Inv(s) && Mapped(s, d, e)
    ensures Pte(s, d, e).frame < HIGH
  {
  }

  /** How far the inner loop of copy_page_tables has got: the first n entries of directory d2 are what a child
      gets for those of directory d, and the rest of d2 is empty. */
  ghost predicate TableCopied(s0: State, s: State, d: int, d2: int, n: int)
    requires Inv(s0) && Inv(s)
  {
    && OnlyTable(s0, s, d2) && HasDir(s, d2) && (d != 0 ==> HasDir(s, d))
    && (forall k :: 0 <= k < ENTRIES && k < n ==> Inherits(s0, s, d, d2, k))
    && (forall k :: n <= k < ENTRIES ==> PageView(s, d2, k) == Absent)
    && FreeFrames(s) == FreeFrames(s0) && KeptOutside(s0, s, {d, d2})
  }

  lemma NothingCopied(s: State, d: int, d2: int)
    requires Inv(s) && HasDir(s, d2) && EmptyTable(s.mem[s.mem[0][d2].frame]) && (d != 0 ==> HasDir(s, d))
    ensures TableCopied(s, s, d, d2, 0)
  {
  }

  lemma AbsentEntry(s: State, d: int, e: int)
    requires Inv(s) && Slot(d, e) && PageView(s, d, e) == Absent
    ensures !Mapped(s, d, e)
  {
  }

  lemma TableReadOnly(s0: State, s: State, d: int, d2: int, n: int)
    requires Inv(s0) && Inv(s) && TableCopied(s0, s, d, d2, n) && d != d2 && n <= ENTRIES && (d == 0 || HasDir(s0, d))
    ensures forall e :: 0 <= e < n ==> ReadOnlyPair(s, d, d2, e)
  {
    forall e | 0 <= e < n ensures ReadOnlyPair(s, d, d2, e) {
      if d != 0 { assert SamePage(s0, s, d, e); }
      assert Inherits(s0, s, d, d2, e);
      InheritsReadOnly(s0, s, d, d2, e);
    }
  }

  lemma CopiedOne(s0: State, s: State, s': State, d: int, d2: int, e: int)
    requires Inv(s0) && Inv(s) && Inv(s') && TableCopied(s0, s, d, d2, e) && 0 <= e < ENTRIES && d != d2
    requires OnlyPage(s, s', d2, e) && s'.held == s.held && HasDir(s', d2) && Inherits(s, s', d, d2, e)
    requires FreeFrames(s') == FreeFrames(s) && KeptOutside(s, s', {d, d2}) && (d == 0 || HasDir(s0, d))
    ensures TableCopied(s0, s', d, d2, e + 1)
  {
    KeptTrans(s0, s, s', {d, d2});
    OnlyTableTrans(s0, s, s', d2, e);
    CopiedEntry(s0, s, d, d2, e);
    forall k | 0 <= k < ENTRIES && k != e
      ensures PageView(s', d2, k) == PageView(s, d2, k) && FrameAt(s', d2, k) == FrameAt(s, d2, k)
    {
      assert SamePage(s, s', d2, k);
    }
    forall k | 0 <= k < ENTRIES && k < e + 1 ensures Inherits(s0, s', d, d2, k) {
      if k < e { assert Inherits(s0, s, d, d2, k); }
    }
    assert d != 0 ==> SameDir(s, s', d);
  }

  /** The source page still looks the same when the copy reaches it. */
  lemma CopiedEntry(s0: State, s: State, d: int, d2: int, e: int)
    requires Inv(s0) && Inv(s) && OnlyTable(s0, s, d2) && d != d2 && 0 <= e < ENTRIES
    requires d == 0 || HasDir(s0, d)
    ensures InheritedView(s, d, e) == InheritedView(s0, d, e) && InheritedFrame(s, d, e) == InheritedFrame(s0, d, e)
  {
    if d != 0 {
      assert SamePage(s0, s, d, e);
    }
  }
}
