/** Which frames are free, and who may write where: the effect of the elementary changes on the number
    of free frames and on the write bits and sole ownership of every other page. */
module PagingCounts {
  import opened Counting
  import opened PagingState
  import opened PagingSteps

  ghost function FreeSet(count: seq<nat>): set<int> { set i | 0 <= i < |count| && count[i] == 0 }

  /** How often get_free_page can still succeed. */
  ghost function FreeFrames(s: State): nat { |FreeSet(s.count)| }

  ghost predicate NoneFree(s: State) {
    forall i :: 0 <= i < |s.count| ==> s.count[i] != 0
  }

  ghost predicate TwoFree(s: State) {
    exists i, j :: 0 <= i < j < |s.count| && s.count[i] == 0 && s.count[j] == 0
  }

  lemma NoneFreeIs(s: State)
    ensures NoneFree(s) <==> FreeFrames(s) == 0
  {
    if FreeFrames(s) != 0 {
      var i :| i in FreeSet(s.count);
    } else {
      assert FreeSet(s.count) == {};
      forall i | 0 <= i < |s.count| ensures s.count[i] != 0 {
        assert i !in FreeSet(s.count);
      }
    }
  }

  lemma TwoFreeIs(s: State)
    ensures TwoFree(s) <==> FreeFrames(s) >= 2
  {
    var F := FreeSet(s.count);
    if TwoFree(s) {
      var i, j :| 0 <= i < j < |s.count| && s.count[i] == 0 && s.count[j] == 0;
      assert F == {i} + {j} + (F - {i} - {j});
      assert |{i} + {j}| == 2 && {i} + {j} !! F - {i} - {j};
    }
    if |F| >= 2 {
      var i :| i in F;
      assert F - {i} != {} by { assert |F - {i}| == |F| - 1; }
      var j :| j in F - {i};
      assert s.count[i] == 0 && s.count[j] == 0;
      if i < j { assert TwoFree(s); } else { assert j < i && TwoFree(s); }
    }
  }

  lemma FreeUpdate(count: seq<nat>, i: nat, v: nat)
    requires i < |count|
    ensures |FreeSet(count[i := v])| == |FreeSet(count)| - One(count[i] == 0) + One(v == 0)
  {
    assert FreeSet(count[i := v]) == FreeSet(count) - {i} + (if v == 0 then {i} else {});
    CardReplace(FreeSet(count), i, v == 0);
  }

  // ---------------------------------------------------------------- write bits and sole owners

  /** The entry names a paged frame that nobody else has. */
  ghost predicate SoleFrame(s: State, d: int, e: int)
    requires Inv(s) && Mapped(s, d, e)
  {
    LOW <= Pte(s, d, e).frame && s.count[Pte(s, d, e).frame - LOW] == 1
  }

  /** Nobody owns frame f. */
  ghost predicate Unused(s: State, f: int)
    requires Shape(s)
  {
    LOW <= f < HIGH && s.count[f - LOW] == 0
  }

  /** The page has the frame it had, or one that nobody owned. */
  ghost predicate FrameBy(s: State, s': State, d: int, e: int, moved: bool)
    requires Inv(s) && Inv(s')
  {
    if moved then Unused(s, FrameAt(s', d, e)) else FrameAt(s', d, e) == FrameAt(s, d, e)
  }

  /** Every frame that had an owner still has one. */
  ghost predicate NoneFreed(s: State, s': State)
    requires Shape(s) && Shape(s')
  {
    forall f :: Unused(s', f) ==> Unused(s, f)
  }

  ghost predicate Alone(s: State, d: int, e: int)
    requires Inv(s)
  {
    Mapped(s, d, e) && SoleFrame(s, d, e)
  }

  /** A page that was writable still is, and so is one that had its frame alone. */
  ghost predicate BitsKept(s: State, s': State, d: int, e: int)
    requires Inv(s) && Inv(s')
  {
    && (Writable(s, d, e) ==> Writable(s', d, e))
    && (Alone(s, d, e) ==> Alone(s', d, e))
  }

  ghost predicate KeptBut(s: State, s': State, d: int, e: int)
    requires Inv(s) && Inv(s')
  {
    forall d', e' :: Slot(d', e') && !(d' == d && e' == e) ==> BitsKept(s, s', d', e')
  }

  /** The pages of all directories that are not in `dirs`. */
  ghost predicate KeptOutside(s: State, s': State, dirs: set<int>)
    requires Inv(s) && Inv(s')
  {
    forall d, e :: Slot(d, e) && d !in dirs ==> BitsKept(s, s', d, e)
  }

  ghost predicate Between(d: int, lo: int, hi: int) { lo <= d < hi }

  ghost function Range(lo: int, hi: int): set<int> { set d | lo <= d < hi && Between(d, lo, hi) }

  lemma KeptTrans(s0: State, s: State, s': State, dirs: set<int>)
    requires Inv(s0) && Inv(s) && Inv(s') && KeptOutside(s0, s, dirs) && KeptOutside(s, s', dirs)
    ensures KeptOutside(s0, s', dirs)
  {
    forall d, e | Slot(d, e) && d !in dirs ensures BitsKept(s0, s', d, e) {
      assert BitsKept(s0, s, d, e) && BitsKept(s, s', d, e);
    }
  }

  lemma KeptWider(s: State, s': State, dirs: set<int>, more: set<int>)
    requires Inv(s) && Inv(s') && KeptOutside(s, s', dirs) && dirs <= more
    ensures KeptOutside(s, s', more)
  {
  }

  lemma KeptButWider(s: State, s': State, d: int, e: int)
    requires Inv(s) && Inv(s') && KeptBut(s, s', d, e)
    ensures KeptOutside(s, s', {d})
  {
  }

  lemma KeptButTrans(s0: State, s: State, s': State, d: int, e: int)
    requires Inv(s0) && Inv(s) && Inv(s') && KeptOutside(s0, s, {}) && KeptBut(s, s', d, e)
    ensures KeptBut(s0, s', d, e)
  {
    forall d', e' | Slot(d', e') && !(d' == d && e' == e) ensures BitsKept(s0, s', d', e') {
      assert BitsKept(s0, s, d', e') && BitsKept(s, s', d', e');
    }
  }

  /** No page has its frame alone that did not before. */
  ghost predicate NoNew(s: State, s': State)
    requires Inv(s) && Inv(s')
  {
    forall d, e :: Slot(d, e) && Alone(s', d, e) ==> Alone(s, d, e)
  }

  /** No page of the task of directory d, other than (d, e), has its frame alone that did not before. */
  ghost predicate NoNewBut(s: State, s': State, d: int, e: int)
    requires Inv(s) && Inv(s')
  {
    forall d', e' :: Slot(d', e') && d' / DIRS == d / DIRS && !(d' == d && e' == e) && Alone(s', d', e') ==>
      Alone(s, d', e')
  }

  lemma NoNewTrans(s0: State, s: State, s': State, d: int, e: int)
    requires Inv(s0) && Inv(s) && Inv(s') && NoNewBut(s0, s, d, e) && NoNewBut(s, s', d, e)
    ensures NoNewBut(s0, s', d, e)
  {
  }

  lemma KeptButTwice(s0: State, s: State, s': State, d: int, e: int)
    requires Inv(s0) && Inv(s) && Inv(s') && KeptBut(s0, s, d, e) && KeptOutside(s, s', {})
    ensures KeptBut(s0, s', d, e)
  {
    forall d', e' | Slot(d', e') && !(d' == d && e' == e) ensures BitsKept(s0, s', d', e') {
      assert BitsKept(s0, s, d', e') && BitsKept(s, s', d', e');
    }
  }

  /** The same for the directories of task t that are not in `dirs`. */
  ghost predicate NoNewOutside(s: State, s': State, t: int, dirs: set<int>)
    requires Inv(s) && Inv(s')
  {
    forall d, e :: Slot(d, e) && d / DIRS == t && d !in dirs && Alone(s', d, e) ==> Alone(s, d, e)
  }

  // ---------------------------------------------------------------- what a range of page tables holds

  /** Entry n % 1024 of directory n / 1024 has its frame alone. */
  ghost predicate AloneNo(s: State, n: int)
    requires Inv(s)
  {
    Alone(s, n / ENTRIES, n % ENTRIES)
  }

  ghost function AloneNos(s: State, lo: int, hi: int): set<int>
    requires Inv(s)
  {
    set n | lo <= n < hi && AloneNo(s, n)
  }

  ghost function TablesIn(s: State, lo: int, hi: int): set<int>
    requires Shape(s)
  {
    set d | lo <= d < hi && HasDir(s, d)
  }

  /** The page tables from lo to hi and the frames that their pages have alone. */
  ghost function GivenIn(s: State, lo: int, hi: int): nat
    requires Inv(s)
  {
    |TablesIn(s, lo, hi)| + |AloneNos(s, ENTRIES * lo, ENTRIES * hi)|
  }

  lemma GivenSplit(s: State, lo: int, mid: int, hi: int)
    requires Inv(s) && lo <= mid <= hi
    ensures GivenIn(s, lo, hi) == GivenIn(s, lo, mid) + GivenIn(s, mid, hi)
  {
    TablesSplit(s, lo, mid, hi);
    AloneSplit(s, ENTRIES * lo, ENTRIES * mid, ENTRIES * hi);
  }

  lemma AloneSplit(s: State, lo: int, mid: int, hi: int)
    requires Inv(s) && lo <= mid <= hi
    ensures |AloneNos(s, lo, hi)| == |AloneNos(s, lo, mid)| + |AloneNos(s, mid, hi)|
  {
    assert AloneNos(s, lo, hi) == AloneNos(s, lo, mid) + AloneNos(s, mid, hi);
  }

  lemma TablesSplit(s: State, lo: int, mid: int, hi: int)
    requires Shape(s) && lo <= mid <= hi
    ensures |TablesIn(s, lo, hi)| == |TablesIn(s, lo, mid)| + |TablesIn(s, mid, hi)|
  {
    assert TablesIn(s, lo, hi) == TablesIn(s, lo, mid) + TablesIn(s, mid, hi);
  }

  lemma AloneOne(s: State, d: int, e: int)
    requires Inv(s) && 0 <= e < ENTRIES
    ensures |AloneNos(s, ENTRIES * d + e, ENTRIES * d + e + 1)| == One(Alone(s, d, e))
  {
    var n := ENTRIES * d + e;
    assert n / ENTRIES == d && n % ENTRIES == e;
    assert AloneNos(s, n, n + 1) == if AloneNo(s, n) then {n} else {};
  }

  lemma TablesOne(s: State, d: int)
    requires Shape(s)
    ensures |TablesIn(s, d, d + 1)| == One(HasDir(s, d))
  {
    assert TablesIn(s, d, d + 1) == if HasDir(s, d) then {d} else {};
  }

  /** The directories from lo to hi are the same in both states, as far as that goes. */
  lemma AloneSame(s: State, s': State, lo: int, hi: int)
    requires Inv(s) && Inv(s')
    requires forall d, e :: Slot(d, e) && lo <= d < hi ==> (Alone(s', d, e) <==> Alone(s, d, e))
    ensures AloneNos(s', ENTRIES * lo, ENTRIES * hi) == AloneNos(s, ENTRIES * lo, ENTRIES * hi)
  {
    forall n | ENTRIES * lo <= n < ENTRIES * hi ensures AloneNo(s', n) <==> AloneNo(s, n) {
      assert lo <= n / ENTRIES < hi;
      if Slot(n / ENTRIES, n % ENTRIES) {
        assert Alone(s', n / ENTRIES, n % ENTRIES) <==> Alone(s, n / ENTRIES, n % ENTRIES);
      }
    }
  }

  lemma NothingAlone(s: State, d: int)
    requires Inv(s) && !HasDir(s, d)
    ensures AloneNos(s, ENTRIES * d, ENTRIES * d + ENTRIES) == {}
  {
    forall n | ENTRIES * d <= n < ENTRIES * d + ENTRIES ensures !AloneNo(s, n) {
      assert n / ENTRIES == d;
    }
  }

  // ---------------------------------------------------------------- the elementary changes

  lemma AllocBits(s: State, f: nat)
    requires Inv(s) && LOW <= f < HIGH && s.count[f - LOW] == 0 && Inv(Alloc(s, f))
    ensures FreeFrames(Alloc(s, f)) == FreeFrames(s) - 1 && KeptOutside(s, Alloc(s, f), {})
    ensures NoNew(s, Alloc(s, f))
  {
    var s' := Alloc(s, f);
    FreeUpdate(s.count, f - LOW, 1);
    forall d | HasDir(s, d) ensures s.mem[0][d].frame != f {
      assert s.count[s.mem[0][d].frame - LOW] == 1;
    }
    TablesUntouched(s, s');
    MappedSame(s, s');
    forall d, e | Slot(d, e) ensures BitsKept(s, s', d, e) && (Alone(s', d, e) ==> Alone(s, d, e)) {
      if Mapped(s, d, e) && LOW <= Pte(s, d, e).frame { MappedIsCounted(s, d, e); }
    }
  }

  lemma ReleaseBits(s: State, f: nat)
    requires Inv(s) && f in s.held && Inv(Release(s, f))
    ensures FreeFrames(Release(s, f)) == FreeFrames(s) + 1 && KeptOutside(s, Release(s, f), {})
  {
    var s' := Release(s, f);
    FreeUpdate(s.count, f - LOW, 0);
    TablesUntouched(s, s');
    MappedSame(s, s');
    forall d, e | Slot(d, e) ensures BitsKept(s, s', d, e) {
      if Mapped(s, d, e) { DataFrameIsNotHeld(s, d, e); }
    }
  }

  lemma LinkDirBits(s: State, d: int, f: nat)
    requires Inv(s) && UserDir(d) && !HasDir(s, d) && f in s.held && EmptyTable(s.mem[f]) && Inv(LinkDir(s, d, f))
    ensures FreeFrames(LinkDir(s, d, f)) == FreeFrames(s) && KeptOutside(s, LinkDir(s, d, f), {})
  {
    LinkDirTables(s, d, f);
    forall d', e' | Slot(d', e') ensures BitsKept(s, LinkDir(s, d, f), d', e') {
    }
  }

  lemma UnlinkDirBits(s: State, d: int)
    requires Inv(s) && HasDir(s, d) && EmptyTable(s.mem[s.mem[0][d].frame]) && Inv(UnlinkDir(s, d))
    ensures FreeFrames(UnlinkDir(s, d)) == FreeFrames(s) + 1 && KeptOutside(s, UnlinkDir(s, d), {})
  {
    UnlinkDirTables(s, d);
    FreeUpdate(s.count, s.mem[0][d].frame - LOW, 0);
    forall d', e' | Slot(d', e') ensures BitsKept(s, UnlinkDir(s, d), d', e') {
      if Mapped(s, d', e') { DataFrameIsNoTable(s, d', e', d); }
    }
  }

  lemma LinkPteBits(s: State, d: int, e: int, f: nat)
    requires Inv(s) && HasDir(s, d) && 0 <= e < ENTRIES && !Mapped(s, d, e) && f in s.held && Inv(LinkPte(s, d, e, f))
    ensures FreeFrames(LinkPte(s, d, e, f)) == FreeFrames(s) && KeptOutside(s, LinkPte(s, d, e, f), {})
    ensures NoNewBut(s, LinkPte(s, d, e, f), d, e)
  {
    LinkPteTables(s, d, e, f);
    forall d', e' | Slot(d', e') ensures BitsKept(s, LinkPte(s, d, e, f), d', e') {
    }
  }

  lemma ClearPteBits(s: State, d: int, e: int)
    requires Inv(s) && HasDir(s, d) && 0 <= e < ENTRIES && Inv(ClearPte(s, d, e))
    ensures FreeFrames(ClearPte(s, d, e)) == FreeFrames(s) + One(Alone(s, d, e))
    ensures KeptBut(s, ClearPte(s, d, e), d, e) && NoNewBut(s, ClearPte(s, d, e), d, e)
  {
    ClearPteTables(s, d, e);
    var w := Pte(s, d, e);
    if w.present && LOW <= w.frame {
      MappedIsCounted(s, d, e);
      FreeUpdate(s.count, w.frame - LOW, s.count[w.frame - LOW] - 1);
    }
    forall d', e' | Slot(d', e') && !(d' == d && e' == e) ensures BitsKept(s, ClearPte(s, d, e), d', e') {
      OtherFrame(s, d, e, d', e');
    }
    forall d', e' | Slot(d', e') && d' / DIRS == d / DIRS && !(d' == d && e' == e) && Alone(ClearPte(s, d, e), d', e')
      ensures Alone(s, d', e')
    {
      SameTaskFrame(s, d, e, d', e');
    }
  }

  /** Two pages of one task never share a paged frame. */
  lemma SameTaskFrame(s: State, d: int, e: int, d': int, e': int)
    requires Inv(s) && d' / DIRS == d / DIRS && !(d' == d && e' == e)
    ensures Mapped(s, d, e) && Mapped(s, d', e') && LOW <= Pte(s, d, e).frame ==>
      Pte(s, d', e').frame != Pte(s, d, e).frame
  {
    assert d == DIRS * (d / DIRS) + d % DIRS && d' == DIRS * (d' / DIRS) + d' % DIRS;
  }

  /** A page that has its frame alone has another frame than any other page. */
  lemma OtherFrame(s: State, d: int, e: int, d': int, e': int)
    requires Inv(s) && !(d' == d && e' == e)
    ensures Mapped(s, d, e) && Alone(s, d', e') ==> Pte(s, d', e').frame != Pte(s, d, e).frame
  {
    if Mapped(s, d, e) && Alone(s, d', e') {
      SoleOwner(s, d', e');
      assert MappedTo(s, d, e, Pte(s, d, e).frame);
      assert (d, e) in Refs(s, Pte(s, d, e).frame);
    }
  }

  lemma ShareBits(s: State, d: int, d2: int, e: int)
    requires Inv(s) && HasDir(s, d2) && Mapped(s, d, e) && !Mapped(s, d2, e) && LOW <= Pte(s, d, e).frame
    requires Inv(Share(s, d, d2, e))
    ensures FreeFrames(Share(s, d, d2, e)) == FreeFrames(s) && KeptBut(s, Share(s, d, d2, e), d, e)
  {
    var s', f := Share(s, d, d2, e), Pte(s, d, e).frame;
    ShareTables(s, d, d2, e);
    MappedIsCounted(s, d, e);
    FreeUpdate(s.count, f - LOW, s.count[f - LOW] + 1);
    forall d', e' | Slot(d', e') && !(d' == d && e' == e) ensures BitsKept(s, s', d', e') {
      OtherFrame(s, d, e, d', e');
      if Writable(s, d', e') { assert Alone(s, d', e'); }
    }
  }

  /** Setting an entry that is absent or keeps its frame, with the write bit kept or added. */
  lemma SetPteBits(s: State, d: int, e: int, w: Word)
    requires Inv(s) && HasDir(s, d) && 0 <= e < ENTRIES && Inv(SetPte(s, d, e, w))
    requires Mapped(s, d, e) ==> w.present && w.frame == Pte(s, d, e).frame && (Pte(s, d, e).rw ==> w.rw)
    ensures FreeFrames(SetPte(s, d, e, w)) == FreeFrames(s) && KeptOutside(s, SetPte(s, d, e, w), {})
  {
    InvDistinct(s);
    SetPteReads(s, d, e, w);
    forall d', e' | Slot(d', e') ensures BitsKept(s, SetPte(s, d, e, w), d', e') {
    }
  }

  lemma WriteBits(s: State, f: nat, page: Page)
    requires Inv(s) && 0 < f < HIGH && |page| == ENTRIES && Inv(s.(mem := s.mem[f := page]))
    requires forall d :: HasDir(s, d) ==> s.mem[0][d].frame != f
    ensures var s' := s.(mem := s.mem[f := page]); FreeFrames(s') == FreeFrames(s) && KeptOutside(s, s', {})
    ensures NoNew(s, s.(mem := s.mem[f := page]))
  {
    var s' := s.(mem := s.mem[f := page]);
    TablesUntouched(s, s');
    MappedSame(s, s');
    forall d, e | Slot(d, e) ensures BitsKept(s, s', d, e) {
    }
  }
}
