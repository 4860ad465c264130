/** The elementary changes that block allocation, _bmap and file_write make.  Each keeps the
    invariant; all but the last leave the contents of every file as they are. */
module FileSteps {
  import opened FileState

  /** Every file has the contents it had. */
  ghost predicate SameContents(s: State, s': State)
    requires Shape(s) && Shape(s')
  {
    && s'.nzones == s.nzones && s'.first == s.first && |s'.inodes| == |s.inodes|
    && (forall n :: 0 <= n < |s.inodes| ==>
          s'.inodes[n].file == s.inodes[n].file && s'.inodes[n].size == s.inodes[n].size)
    && (forall n, i :: 0 <= n < |s.inodes| && s.inodes[n].file && 0 <= i < MAX_BLOCKS ==>
          Data(s', n, i) == Data(s, n, i))
  }

  lemma SameContentsTrans(s0: State, s: State, s': State)
    requires Shape(s0) && Shape(s) && Shape(s') && SameContents(s0, s) && SameContents(s, s')
    ensures SameContents(s0, s')
  {
    forall n, i | 0 <= n < |s0.inodes| && s0.inodes[n].file && 0 <= i < MAX_BLOCKS
      ensures Data(s', n, i) == Data(s0, n, i)
    {
      assert Data(s, n, i) == Data(s0, n, i);
    }
  }

  /** The same block numbers in the same places. */
  ghost predicate SameTree(s: State, s': State)
    requires Shape(s) && Shape(s')
  {
    && s'.nzones == s.nzones && s'.first == s.first && |s'.inodes| == |s.inodes|
    && (forall n, p :: Ref(s', n, p) <==> Ref(s, n, p))
    && (forall n, p :: Ref(s, n, p) && Ref(s', n, p) ==> At(s', n, p) == At(s, n, p))
  }

  /** Block c is no index block. */
  ghost predicate NoParent(s: State, c: nat)
    requires Shape(s)
  {
    forall n, p :: Ref(s, n, p) && HasParent(p) ==> At(s, n, Parent(p)) != c
  }

  ghost predicate DiskDiffersAt(s: State, s': State, c: nat) {
    && s'.nzones == s.nzones && s'.first == s.first && s'.inodes == s.inodes && |s'.disk| == |s.disk|
    && (forall b :: 0 <= b < |s.disk| && b != c ==> s'.disk[b] == s.disk[b])
  }

  lemma TreeUntouched(s: State, s': State, c: nat)
    requires Shape(s) && Shape(s') && DiskDiffersAt(s, s', c) && NoParent(s, c)
    ensures SameTree(s, s')
  {
    forall n, p | Ref(s, n, p) ensures At(s', n, p) == At(s, n, p) {
      AtUntouched(s, s', c, n, p);
    }
  }

  lemma {:induction false} AtUntouched(s: State, s': State, c: nat, n: int, p: Path)
    requires Shape(s) && Shape(s') && DiskDiffersAt(s, s', c) && NoParent(s, c) && Ref(s, n, p)
    ensures At(s', n, p) == At(s, n, p)
    decreases Depth(p)
  {
    if !p.Zone? {
      AtUntouched(s, s', c, n, Parent(p));
    }
  }

  lemma SameTreeReachable(s: State, s': State, b: nat)
    requires Shape(s) && Shape(s') && SameTree(s, s')
    ensures Reachable(s', b) <==> Reachable(s, b)
  {
    if Reachable(s, b) {
      var n, p :| Ref(s, n, p) && At(s, n, p) == b;
      assert Ref(s', n, p) && At(s', n, p) == b;
    }
    if Reachable(s', b) {
      var n, p :| Ref(s', n, p) && At(s', n, p) == b;
      assert Ref(s, n, p) && At(s, n, p) == b;
    }
  }

  lemma SameTreeInv(s: State, s': State, extra: set<nat>)
    requires InvWith(s, extra) && Shape(s') && SameTree(s, s') && s'.used == s.used
    ensures InvWith(s', extra)
  {
    forall b ensures Reachable(s', b) <==> Reachable(s, b) {
      SameTreeReachable(s, s', b);
    }
  }

  // ---------------------------------------------------------------- a new block

  ghost function Alloc(s: State, b: nat): State
    requires b < |s.disk|
  {
    s.(disk := s.disk[b := ZeroBlock()], used := s.used + {b})
  }

  lemma AllocStep(s: State, extra: set<nat>, b: nat)
    requires InvWith(s, extra) && InRange(s, b) && b !in s.used
    ensures InvWith(Alloc(s, b), extra + {b}) && SameContents(s, Alloc(s, b)) && SameTree(s, Alloc(s, b))
    ensures b !in extra && !Reachable(s, b)
  {
    var s' := Alloc(s, b);
    assert forall c :: 0 <= c < |s'.disk| ==> IsBlock(s'.disk[c]);
    forall n, p | Ref(s, n, p) ensures At(s, n, p) != b {
      assert Reachable(s, At(s, n, p));
    }
    TreeUntouched(s, s', b);
    forall c ensures Reachable(s', c) <==> Reachable(s, c) {
      SameTreeReachable(s, s', c);
    }
    forall n, i | 0 <= n < |s.inodes| && s.inodes[n].file && 0 <= i < MAX_BLOCKS
      ensures Data(s', n, i) == Data(s, n, i)
    {
      assert Ref(s, n, PathOf(i));
    }
  }

  // ---------------------------------------------------------------- entering a block number

  /** Everything is where it was, but path p of inode n now says b. */
  ghost predicate OnlyAt(s: State, s': State, n: int, p: Path, b: nat)
    requires Shape(s) && Shape(s')
  {
    && s'.nzones == s.nzones && s'.first == s.first && |s'.inodes| == |s.inodes|
    && (forall n', p' :: Ref(s', n', p') <==> Ref(s, n', p'))
    && (forall n', p' :: Ref(s, n', p') && Ref(s', n', p') ==>
          At(s', n', p') == if n' == n && p' == p then b else At(s, n', p'))
  }

  lemma OnlyAtInv(s: State, s': State, extra: set<nat>, n: int, p: Path, b: nat)
    requires InvWith(s, extra) && Shape(s') && Ref(s, n, p) && At(s, n, p) == 0 && b in extra
    requires OnlyAt(s, s', n, p, b) && s'.used == s.used
    ensures InvWith(s', extra - {b})
  {
    assert InRange(s, b) && !Reachable(s, b);
    assert At(s', n, p) == b;
    forall n', p' | Ref(s, n', p') ensures At(s, n', p') != b {
      assert Reachable(s, At(s, n', p'));
    }
    forall c | InRange(s, c) ensures Reachable(s', c) <==> Reachable(s, c) || c == b {
      OnlyAtReachable(s, s', n, p, b, c);
    }
  }

  lemma OnlyAtReachable(s: State, s': State, n: int, p: Path, b: nat, c: nat)
    requires Shape(s) && Shape(s') && Ref(s, n, p) && At(s, n, p) == 0 && OnlyAt(s, s', n, p, b) && c > 0
    requires At(s', n, p) == b && Ref(s', n, p)
    ensures Reachable(s', c) <==> Reachable(s, c) || c == b
  {
    if Reachable(s, c) {
      var n', p' :| Ref(s, n', p') && At(s, n', p') == c;
      assert Ref(s', n', p') && At(s', n', p') == c;
    }
    if Reachable(s', c) && c != b {
      var n', p' :| Ref(s', n', p') && At(s', n', p') == c;
      assert Ref(s, n', p') && At(s, n', p') == c;
    }
  }

  ghost function LinkZone(s: State, n: nat, k: nat, b: nat): State
    requires Shape(s) && n < |s.inodes| && k < 9
  {
    s.(inodes := s.inodes[n := s.inodes[n].(zone := s.inodes[n].zone[k := b])])
  }

  lemma LinkZoneAt(s: State, n: nat, k: nat, b: nat)
    requires Shape(s) && n < |s.inodes| && s.inodes[n].file && k < 9 && s.inodes[n].zone[k] == 0
    requires 0 < b < s.nzones && s.disk[b] == ZeroBlock()
    ensures Shape(LinkZone(s, n, k, b)) && OnlyAt(s, LinkZone(s, n, k, b), n, Zone(k), b)
  {
    var s' := LinkZone(s, n, k, b);
    forall n', p' | Ref(s, n', p')
      ensures At(s', n', p') == if n' == n && p' == Zone(k) then b else At(s, n', p')
    {
      match p' {
        case Zone(_) =>
        case Ind(j) => assert At(s, n', Zone(7)) == s.inodes[n'].zone[7];
        case Dind(j) => assert At(s, n', Zone(8)) == s.inodes[n'].zone[8];
        case Leaf(j, l) =>
          assert At(s, n', Zone(8)) == s.inodes[n'].zone[8];
          assert At(s', n', Dind(j)) == At(s, n', Dind(j));
      }
    }
  }

  ghost function LinkEntry(s: State, c: nat, j: nat, b: nat): State
    requires Shape(s) && c < s.nzones && j < NR_ENTRIES && b < 65536
  {
    s.(disk := s.disk[c := SetEntry(s.disk[c], j, b)])
  }

  lemma LinkEntryAt(s: State, n: nat, p: Path, b: nat)
    requires Shape(s) && NoSharing(s) && Ref(s, n, p) && HasParent(p)
    requires var c := At(s, n, Parent(p)); 0 < c < s.nzones && b != c
    requires At(s, n, p) == 0 && 0 < b < s.nzones && s.disk[b] == ZeroBlock()
    ensures var s' := LinkEntry(s, At(s, n, Parent(p)), Index(p), b);
      Shape(s') && OnlyAt(s, s', n, p, b)
  {
    var c := At(s, n, Parent(p));
    var s' := LinkEntry(s, c, Index(p), b);
    EntryAfterSet(s.disk[c], Index(p), b);
    assert forall d :: 0 <= d < |s'.disk| ==> IsBlock(s'.disk[d]);
    forall n', p' | Ref(s, n', p')
      ensures At(s', n', p') == if n' == n && p' == p then b else At(s, n', p')
    {
      EntryChild(s, s', n, p, c, b, n', p');
    }
  }

  lemma EntriesAfterLink(s: State, c: nat, j: nat, b: nat, x: nat, i: nat)
    requires Shape(s) && c < s.nzones && j < NR_ENTRIES && b < s.nzones && x < s.nzones && i < NR_ENTRIES
    ensures Shape(LinkEntry(s, c, j, b))
    ensures Entry(LinkEntry(s, c, j, b).disk[x], i) == if x == c && i == j then b else Entry(s.disk[x], i)
  {
    EntryAfterSet(s.disk[c], j, b);
    var s' := LinkEntry(s, c, j, b);
    assert forall d :: 0 <= d < |s'.disk| ==> IsBlock(s'.disk[d]);
  }

  lemma ChildIndex(p: Path, p': Path)
    requires HasParent(p) && HasParent(p') && Parent(p) == Parent(p') && Index(p) == Index(p')
    ensures p == p'
  {
  }

  lemma {:induction false} EntryChild(s: State, s': State, n: nat, p: Path, c: nat, b: nat, n': int, p': Path)
    requires Shape(s) && Shape(s') && NoSharing(s) && Ref(s, n, p) && HasParent(p) && Ref(s, n', p')
    requires c == At(s, n, Parent(p)) && 0 < c < s.nzones && b != c && 0 < b < s.nzones
    requires At(s, n, p) == 0 && s.disk[b] == ZeroBlock() && s' == LinkEntry(s, c, Index(p), b)
    ensures At(s', n', p') == if n' == n && p' == p then b else At(s, n', p')
    decreases Depth(p')
  {
    if !p'.Zone? {
      var q := Parent(p');
      EntryChild(s, s', n, p, c, b, n', q);
      var x := At(s, n', q);
      if n' == n && q == p {
        EntriesAfterLink(s, c, Index(p), b, b, Index(p'));
      } else if 0 < x < s.nzones {
        EntriesAfterLink(s, c, Index(p), b, x, Index(p'));
        if x == c {
          assert Ref(s, n, Parent(p)) && n' == n && q == Parent(p);
          if Index(p') == Index(p) { ChildIndex(p, p'); }
        } else {
          assert !(n' == n && p' == p);
        }
      }
    }
  }

  lemma DataAfterLink(s: State, s': State, n: int, p: Path, b: nat)
    requires Shape(s) && Shape(s') && RangeOk(s) && Ref(s, n, p) && OnlyAt(s, s', n, p, b)
    requires At(s, n, p) == 0 && 0 < b < s.nzones && s'.disk[b] == ZeroBlock()
    requires forall n', p' :: Ref(s, n', p') && (p'.Zone? ==> p'.k < 7) && !p'.Dind? && At(s, n', p') != 0 ==>
      s'.disk[At(s, n', p')] == s.disk[At(s, n', p')]
    requires forall n' :: 0 <= n' < |s.inodes| ==>
      s'.inodes[n'].file == s.inodes[n'].file && s'.inodes[n'].size == s.inodes[n'].size
    ensures SameContents(s, s')
  {
    forall n', i | 0 <= n' < |s.inodes| && s.inodes[n'].file && 0 <= i < MAX_BLOCKS
      ensures Data(s', n', i) == Data(s, n', i)
    {
      assert Ref(s, n', PathOf(i)) && Ref(s', n', PathOf(i));
      if n' == n && PathOf(i) == p {
        assert At(s', n', PathOf(i)) == b;
      } else {
        assert At(s', n', PathOf(i)) == At(s, n', PathOf(i));
      }
    }
  }

  lemma LinkZoneStep(s: State, extra: set<nat>, n: nat, k: nat, b: nat)
    requires InvWith(s, extra) && n < |s.inodes| && s.inodes[n].file && k < 9 && s.inodes[n].zone[k] == 0
    requires b in extra && s.disk[b] == ZeroBlock()
    ensures var s' := LinkZone(s, n, k, b);
      InvWith(s', extra - {b}) && SameContents(s, s') && At(s', n, Zone(k)) == b && OnlyAt(s, s', n, Zone(k), b)
  {
    var s' := LinkZone(s, n, k, b);
    assert InRange(s, b);
    LinkZoneAt(s, n, k, b);
    OnlyAtInv(s, s', extra, n, Zone(k), b);
    DataAfterLink(s, s', n, Zone(k), b);
  }

  lemma LinkEntryStep(s: State, extra: set<nat>, n: nat, p: Path, b: nat)
    requires InvWith(s, extra) && Ref(s, n, p) && HasParent(p) && At(s, n, Parent(p)) != 0 && At(s, n, p) == 0
    requires b in extra && s.disk[b] == ZeroBlock()
    ensures At(s, n, Parent(p)) < s.nzones
    ensures var s' := LinkEntry(s, At(s, n, Parent(p)), Index(p), b);
      InvWith(s', extra - {b}) && SameContents(s, s') && At(s', n, p) == b && OnlyAt(s, s', n, p, b)
  {
    var c := At(s, n, Parent(p));
    assert InRange(s, c) && InRange(s, b) && !Reachable(s, b);
    assert c != b;
    var s' := LinkEntry(s, c, Index(p), b);
    LinkEntryAt(s, n, p, b);
    OnlyAtInv(s, s', extra, n, p, b);
    forall n', p' | Ref(s, n', p') && (p'.Zone? ==> p'.k < 7) && !p'.Dind? && At(s, n', p') != 0
      ensures s'.disk[At(s, n', p')] == s.disk[At(s, n', p')]
    {
      assert Ref(s, n, Parent(p)) && p' != Parent(p);
    }
    DataAfterLink(s, s', n, p, b);
  }

  // ---------------------------------------------------------------- contents of a data block

  /** Block i of file n is d; every other block of every file is as it was. */
  ghost predicate OnlyData(s: State, s': State, n: nat, i: nat, d: Block)
    requires Shape(s) && Shape(s') && n < |s.inodes| && s.inodes[n].file && i < MAX_BLOCKS
  {
    && s'.nzones == s.nzones && s'.first == s.first && |s'.inodes| == |s.inodes|
    && (forall n' :: 0 <= n' < |s.inodes| ==> s'.inodes[n'].file == s.inodes[n'].file)
    && (forall n', i' :: 0 <= n' < |s.inodes| && s.inodes[n'].file && 0 <= i' < MAX_BLOCKS ==>
          Data(s', n', i') == if n' == n && i' == i then d else Data(s, n', i'))
  }

  lemma WriteStep(s: State, n: nat, i: nat, d: Block)
    requires Inv(s) && n < |s.inodes| && s.inodes[n].file && i < MAX_BLOCKS && BlockAt(s, n, i) != 0 && IsBlock(d)
    ensures BlockAt(s, n, i) < s.nzones
    ensures var s' := s.(disk := s.disk[BlockAt(s, n, i) := d]);
      Inv(s') && OnlyData(s, s', n, i, d) && SameTree(s, s')
  {
    var b := BlockAt(s, n, i);
    assert Ref(s, n, PathOf(i));
    assert InRange(s, b);
    var s' := s.(disk := s.disk[b := d]);
    assert forall c :: 0 <= c < |s'.disk| ==> IsBlock(s'.disk[c]);
    forall n', p' | Ref(s, n', p') && HasParent(p') ensures At(s, n', Parent(p')) != b {
      assert Ref(s, n', Parent(p'));
      assert Parent(p') != PathOf(i);
    }
    TreeUntouched(s, s', b);
    SameTreeInv(s, s', {});
    forall n', i' | 0 <= n' < |s.inodes| && s.inodes[n'].file && 0 <= i' < MAX_BLOCKS
      ensures Data(s', n', i') == if n' == n && i' == i then d else Data(s, n', i')
    {
      assert Ref(s, n', PathOf(i')) && At(s', n', PathOf(i')) == At(s, n', PathOf(i'));
      if BlockAt(s, n', i') == b {
        PathsDiffer(i, i');
      }
    }
  }
}
