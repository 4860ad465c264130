/** What remove_from_queues and insert_into_queues do to the lists as a whole. */
module BufferSteps {
  import opened BufferState

  lemma DropFacts(c: seq<int>, b: int)
    requires Distinct(c)
    ensures Distinct(Drop(c, b)) && b !in Drop(c, b)
    ensures forall x :: x in Drop(c, b) <==> x in c && x != b
  {
    if b in c { WithoutFacts(c, IndexOf(c, b)); }
  }

  /** The chain of the removed buffer. */
  lemma RemovedOwnChain(s: State, b: int)
    requires Lists(s) && Hashed(s, b) && |s.order| >= 2
    ensures var h, s' := HashFn(s.buf[b].dev, s.buf[b].block), Removed(s, b);
      ChainOk(s'.buf, s'.chains[h], s'.hash[h])
    ensures forall x :: 0 <= x < |s.buf| && x !in s.chains[HashFn(s.buf[b].dev, s.buf[b].block)] ==>
      Removed(s, b).buf[x].next == s.buf[x].next && Removed(s, b).buf[x].prev == s.buf[x].prev
  {
    RemovedDefined(s, b);
    var h := HashFn(s.buf[b].dev, s.buf[b].block);
    var c := s.chains[h];
    UnchainStep(s.buf, c, s.hash[h], IndexOf(c, b));
    var buf1 := Unchain(s.buf, b);
    UncircleKeeps(buf1, b);
    ChainKept(buf1, Uncircle(buf1, b), Drop(c, b), if s.hash[h] == b then s.buf[b].next else s.hash[h]);
  }

  lemma RemovedUnhashed(s: State, b: int)
    requires Lists(s) && 0 <= b < |s.buf| && b in s.order && s.buf[b].dev == 0 && |s.order| >= 2
    ensures Removed(s, b).hash == s.hash && Removed(s, b).chains == s.chains
    ensures SameChainLinks(s.buf, Removed(s, b).buf)
  {
    RemovedDefined(s, b);
    var h := HashFn(s.buf[b].dev, s.buf[b].block);
    assert !Hashed(s, b) && b !in s.chains[h];
    assert Unchain(s.buf, b) == s.buf;
    UncircleKeeps(s.buf, b);
    if s.chains[h] != [] {
      assert s.chains[h][0] in s.chains[h];
    }
    assert s.chains[h := s.chains[h]] == s.chains;
  }

  lemma RemovedCircle(s: State, b: int)
    requires Lists(s) && 0 <= b < |s.buf| && b in s.order && |s.order| >= 2
    ensures var s' := Removed(s, b);
      && CircleOk(s'.buf, s'.order, s'.free) && SamePayloads(s.buf, s'.buf)
      && b !in s'.order && |s'.order| == |s.order| - 1
      && (forall x :: x in s'.order <==> x in s.order && x != b)
  {
    RemovedDefined(s, b);
    UnchainKeeps(s.buf, b);
    var buf1 := Unchain(s.buf, b);
    CircleKept(s.buf, buf1, s.order, s.free);
    UncircleStep(buf1, s.order, s.free, IndexOf(s.order, b));
    UncircleKeeps(buf1, b);
    DropFacts(s.order, b);
    var buf2 := Uncircle(buf1, b);
    forall x | 0 <= x < |s.buf| ensures SamePayload(s.buf[x], buf2[x]) {
      assert SamePayload(s.buf[x], buf1[x]) && SamePayload(buf1[x], buf2[x]);
    }
  }

  lemma RemovedOtherChain(s: State, b: int, h: int)
    requires Lists(s) && 0 <= b < |s.buf| && b in s.order && |s.order| >= 2 && 0 <= h < NR_HASH
    requires s.buf[b].dev == 0 || h != HashFn(s.buf[b].dev, s.buf[b].block)
    ensures ChainOk(Removed(s, b).buf, Removed(s, b).chains[h], Removed(s, b).hash[h])
    ensures Removed(s, b).chains[h] == s.chains[h]
  {
    var s' := Removed(s, b);
    if s.buf[b].dev == 0 {
      RemovedUnhashed(s, b);
    } else {
      assert Hashed(s, b);
      RemovedOwnChain(s, b);
      forall x | x in s.chains[h] ensures x !in s.chains[HashFn(s.buf[b].dev, s.buf[b].block)] {
        assert Hashed(s, x) && HashFn(s.buf[x].dev, s.buf[x].block) == h;
      }
    }
    ChainKept(s.buf, s'.buf, s.chains[h], s.hash[h]);
  }

  lemma RemovedStep(s: State, b: int)
    requires Inv(s) && 0 <= b < |s.buf| && b in s.order && |s.order| >= 2
    ensures var s' := Removed(s, b);
      && Inv(s') && SamePayloads(s.buf, s'.buf) && |s'.order| == |s.order| - 1
      && (forall x :: x in s'.order <==> x in s.order && x != b)
      && (forall x :: Hashed(s', x) <==> Hashed(s, x) && x != b)
  {
    var s' := Removed(s, b);
    RemovedCircle(s, b);
    forall h | 0 <= h < NR_HASH
      ensures ChainOk(s'.buf, s'.chains[h], s'.hash[h])
      ensures forall x :: x in s'.chains[h] <==> x in s.chains[h] && x != b
    {
      if s.buf[b].dev != 0 && h == HashFn(s.buf[b].dev, s.buf[b].block) {
        assert Hashed(s, b);
        RemovedOwnChain(s, b);
        DropFacts(s.chains[h], b);
      } else {
        RemovedOtherChain(s, b, h);
        assert b in s.chains[h] ==> Hashed(s, b);
      }
    }
    forall x | 0 <= x < |s.buf| && x in s'.order && s'.buf[x].dev == 0
      ensures s'.buf[x].next == NULL && s'.buf[x].prev == NULL
    {
      assert SamePayload(s.buf[x], s'.buf[x]);
      RemovedSpares(s, b, x);
    }
    RemovedMembers(s, s', b);
  }

  lemma RemovedSpares(s: State, b: int, x: int)
    requires Lists(s) && 0 <= b < |s.buf| && b in s.order && |s.order| >= 2
    requires 0 <= x < |s.buf| && x in s.order && s.buf[x].dev == 0
    ensures Removed(s, b).buf[x].next == NULL && Removed(s, b).buf[x].prev == NULL
  {
    if s.buf[b].dev == 0 {
      RemovedUnhashed(s, b);
    } else {
      assert Hashed(s, b);
      RemovedOwnChain(s, b);
      var c := s.chains[HashFn(s.buf[b].dev, s.buf[b].block)];
      assert x in c ==> Hashed(s, x);
    }
  }

  lemma RemovedMembers(s: State, s': State, b: int)
    requires Inv(s) && |s'.chains| == NR_HASH && SamePayloads(s.buf, s'.buf)
    requires forall x :: x in s'.order <==> x in s.order && x != b
    requires forall h, x :: 0 <= h < NR_HASH ==> (x in s'.chains[h] <==> x in s.chains[h] && x != b)
    ensures forall x :: Hashed(s', x) <==> Hashed(s, x) && x != b
    ensures forall h, x :: 0 <= h < NR_HASH && x in s'.chains[h] ==>
      Hashed(s', x) && HashFn(s'.buf[x].dev, s'.buf[x].block) == h
    ensures forall x :: Hashed(s', x) ==> x in s'.chains[HashFn(s'.buf[x].dev, s'.buf[x].block)]
    ensures Unique(s')
  {
    forall x ensures Hashed(s', x) <==> Hashed(s, x) && x != b {
      if 0 <= x < |s.buf| { assert SamePayload(s.buf[x], s'.buf[x]); }
    }
    forall h, x | 0 <= h < NR_HASH && x in s'.chains[h]
      ensures Hashed(s', x) && HashFn(s'.buf[x].dev, s'.buf[x].block) == h
    {
      assert Hashed(s, x) && SamePayload(s.buf[x], s'.buf[x]);
    }
    forall x | Hashed(s', x) ensures x in s'.chains[HashFn(s'.buf[x].dev, s'.buf[x].block)] {
      assert Hashed(s, x) && SamePayload(s.buf[x], s'.buf[x]);
    }
    forall x, y | Hashed(s', x) && Hashed(s', y) && s'.buf[x].dev == s'.buf[y].dev && s'.buf[x].block == s'.buf[y].block
      ensures x == y
    {
      assert SamePayload(s.buf[x], s'.buf[x]) && SamePayload(s.buf[y], s'.buf[y]);
    }
  }

  // ---------------------------------------------------------------- insert_into_queues

  /** insert_into_queues; the store through b_next is guarded by b_next != NULL. */
  ghost function Inserted(s: State, b: int): State
    requires Lists(s) && 0 <= b < |s.buf| && b !in s.order
  {
    EncircleStep(s.buf, s.order, s.free, b);
    var buf1 := Encircle(s.buf, b, s.free);
    var h := HashFn(s.buf[b].dev, s.buf[b].block);
    if s.buf[b].dev == 0 then
      s.(buf := buf1[b := buf1[b].(prev := NULL, next := NULL)], order := s.order + [b])
    else
      HeadInRange(s, h);
      State(Enchain(buf1, b, s.hash[h]), s.hash[h := b], s.free, s.order + [b], s.chains[h := [b] + s.chains[h]])
  }

  lemma HeadInRange(s: State, h: int)
    requires Lists(s) && 0 <= h < NR_HASH
    ensures -1 <= s.hash[h] < |s.buf|
  {
    if s.chains[h] != [] { assert Chained(s.buf, s.chains[h], 0); }
  }

  lemma EncircleKeeps(buf: seq<Head>, b: int, free: int)
    requires 0 <= b < |buf| && 0 <= free < |buf| && 0 <= buf[free].prevFree < |buf| && free != b
    ensures SamePayloads(buf, Encircle(buf, b, free)) && SameChainLinks(buf, Encircle(buf, b, free))
  {
  }

  lemma EnchainKeeps(buf: seq<Head>, b: int, head: int)
    requires 0 <= b < |buf| && -1 <= head < |buf|
    ensures SamePayloads(buf, Enchain(buf, b, head)) && SameCircleLinks(buf, Enchain(buf, b, head))
  {
  }

  lemma InsertedCircle(s: State, b: int)
    requires Lists(s) && 0 <= b < |s.buf| && b !in s.order
    ensures var s' := Inserted(s, b);
      CircleOk(s'.buf, s'.order, s'.free) && SamePayloads(s.buf, s'.buf) && s'.order == s.order + [b]
  {
    EncircleStep(s.buf, s.order, s.free, b);
    var buf1 := Encircle(s.buf, b, s.free);
    EncircleKeeps(s.buf, b, s.free);
    var h := HashFn(s.buf[b].dev, s.buf[b].block);
    HeadInRange(s, h);
    EnchainKeeps(buf1, b, s.hash[h]);
    var s' := Inserted(s, b);
    CircleKept(buf1, s'.buf, s.order + [b], s.free);
    forall x | 0 <= x < |s.buf| ensures SamePayload(s.buf[x], s'.buf[x]) {
      assert SamePayload(s.buf[x], buf1[x]) && SamePayload(buf1[x], s'.buf[x]);
    }
  }

  ghost function ChainAfter(s: State, b: int, h: int): seq<int>
    requires |s.chains| == NR_HASH && 0 <= b < |s.buf| && 0 <= h < NR_HASH
  {
    if s.buf[b].dev != 0 && h == HashFn(s.buf[b].dev, s.buf[b].block) then [b] + s.chains[h] else s.chains[h]
  }

  lemma InsertedChain(s: State, b: int, h: int)
    requires Lists(s) && 0 <= b < |s.buf| && b !in s.order && 0 <= h < NR_HASH
    ensures ChainOk(Inserted(s, b).buf, Inserted(s, b).chains[h], Inserted(s, b).hash[h])
    ensures Inserted(s, b).chains[h] == ChainAfter(s, b, h)
  {
    EncircleStep(s.buf, s.order, s.free, b);
    var buf1 := Encircle(s.buf, b, s.free);
    EncircleKeeps(s.buf, b, s.free);
    var s' := Inserted(s, b);
    var h0 := HashFn(s.buf[b].dev, s.buf[b].block);
    NotChained(s, b);
    ChainKept(s.buf, buf1, s.chains[h], s.hash[h]);
    ChainKept(s.buf, buf1, s.chains[h0], s.hash[h0]);
    if s.buf[b].dev != 0 {
      EnchainStep(buf1, s.chains[h0], s.hash[h0], b);
      if h != h0 {
        forall x | x in s.chains[h] ensures x != b && x !in s.chains[h0] {
          assert Hashed(s, x) && HashFn(s.buf[x].dev, s.buf[x].block) == h;
        }
        ChainKept(buf1, s'.buf, s.chains[h], s.hash[h]);
      }
    } else {
      ChainKept(buf1, s'.buf, s.chains[h], s.hash[h]);
    }
  }

  lemma NotChained(s: State, b: int)
    requires Lists(s) && b !in s.order
    ensures forall h :: 0 <= h < NR_HASH ==> b !in s.chains[h]
  {
    forall h | 0 <= h < NR_HASH ensures b !in s.chains[h] {
      assert b in s.chains[h] ==> Hashed(s, b);
    }
  }

  /** No hashed buffer carries the block of b. */
  ghost predicate BlockFree(s: State, b: int)
    requires 0 <= b < |s.buf|
  {
    forall x :: Hashed(s, x) ==> !(s.buf[x].dev == s.buf[b].dev && s.buf[x].block == s.buf[b].block)
  }

  lemma InsertedStep(s: State, b: int)
    requires Inv(s) && 0 <= b < |s.buf| && b !in s.order && BlockFree(s, b)
    ensures var s' := Inserted(s, b);
      && Inv(s') && SamePayloads(s.buf, s'.buf) && s'.order == s.order + [b]
      && (forall x :: Hashed(s', x) <==> Hashed(s, x) || (x == b && s.buf[b].dev != 0))
  {
    var s' := Inserted(s, b);
    InsertedCircle(s, b);
    forall h | 0 <= h < NR_HASH
      ensures ChainOk(s'.buf, s'.chains[h], s'.hash[h])
      ensures s'.chains[h] == ChainAfter(s, b, h)
    {
      InsertedChain(s, b, h);
    }
    forall x | 0 <= x < |s.buf| && x in s'.order && s'.buf[x].dev == 0
      ensures s'.buf[x].next == NULL && s'.buf[x].prev == NULL
    {
      assert SamePayload(s.buf[x], s'.buf[x]);
      InsertedSpares(s, b, x);
    }
    InsertedMembers(s, s', b);
  }

  lemma InsertedSpares(s: State, b: int, x: int)
    requires Lists(s) && 0 <= b < |s.buf| && b !in s.order
    requires 0 <= x < |s.buf| && (x in s.order || x == b) && s.buf[x].dev == 0
    ensures Inserted(s, b).buf[x].next == NULL && Inserted(s, b).buf[x].prev == NULL
  {
    EncircleStep(s.buf, s.order, s.free, b);
    EncircleKeeps(s.buf, b, s.free);
    if s.buf[b].dev != 0 {
      var h := HashFn(s.buf[b].dev, s.buf[b].block);
      HeadInRange(s, h);
      if s.chains[h] != [] {
        assert s.chains[h][0] in s.chains[h];
        assert Hashed(s, s.chains[h][0]);
      }
    }
  }

  lemma InsertedMembers(s: State, s': State, b: int)
    requires Inv(s) && 0 <= b < |s.buf| && b !in s.order && BlockFree(s, b)
    requires |s'.chains| == NR_HASH && SamePayloads(s.buf, s'.buf) && s'.order == s.order + [b]
    requires forall h :: 0 <= h < NR_HASH ==> s'.chains[h] == ChainAfter(s, b, h)
    ensures forall x :: Hashed(s', x) <==> Hashed(s, x) || (x == b && s.buf[b].dev != 0)
    ensures forall h, x :: 0 <= h < NR_HASH && x in s'.chains[h] ==>
      Hashed(s', x) && HashFn(s'.buf[x].dev, s'.buf[x].block) == h
    ensures forall x :: Hashed(s', x) ==> x in s'.chains[HashFn(s'.buf[x].dev, s'.buf[x].block)]
    ensures Unique(s')
  {
    forall x ensures Hashed(s', x) <==> Hashed(s, x) || (x == b && s.buf[b].dev != 0) {
      if 0 <= x < |s.buf| { assert SamePayload(s.buf[x], s'.buf[x]); }
    }
    forall h, x | 0 <= h < NR_HASH && x in s'.chains[h]
      ensures Hashed(s', x) && HashFn(s'.buf[x].dev, s'.buf[x].block) == h
    {
      assert x == b || x in s.chains[h];
      assert x in s.chains[h] ==> Hashed(s, x);
      assert SamePayload(s.buf[x], s'.buf[x]);
    }
    forall x | Hashed(s', x) ensures x in s'.chains[HashFn(s'.buf[x].dev, s'.buf[x].block)] {
      assert SamePayload(s.buf[x], s'.buf[x]);
      if x != b { assert Hashed(s, x); }
    }
    forall x, y | Hashed(s', x) && Hashed(s', y) && s'.buf[x].dev == s'.buf[y].dev && s'.buf[x].block == s'.buf[y].block
      ensures x == y
    {
      assert SamePayload(s.buf[x], s'.buf[x]) && SamePayload(s.buf[y], s'.buf[y]);
    }
  }

  /** Payload changes that keep device and block of every buffer keep the lists. */
  lemma PayloadStep(s: State, buf': seq<Head>)
    requires Inv(s) && SameChainLinks(s.buf, buf') && SameCircleLinks(s.buf, buf')
    requires forall x :: 0 <= x < |s.buf| && x in s.order ==>
      buf'[x].dev == s.buf[x].dev && buf'[x].block == s.buf[x].block
    ensures Inv(s.(buf := buf')) && forall x :: Hashed(s.(buf := buf'), x) <==> Hashed(s, x)
  {
    var s' := s.(buf := buf');
    CircleKept(s.buf, buf', s.order, s.free);
    forall h | 0 <= h < NR_HASH ensures ChainOk(buf', s.chains[h], s.hash[h]) {
      forall i | 0 <= i < |s.chains[h]| ensures Chained(buf', s.chains[h], i) {
        assert Chained(s.buf, s.chains[h], i);
      }
    }
    forall x ensures Hashed(s', x) <==> Hashed(s, x) {
    }
  }
}
