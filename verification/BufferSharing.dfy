/** getblk, get_hash_table and brelse when every sleep lets other tasks run.  A method below is the
    code between two places where its task may sleep. */
module BufferSharing {
  import opened Counting
  import opened BufferState
  import opened BufferSteps
  import opened BufferCache

  const NR_TASKS: nat := 64

  /** Where a task is inside getblk: outside, waiting in get_hash_table for a buffer it found and
      counted, or writing out (sync_dev) a buffer it took off the queues. */
  datatype Call = Idle | Found(dev: nat, block: nat, b: int) | Writing(dev: nat, block: nat, b: int)

  /** A buffer handed to a caller that has not called brelse yet. */
  datatype Hold = Hold(dev: nat, block: nat, b: int)

  datatype Shared = Shared(s: State, calls: seq<Call>, holds: map<nat, Hold>)

  ghost predicate Points(c: Call, b: int) { !c.Idle? && c.b == b }

  /** The tasks inside getblk that b_count counts for b. */
  ghost function Callers(x: Shared, b: int): set<int> {
    set u | 0 <= u < |x.calls| && Points(x.calls[u], b)
  }

  /** The callers that hold b. */
  ghost function Holders(x: Shared, b: int): set<nat> {
    set t | t in x.holds && x.holds[t].b == b
  }

  ghost function Writers(x: Shared): set<int> {
    set u | 0 <= u < |x.calls| && x.calls[u].Writing?
  }

  ghost predicate WrittenBy(x: Shared, u: int, b: int) {
    0 <= u < |x.calls| && x.calls[u].Writing? && x.calls[u].b == b
  }

  ghost predicate Counts(x: Shared) {
    forall b :: 0 <= b < |x.s.buf| ==> x.s.buf[b].count == |Callers(x, b)| + |Holders(x, b)|
  }

  /** A buffer somebody has found or holds carries the block he asked for. */
  ghost predicate Identities(x: Shared) {
    && (forall t :: t in x.holds ==>
          x.holds[t].dev != 0 && Carries(x.s, x.holds[t].b, x.holds[t].dev, x.holds[t].block))
    && (forall u :: 0 <= u < |x.calls| && x.calls[u].Found? ==>
          Carries(x.s, x.calls[u].b, x.calls[u].dev, x.calls[u].block))
    && (forall u :: 0 <= u < |x.calls| && !x.calls[u].Idle? ==> x.calls[u].dev != 0)
  }

  /** The buffers off the lists are those being written out, one for each writer. */
  ghost predicate OffLists(x: Shared) {
    && (forall u :: 0 <= u < |x.calls| && x.calls[u].Writing? ==>
          0 <= x.calls[u].b < |x.s.buf| && x.calls[u].b !in x.s.order && x.s.buf[x.calls[u].b].count == 1)
    && (forall b :: 0 <= b < |x.s.buf| && b !in x.s.order ==> exists u :: WrittenBy(x, u, b))
    && |x.s.order| + |Writers(x)| == |x.s.buf|
  }

  ghost predicate SharedInv(x: Shared) {
    && BufferState.Inv(x.s) && |x.calls| == NR_TASKS && |x.s.buf| >= NR_TASKS + 2
    && Counts(x) && Identities(x) && OffLists(x)
  }

  // ---------------------------------------------------------------- who is counted

  lemma CallersAfter(x: Shared, x': Shared, u: nat, b: int)
    requires u < |x.calls| == |x'.calls|
    requires forall v :: 0 <= v < |x.calls| && v != u ==> x'.calls[v] == x.calls[v]
    ensures |Callers(x', b)| == |Callers(x, b)| - One(Points(x.calls[u], b)) + One(Points(x'.calls[u], b))
  {
    assert Callers(x', b) == Callers(x, b) - {u} + (if Points(x'.calls[u], b) then {u} else {});
    CardReplace(Callers(x, b), u, Points(x'.calls[u], b));
  }

  lemma HoldersAdded(x: Shared, x': Shared, t: nat, h: Hold, b: int)
    requires t !in x.holds && x'.holds == x.holds[t := h]
    ensures |Holders(x', b)| == |Holders(x, b)| + One(h.b == b)
  {
    var A, B, own := Holders(x, b), Holders(x', b), h.b == b;
    forall k: nat ensures k in B <==> (k in A && k != t) || (own && k == t) {
      if k == t {
        assert k !in A && x'.holds[k] == h;
      } else {
        assert k in x'.holds <==> k in x.holds;
      }
    }
    Replaced(A, B, t, own);
  }

  lemma Replaced(A: set<nat>, B: set<nat>, t: nat, own: bool)
    requires t !in A && forall k: nat :: k in B <==> (k in A && k != t) || (own && k == t)
    ensures |B| == |A| + One(own)
  {
    assert B == A - {t} + (if own then {t} else {});
    CardReplace(A, t, own);
  }

  lemma HoldersDropped(x: Shared, x': Shared, t: nat, b: int)
    requires t in x.holds && x'.holds == Dropped(x.holds, t)
    ensures |Holders(x', b)| == |Holders(x, b)| - One(x.holds[t].b == b)
  {
    assert t in Holders(x, b) <==> x.holds[t].b == b;
    assert Holders(x', b) == Holders(x, b) - {t} + {};
    CardReplace(Holders(x, b), t, false);
  }

  lemma WritersAfterCall(x: Shared, x': Shared, u: nat)
    requires u < |x.calls| == |x'.calls|
    requires forall v :: 0 <= v < |x.calls| && v != u ==> x'.calls[v] == x.calls[v]
    ensures |Writers(x')| == |Writers(x)| - One(x.calls[u].Writing?) + One(x'.calls[u].Writing?)
  {
    assert Writers(x') == Writers(x) - {u} + (if x'.calls[u].Writing? then {u} else {});
    CardReplace(Writers(x), u, x'.calls[u].Writing?);
  }

  lemma ListNeverShort(x: Shared)
    requires SharedInv(x)
    ensures |x.s.order| >= 2
  {
    BelowBound(Writers(x), NR_TASKS);
  }

  /** A buffer that is on no list has exactly one user. */
  lemma OffListHasOneUser(x: Shared, b: int)
    requires SharedInv(x) && 0 <= b < |x.s.buf| && b !in x.s.order
    ensures x.s.buf[b].count == 1
  {
    var u :| WrittenBy(x, u, b);
  }

  /** Only its writer points at a buffer that is being written out. */
  lemma WriterAlone(x: Shared, u: nat)
    requires SharedInv(x) && u < |x.calls| && x.calls[u].Writing?
    ensures Callers(x, x.calls[u].b) == {u} && Holders(x, x.calls[u].b) == {}
  {
    var b := x.calls[u].b;
    var c := Callers(x, b);
    assert u in c && |c| + |Holders(x, b)| == 1;
    assert c == {u} + (c - {u});
  }

  // ---------------------------------------------------------------- what each step keeps

  /** The same buffers on the same lists; payload moved only where said. */
  lemma SameListsStep(s: State, buf': seq<Head>)
    requires BufferState.Inv(s) && |buf'| == |s.buf|
    requires forall b :: 0 <= b < |s.buf| ==> buf'[b] == s.buf[b].(count := buf'[b].count, uptodate := buf'[b].uptodate,
                                                                   dirt := buf'[b].dirt, lock := buf'[b].lock)
    ensures BufferState.Inv(s.(buf := buf')) && forall b :: Hashed(s.(buf := buf'), b) <==> Hashed(s, b)
  {
    PayloadStep(s, buf');
  }

  function Dropped(holds: map<nat, Hold>, t: nat): (r: map<nat, Hold>)
    ensures forall k: nat :: k in r <==> k in holds && k != t
    ensures forall k: nat :: k in r ==> r[k] == holds[k]
  {
    holds - {t}
  }

  ghost function Counted(s: State, b: int, n: nat): State
    requires 0 <= b < |s.buf|
  {
    s.(buf := s.buf[b := s.buf[b].(count := n)])
  }

  /** Steps that leave the queues and the writers alone. */
  lemma OffListsKept(x: Shared, x': Shared)
    requires OffLists(x) && x'.s.order == x.s.order && |x'.s.buf| == |x.s.buf| && |x'.calls| == |x.calls|
    requires forall v :: 0 <= v < |x.calls| && x.calls[v] != x'.calls[v] ==>
      !x.calls[v].Writing? && !x'.calls[v].Writing?
    requires forall b :: 0 <= b < |x.s.buf| && b !in x.s.order ==> x'.s.buf[b].count == x.s.buf[b].count
    ensures OffLists(x')
  {
    assert Writers(x') == Writers(x);
    forall c | 0 <= c < |x.s.buf| && c !in x.s.order ensures exists v :: WrittenBy(x', v, c) {
      var v :| WrittenBy(x, v, c);
      assert WrittenBy(x', v, c);
    }
  }

  lemma CarriesKept(x: Shared, s': State)
    requires Identities(x) && |s'.buf| == |x.s.buf| && s'.order == x.s.order
    requires forall b :: 0 <= b < |s'.buf| ==> s'.buf[b].dev == x.s.buf[b].dev && s'.buf[b].block == x.s.buf[b].block
    ensures forall c, d, k :: Carries(x.s, c, d, k) ==> Carries(s', c, d, k)
    ensures Identities(Shared(s', x.calls, x.holds))
  {
  }

  lemma FoundCounts(x: Shared, x': Shared, u: nat, b: int, dev: nat, block: nat)
    requires Counts(x) && u < |x.calls| && x.calls[u].Idle? && 0 <= b < |x.s.buf|
    requires x' == Shared(Counted(x.s, b, x.s.buf[b].count + 1), x.calls[u := Found(dev, block, b)], x.holds)
    ensures Counts(x')
  {
    forall c | 0 <= c < |x.s.buf| ensures x'.s.buf[c].count == |Callers(x', c)| + |Holders(x', c)| {
      CallersAfter(x, x', u, c);
      assert Holders(x', c) == Holders(x, c);
    }
  }

  lemma FoundStep(x: Shared, u: nat, b: int, dev: nat, block: nat)
    requires SharedInv(x) && u < NR_TASKS && x.calls[u].Idle? && Carries(x.s, b, dev, block) && dev != 0
    ensures SharedInv(Shared(Counted(x.s, b, x.s.buf[b].count + 1), x.calls[u := Found(dev, block, b)], x.holds))
  {
    var x' := Shared(Counted(x.s, b, x.s.buf[b].count + 1), x.calls[u := Found(dev, block, b)], x.holds);
    SameListsStep(x.s, x'.s.buf);
    CarriesKept(x, x'.s);
    FoundCounts(x, x', u, b, dev, block);
    FoundIdentities(x, x', u, b, dev, block);
    OffListsKept(x, x');
  }

  lemma FoundIdentities(x: Shared, x': Shared, u: nat, b: int, dev: nat, block: nat)
    requires Identities(Shared(x'.s, x.calls, x.holds)) && u < |x.calls| && dev != 0 && Carries(x'.s, b, dev, block)
    requires x'.calls == x.calls[u := Found(dev, block, b)] && x'.holds == x.holds
    ensures Identities(x')
  {
  }

  /** After the wait in get_hash_table the buffer still is the right one: the test for another
      identity, and the brelse and retry behind it, are never needed. */
  lemma TicketStep(x: Shared, u: nat, t: nat)
    requires SharedInv(x) && u < NR_TASKS && x.calls[u].Found? && t !in x.holds
    ensures var f := x.calls[u];
      && x.s.buf[f.b].dev == f.dev && x.s.buf[f.b].block == f.block
      && SharedInv(Shared(x.s, x.calls[u := Idle], x.holds[t := Hold(f.dev, f.block, f.b)]))
  {
    var f := x.calls[u];
    var h := Hold(f.dev, f.block, f.b);
    var x' := Shared(x.s, x.calls[u := Idle], x.holds[t := h]);
    TicketCounts(x, x', u, t, h);
    TicketIdentities(x, x', u, t, h);
    OffListsKept(x, x');
  }

  lemma TicketIdentities(x: Shared, x': Shared, u: nat, t: nat, h: Hold)
    requires Identities(x) && u < |x.calls| && x.calls[u].Found? && t !in x.holds
    requires h == Hold(x.calls[u].dev, x.calls[u].block, x.calls[u].b)
    requires x' == Shared(x.s, x.calls[u := Idle], x.holds[t := h])
    ensures Identities(x')
  {
  }

  lemma TicketCounts(x: Shared, x': Shared, u: nat, t: nat, h: Hold)
    requires Counts(x) && u < |x.calls| && x.calls[u].Found? && t !in x.holds && h.b == x.calls[u].b
    requires x' == Shared(x.s, x.calls[u := Idle], x.holds[t := h])
    ensures Counts(x')
  {
    forall c | 0 <= c < |x.s.buf| ensures x.s.buf[c].count == |Callers(x', c)| + |Holders(x', c)| {
      CallersAfter(x, x', u, c);
      HoldersAdded(x, x', t, h, c);
    }
  }

  lemma HeldCarries(x: Shared, t: nat)
    requires SharedInv(x) && t in x.holds
    ensures Carries(x.s, x.holds[t].b, x.holds[t].dev, x.holds[t].block) && x.s.buf[x.holds[t].b].count >= 1
    ensures x.holds[t].b in x.s.order
  {
    assert t in Holders(x, x.holds[t].b);
  }

  lemma BrelseStep(x: Shared, t: nat)
    requires SharedInv(x) && t in x.holds
    ensures var b := x.holds[t].b;
      && 0 <= b < |x.s.buf| && x.s.buf[b].count != 0
      && SharedInv(Shared(Counted(x.s, b, x.s.buf[b].count - 1), x.calls, Dropped(x.holds, t)))
  {
    HeldCarries(x, t);
    LetStep(x, Shared(Counted(x.s, x.holds[t].b, x.s.buf[x.holds[t].b].count - 1), x.calls, Dropped(x.holds, t)), t);
  }

  /** x' is what brelse by the holder t makes of x. */
  ghost predicate Let(x: Shared, x': Shared, t: nat) {
    && t in x.holds && 0 <= x.holds[t].b < |x.s.buf| && x.s.buf[x.holds[t].b].count >= 1
    && x'.s == Counted(x.s, x.holds[t].b, x.s.buf[x.holds[t].b].count - 1)
    && x'.calls == x.calls && x'.holds == Dropped(x.holds, t)
  }

  lemma LetStep(x: Shared, x': Shared, t: nat)
    requires SharedInv(x) && Let(x, x', t)
    ensures SharedInv(x')
  {
    HeldCarries(x, t);
    SameListsStep(x.s, x'.s.buf);
    BrelseCounts(x, x', t);
    BrelseIdentities(x, x', t);
    BrelseOffLists(x, x', t);
  }

  lemma BrelseIdentities(x: Shared, x': Shared, t: nat)
    requires Identities(x) && Let(x, x', t)
    ensures Identities(x')
  {
    forall k | k in x'.holds ensures Carries(x'.s, x'.holds[k].b, x'.holds[k].dev, x'.holds[k].block) {
      assert Carries(x.s, x.holds[k].b, x.holds[k].dev, x.holds[k].block);
    }
    forall u | 0 <= u < |x.calls| && x.calls[u].Found?
      ensures Carries(x'.s, x.calls[u].b, x.calls[u].dev, x.calls[u].block)
    {
      assert Carries(x.s, x.calls[u].b, x.calls[u].dev, x.calls[u].block);
    }
  }

  lemma BrelseOffLists(x: Shared, x': Shared, t: nat)
    requires OffLists(x) && Let(x, x', t) && x.holds[t].b in x.s.order
    ensures OffLists(x')
  {
    OffListsKept(x, x');
  }

  lemma BrelseCounts(x: Shared, x': Shared, t: nat)
    requires Counts(x) && Let(x, x', t)
    ensures Counts(x')
  {
    forall c | 0 <= c < |x.s.buf| ensures x'.s.buf[c].count == |Callers(x', c)| + |Holders(x', c)| {
      assert Callers(x', c) == Callers(x, c);
      HoldersDropped(x, x', t, c);
    }
  }

  lemma IoStep(x: Shared, b: int, uptodate: bool, dirt: bool, lock: bool)
    requires SharedInv(x) && 0 <= b < |x.s.buf|
    ensures var s' := x.s.(buf := x.s.buf[b := x.s.buf[b].(uptodate := uptodate, dirt := dirt, lock := lock)]);
      SharedInv(Shared(s', x.calls, x.holds))
  {
    var s' := x.s.(buf := x.s.buf[b := x.s.buf[b].(uptodate := uptodate, dirt := dirt, lock := lock)]);
    var x' := Shared(s', x.calls, x.holds);
    SameListsStep(x.s, s'.buf);
    forall c | 0 <= c < |x.s.buf| ensures x'.s.buf[c].count == |Callers(x', c)| + |Holders(x', c)| {
      assert Callers(x', c) == Callers(x, c) && Holders(x', c) == Holders(x, c);
    }
    CarriesKept(x, s');
    OffListsKept(x, x');
  }

  lemma UnusedIsOnList(x: Shared, b: int)
    requires SharedInv(x) && 0 <= b < |x.s.buf| && x.s.buf[b].count == 0
    ensures b in x.s.order && Callers(x, b) == {} && Holders(x, b) == {}
  {
    if b !in x.s.order { OffListHasOneUser(x, b); }
  }

  lemma ClaimStep(x: Shared, u: nat, b: int, dev: nat, block: nat)
    requires SharedInv(x) && u < NR_TASKS && x.calls[u].Idle? && dev != 0
    requires 0 <= b < |x.s.buf| && x.s.buf[b].count == 0
    ensures b in x.s.order && |x.s.order| >= 2 && BufferState.Inv(Counted(x.s, b, 1))
    ensures SharedInv(Shared(Removed(Counted(x.s, b, 1), b), x.calls[u := Writing(dev, block, b)], x.holds))
  {
    UnusedIsOnList(x, b);
    ListNeverShort(x);
    var s1 := Counted(x.s, b, 1);
    SameListsStep(x.s, s1.buf);
    RemovedStep(s1, b);
    var s' := Removed(s1, b);
    var x' := Shared(s', x.calls[u := Writing(dev, block, b)], x.holds);
    ClaimCounts(x, x', u, b, s1);
    WritersAfterCall(x, x', u);
    ClaimIdentities(x, x', u, b, s1);
    ClaimOffLists(x, x', u, b, s1);
  }

  lemma ClaimCounts(x: Shared, x': Shared, u: nat, b: int, s1: State)
    requires Counts(x) && u < |x.calls| && x.calls[u].Idle? && 0 <= b < |x.s.buf| && x.s.buf[b].count == 0
    requires s1 == Counted(x.s, b, 1) && SamePayloads(s1.buf, x'.s.buf) && x'.holds == x.holds
    requires |x'.calls| == |x.calls| && Points(x'.calls[u], b) && x'.calls[u].Writing?
    requires forall v :: 0 <= v < |x.calls| && v != u ==> x'.calls[v] == x.calls[v]
    ensures Counts(x')
  {
    forall c | 0 <= c < |x.s.buf| ensures x'.s.buf[c].count == |Callers(x', c)| + |Holders(x', c)| {
      assert SamePayload(s1.buf[c], x'.s.buf[c]);
      CallersAfter(x, x', u, c);
      assert Holders(x', c) == Holders(x, c);
    }
  }

  lemma ClaimIdentities(x: Shared, x': Shared, u: nat, b: int, s1: State)
    requires SharedInv(x) && u < NR_TASKS && 0 <= b < |x.s.buf| && s1 == Counted(x.s, b, 1)
    requires Callers(x, b) == {} && Holders(x, b) == {} && x'.holds == x.holds && |x'.s.buf| == |x.s.buf|
    requires |x'.calls| == |x.calls| && x'.calls[u].Writing? && x'.calls[u].dev != 0
    requires forall v :: 0 <= v < |x.calls| && v != u ==> x'.calls[v] == x.calls[v]
    requires SamePayloads(s1.buf, x'.s.buf) && forall c :: Hashed(x'.s, c) <==> Hashed(s1, c) && c != b
    ensures Identities(x')
  {
    forall t | t in x.holds ensures Carries(x'.s, x.holds[t].b, x.holds[t].dev, x.holds[t].block) {
      assert Carries(x.s, x.holds[t].b, x.holds[t].dev, x.holds[t].block);
      assert x.holds[t].b != b by { assert t !in Holders(x, b); }
      assert SamePayload(s1.buf[x.holds[t].b], x'.s.buf[x.holds[t].b]);
    }
    forall v | 0 <= v < |x.calls| && x'.calls[v].Found?
      ensures Carries(x'.s, x'.calls[v].b, x'.calls[v].dev, x'.calls[v].block)
    {
      assert Carries(x.s, x.calls[v].b, x.calls[v].dev, x.calls[v].block);
      assert x.calls[v].b != b by { assert v !in Callers(x, b); }
      assert SamePayload(s1.buf[x.calls[v].b], x'.s.buf[x.calls[v].b]);
    }
  }

  lemma ClaimOffLists(x: Shared, x': Shared, u: nat, b: int, s1: State)
    requires SharedInv(x) && u < NR_TASKS && x.calls[u].Idle? && 0 <= b < |x.s.buf| && s1 == Counted(x.s, b, 1)
    requires Callers(x, b) == {} && |x'.s.buf| == |x.s.buf| && b in x.s.order
    requires |x'.calls| == |x.calls| && x'.calls[u].Writing? && x'.calls[u].b == b
    requires forall v :: 0 <= v < |x.calls| && v != u ==> x'.calls[v] == x.calls[v]
    requires SamePayloads(s1.buf, x'.s.buf) && forall c :: c in x'.s.order <==> c in x.s.order && c != b
    requires |x'.s.order| == |x.s.order| - 1 && |Writers(x')| == |Writers(x)| + 1
    ensures OffLists(x')
  {
    forall v | 0 <= v < |x'.calls| && x'.calls[v].Writing?
      ensures 0 <= x'.calls[v].b < |x'.s.buf| && x'.calls[v].b !in x'.s.order && x'.s.buf[x'.calls[v].b].count == 1
    {
      if v != u {
        assert v !in Callers(x, b);
        assert SamePayload(s1.buf[x.calls[v].b], x'.s.buf[x.calls[v].b]);
      } else {
        assert SamePayload(s1.buf[b], x'.s.buf[b]);
      }
    }
    forall c | 0 <= c < |x'.s.buf| && c !in x'.s.order ensures exists v :: WrittenBy(x', v, c) {
      if c == b {
        assert WrittenBy(x', u, c);
      } else {
        var v :| WrittenBy(x, v, c);
        assert WrittenBy(x', v, c);
      }
    }
  }

  // ---------------------------------------------------------------- the end of getblk

  /** The new identity of a buffer that is off the lists. */
  ghost function Renamed(s: State, b: int, dev: nat, block: nat, count: nat): State
    requires 0 <= b < |s.buf|
  {
    s.(buf := s.buf[b := s.buf[b].(dev := dev, block := block, dirt := false, uptodate := false, count := count)])
  }

  lemma RenamedStep(s: State, b: int, dev: nat, block: nat, count: nat)
    requires BufferState.Inv(s) && 0 <= b < |s.buf| && b !in s.order
    ensures BufferState.Inv(Renamed(s, b, dev, block, count))
    ensures forall c :: Hashed(Renamed(s, b, dev, block, count), c) <==> Hashed(s, c)
  {
    PayloadStep(s, Renamed(s, b, dev, block, count).buf);
  }

  /** What putting b back under (dev, block) with `count` users does to the lists. */
  lemma PutBackLists(x: Shared, u: nat, dev: nat, block: nat, count: nat)
    requires SharedInv(x) && u < NR_TASKS && x.calls[u].Writing?
    requires dev == 0 || !Cached(x.s, dev, block)
    ensures var b := x.calls[u].b; 0 <= b < |x.s.buf| && b !in x.s.order
    ensures var b := x.calls[u].b;
      var s1 := Renamed(x.s, b, dev, block, count);
      && BufferState.Inv(s1) && BlockFree(s1, b) && BufferState.Inv(Inserted(s1, b))
      && SamePayloads(s1.buf, Inserted(s1, b).buf) && Inserted(s1, b).order == x.s.order + [b]
      && (forall c :: Hashed(Inserted(s1, b), c) <==> Hashed(x.s, c) || (c == b && dev != 0))
  {
    var b := x.calls[u].b;
    var s1 := Renamed(x.s, b, dev, block, count);
    RenamedStep(x.s, b, dev, block, count);
    forall c | Hashed(s1, c) ensures !(s1.buf[c].dev == dev && s1.buf[c].block == block) {
      assert Hashed(x.s, c) && c != b;
      assert !Carries(x.s, c, dev, block) || dev == 0;
    }
    InsertedStep(s1, b);
  }

  lemma OthersCarry(x: Shared, s': State, u: nat)
    requires SharedInv(x) && u < NR_TASKS && x.calls[u].Writing? && |s'.buf| == |x.s.buf|
    requires forall c :: c != x.calls[u].b && Hashed(x.s, c) ==> Hashed(s', c)
    requires forall c :: 0 <= c < |x.s.buf| && c != x.calls[u].b ==>
      s'.buf[c].dev == x.s.buf[c].dev && s'.buf[c].block == x.s.buf[c].block
    ensures forall t :: t in x.holds ==> Carries(s', x.holds[t].b, x.holds[t].dev, x.holds[t].block)
    ensures forall v :: 0 <= v < |x.calls| && x.calls[v].Found? ==>
      Carries(s', x.calls[v].b, x.calls[v].dev, x.calls[v].block)
  {
    WriterAlone(x, u);
    forall t | t in x.holds ensures Carries(s', x.holds[t].b, x.holds[t].dev, x.holds[t].block) {
      assert t !in Holders(x, x.calls[u].b);
      assert Carries(x.s, x.holds[t].b, x.holds[t].dev, x.holds[t].block);
    }
    forall v | 0 <= v < |x.calls| && x.calls[v].Found?
      ensures Carries(s', x.calls[v].b, x.calls[v].dev, x.calls[v].block)
    {
      assert v != u && v !in Callers(x, x.calls[u].b) + {u} - {u};
      assert Carries(x.s, x.calls[v].b, x.calls[v].dev, x.calls[v].block);
    }
  }

  lemma BackOffLists(x: Shared, x': Shared, u: nat)
    requires SharedInv(x) && u < NR_TASKS && x.calls[u].Writing? && |x'.s.buf| == |x.s.buf|
    requires x'.calls == x.calls[u := Idle] && x'.s.order == x.s.order + [x.calls[u].b]
    requires forall c :: 0 <= c < |x.s.buf| && c != x.calls[u].b ==> x'.s.buf[c].count == x.s.buf[c].count
    ensures OffLists(x')
  {
    var b := x.calls[u].b;
    WriterAlone(x, u);
    WritersAfterCall(x, x', u);
    forall v | 0 <= v < |x'.calls| && x'.calls[v].Writing?
      ensures 0 <= x'.calls[v].b < |x'.s.buf| && x'.calls[v].b !in x'.s.order && x'.s.buf[x'.calls[v].b].count == 1
    {
      assert v != u && x.calls[v].Writing?;
      assert v !in Callers(x, b);
    }
    forall c | 0 <= c < |x'.s.buf| && c !in x'.s.order ensures exists v :: WrittenBy(x', v, c) {
      var v :| WrittenBy(x, v, c);
      assert v != u;
      assert WrittenBy(x', v, c);
    }
  }

  lemma GotCounts(x: Shared, x': Shared, u: nat, t: nat, h: Hold)
    requires Counts(x) && u < |x.calls| && x.calls[u].Writing? && |x'.s.buf| == |x.s.buf| && t !in x.holds
    requires h.b == x.calls[u].b && 0 <= h.b < |x.s.buf| && Callers(x, h.b) == {u} && Holders(x, h.b) == {}
    requires x'.calls == x.calls[u := Idle] && x'.holds == x.holds[t := h]
    requires forall c :: 0 <= c < |x.s.buf| && c != h.b ==> x'.s.buf[c].count == x.s.buf[c].count
    requires x'.s.buf[h.b].count == 1
    ensures Counts(x')
  {
    forall c | 0 <= c < |x.s.buf| ensures x'.s.buf[c].count == |Callers(x', c)| + |Holders(x', c)| {
      CallersAfter(x, x', u, c);
      HoldersAdded(x, x', t, h, c);
    }
  }

  lemma BeatenCounts(x: Shared, x': Shared, u: nat, b: int)
    requires Counts(x) && u < |x.calls| && x.calls[u].Writing? && |x'.s.buf| == |x.s.buf|
    requires b == x.calls[u].b && 0 <= b < |x.s.buf| && Callers(x, b) == {u} && Holders(x, b) == {}
    requires x'.calls == x.calls[u := Idle] && x'.holds == x.holds
    requires forall c :: 0 <= c < |x.s.buf| && c != b ==> x'.s.buf[c].count == x.s.buf[c].count
    requires x'.s.buf[b].count == 0
    ensures Counts(x')
  {
    forall c | 0 <= c < |x.s.buf| ensures x'.s.buf[c].count == |Callers(x', c)| + |Holders(x', c)| {
      CallersAfter(x, x', u, c);
      assert Holders(x', c) == Holders(x, c);
    }
  }

  /** Nobody added the block while the task was writing: the buffer becomes its own. */
  lemma GotStep(x: Shared, u: nat, t: nat)
    requires SharedInv(x) && u < NR_TASKS && x.calls[u].Writing? && t !in x.holds
    requires !Cached(x.s, x.calls[u].dev, x.calls[u].block)
    ensures var w := x.calls[u];
      && 0 <= w.b < |x.s.buf| && w.b !in x.s.order
      && BufferState.Inv(Renamed(x.s, w.b, w.dev, w.block, 1)) && BlockFree(Renamed(x.s, w.b, w.dev, w.block, 1), w.b)
      && SharedInv(Shared(Inserted(Renamed(x.s, w.b, w.dev, w.block, 1), w.b), x.calls[u := Idle],
                          x.holds[t := Hold(w.dev, w.block, w.b)]))
  {
    var w := x.calls[u];
    var h := Hold(w.dev, w.block, w.b);
    PutBackLists(x, u, w.dev, w.block, 1);
    var s1 := Renamed(x.s, w.b, w.dev, w.block, 1);
    var s' := Inserted(s1, w.b);
    var x' := Shared(s', x.calls[u := Idle], x.holds[t := h]);
    PayloadsBack(x.s, s1, s', w.b);
    WriterAlone(x, u);
    GotCounts(x, x', u, t, h);
    OthersCarry(x, s', u);
    assert Carries(s', w.b, w.dev, w.block);
    GotIdentities(x, x', u, t, h);
    BackOffLists(x, x', u);
  }

  lemma GotIdentities(x: Shared, x': Shared, u: nat, t: nat, h: Hold)
    requires Identities(x) && u < |x.calls| && x.calls[u].Writing? && t !in x.holds && h.dev != 0
    requires x'.calls == x.calls[u := Idle] && x'.holds == x.holds[t := h] && Carries(x'.s, h.b, h.dev, h.block)
    requires forall k :: k in x.holds ==> Carries(x'.s, x.holds[k].b, x.holds[k].dev, x.holds[k].block)
    requires forall v :: 0 <= v < |x.calls| && x.calls[v].Found? ==>
      Carries(x'.s, x.calls[v].b, x.calls[v].dev, x.calls[v].block)
    ensures Identities(x')
  {
  }

  lemma PayloadsBack(s: State, s1: State, s': State, b: int)
    requires 0 <= b < |s.buf| == |s1.buf| && SamePayloads(s1.buf, s'.buf)
    requires forall c :: 0 <= c < |s.buf| && c != b ==> s1.buf[c] == s.buf[c]
    ensures SamePayload(s1.buf[b], s'.buf[b])
    ensures forall c :: 0 <= c < |s.buf| && c != b ==>
      s'.buf[c].dev == s.buf[c].dev && s'.buf[c].block == s.buf[c].block && s'.buf[c].count == s.buf[c].count
  {
    forall c | 0 <= c < |s.buf| ensures SamePayload(s1.buf[c], s'.buf[c]) {
    }
  }

  /** Somebody else added it: the buffer goes back empty and unused, and the task starts over. */
  lemma BeatenStep(x: Shared, u: nat)
    requires SharedInv(x) && u < NR_TASKS && x.calls[u].Writing?
    ensures var w := x.calls[u];
      && 0 <= w.b < |x.s.buf| && w.b !in x.s.order
      && BufferState.Inv(Renamed(x.s, w.b, 0, 0, 0)) && BlockFree(Renamed(x.s, w.b, 0, 0, 0), w.b)
      && SharedInv(Shared(Inserted(Renamed(x.s, w.b, 0, 0, 0), w.b), x.calls[u := Idle], x.holds))
  {
    var w := x.calls[u];
    PutBackLists(x, u, 0, 0, 0);
    var s1 := Renamed(x.s, w.b, 0, 0, 0);
    var s' := Inserted(s1, w.b);
    var x' := Shared(s', x.calls[u := Idle], x.holds);
    PayloadsBack(x.s, s1, s', w.b);
    WriterAlone(x, u);
    BeatenCounts(x, x', u, w.b);
    OthersCarry(x, s', u);
    BeatenIdentities(x, x', u);
    BackOffLists(x, x', u);
  }

  lemma BeatenIdentities(x: Shared, x': Shared, u: nat)
    requires Identities(x) && u < |x.calls| && x.calls[u].Writing?
    requires x'.calls == x.calls[u := Idle] && x'.holds == x.holds
    requires forall k :: k in x.holds ==> Carries(x'.s, x.holds[k].b, x.holds[k].dev, x.holds[k].block)
    requires forall v :: 0 <= v < |x.calls| && x.calls[v].Found? ==>
      Carries(x'.s, x.calls[v].b, x.calls[v].dev, x.calls[v].block)
    ensures Identities(x')
  {
  }

  // ---------------------------------------------------------------- runs

  /** What happens between two sleeps: task u finds a buffer; returns it to caller t after the wait;
      takes an unused buffer off the queues; puts it back; caller t calls brelse; a driver or a user
      changes a buffer's marks. */
  datatype Event =
    | Finds(u: nat, dev: nat, block: nat, b: int)
    | Returns(u: nat, t: nat)
    | Takes(u: nat, dev: nat, block: nat, b: int)
    | PutsBack(u: nat, t: nat)
    | Releases(t: nat)
    | Touches(b: int, uptodate: bool, dirt: bool, lock: bool)

  ghost predicate MayTake(x: Shared, u: nat, dev: nat, b: int) {
    SharedInv(x) && u < NR_TASKS && x.calls[u].Idle? && dev != 0 && 0 <= b < |x.s.buf| && x.s.buf[b].count == 0
  }

  ghost function AfterFinds(x: Shared, u: nat, dev: nat, block: nat, b: int): (x': Shared)
    requires SharedInv(x) && u < NR_TASKS && x.calls[u].Idle? && dev != 0 && Carries(x.s, b, dev, block)
    ensures SharedInv(x')
  {
    FoundStep(x, u, b, dev, block);
    Shared(Counted(x.s, b, x.s.buf[b].count + 1), x.calls[u := Found(dev, block, b)], x.holds)
  }

  ghost function AfterReturns(x: Shared, u: nat, t: nat): (x': Shared)
    requires SharedInv(x) && u < NR_TASKS && x.calls[u].Found? && t !in x.holds
    ensures SharedInv(x')
  {
    TicketStep(x, u, t);
    Shared(x.s, x.calls[u := Idle], x.holds[t := Hold(x.calls[u].dev, x.calls[u].block, x.calls[u].b)])
  }

  ghost function AfterTakes(x: Shared, u: nat, dev: nat, block: nat, b: int): (x': Shared)
    requires MayTake(x, u, dev, b)
    ensures SharedInv(x')
  {
    ClaimStep(x, u, b, dev, block);
    Shared(Removed(Counted(x.s, b, 1), b), x.calls[u := Writing(dev, block, b)], x.holds)
  }

  ghost function AfterPutsBack(x: Shared, u: nat, t: nat): (x': Shared)
    requires SharedInv(x) && u < NR_TASKS && x.calls[u].Writing? && t !in x.holds
    ensures SharedInv(x')
  {
    var w := x.calls[u];
    if Cached(x.s, w.dev, w.block) then
      BeatenStep(x, u);
      Shared(Inserted(Renamed(x.s, w.b, 0, 0, 0), w.b), x.calls[u := Idle], x.holds)
    else
      GotStep(x, u, t);
      Shared(Inserted(Renamed(x.s, w.b, w.dev, w.block, 1), w.b), x.calls[u := Idle],
             x.holds[t := Hold(w.dev, w.block, w.b)])
  }

  /** The buffer that u took is the last of the free list, empty and clean: for the block asked for, with one user,
      or for none. */
  ghost predicate IsBack(x: Shared, x': Shared, u: nat, got: bool)
    requires u < |x.calls| && x.calls[u].Writing?
  {
    var w := x.calls[u];
    && x'.s.order == x.s.order + [w.b] && 0 <= w.b < |x'.s.buf|
    && !x'.s.buf[w.b].dirt && !x'.s.buf[w.b].uptodate
    && (if got then x'.s.buf[w.b].dev == w.dev && x'.s.buf[w.b].block == w.block && x'.s.buf[w.b].count == 1
        else x'.s.buf[w.b].dev == 0 && x'.s.buf[w.b].block == 0 && x'.s.buf[w.b].count == 0)
  }

  lemma BackIs(x: Shared, u: nat, t: nat)
    requires SharedInv(x) && u < NR_TASKS && x.calls[u].Writing? && t !in x.holds
    ensures IsBack(x, AfterPutsBack(x, u, t), u, !Cached(x.s, x.calls[u].dev, x.calls[u].block))
  {
    var w, s' := x.calls[u], AfterPutsBack(x, u, t).s;
    if Cached(x.s, w.dev, w.block) {
      PutBackLists(x, u, 0, 0, 0);
      BackFields(x.s, s', w.b, 0, 0, 0);
    } else {
      PutBackLists(x, u, w.dev, w.block, 1);
      BackFields(x.s, s', w.b, w.dev, w.block, 1);
    }
  }

  lemma BackFields(s: State, s': State, b: int, dev: nat, block: nat, count: nat)
    requires 0 <= b < |s.buf| && SamePayloads(Renamed(s, b, dev, block, count).buf, s'.buf)
    ensures |s'.buf| == |s.buf| && !s'.buf[b].dirt && !s'.buf[b].uptodate
    ensures s'.buf[b].dev == dev && s'.buf[b].block == block && s'.buf[b].count == count
  {
    assert SamePayload(Renamed(s, b, dev, block, count).buf[b], s'.buf[b]);
  }

  ghost function AfterReleases(x: Shared, t: nat): (x': Shared)
    requires SharedInv(x) && t in x.holds
    ensures SharedInv(x')
  {
    BrelseStep(x, t);
    Shared(Counted(x.s, x.holds[t].b, x.s.buf[x.holds[t].b].count - 1), x.calls, Dropped(x.holds, t))
  }

  ghost function AfterTouches(x: Shared, b: int, uptodate: bool, dirt: bool, lock: bool): (x': Shared)
    requires SharedInv(x) && 0 <= b < |x.s.buf|
    ensures SharedInv(x')
  {
    IoStep(x, b, uptodate, dirt, lock);
    var s' := x.s.(buf := x.s.buf[b := x.s.buf[b].(uptodate := uptodate, dirt := dirt, lock := lock)]);
    Shared(s', x.calls, x.holds)
  }

  ghost predicate Moves(x: Shared, e: Event, x': Shared)
    requires SharedInv(x)
  {
    match e
    case Finds(u, dev, block, b) =>
      && u < NR_TASKS && x.calls[u].Idle? && dev != 0 && Carries(x.s, b, dev, block)
      && x' == AfterFinds(x, u, dev, block, b)
    case Returns(u, t) => u < NR_TASKS && x.calls[u].Found? && t !in x.holds && x' == AfterReturns(x, u, t)
    case Takes(u, dev, block, b) => MayTake(x, u, dev, b) && x' == AfterTakes(x, u, dev, block, b)
    case PutsBack(u, t) => u < NR_TASKS && x.calls[u].Writing? && t !in x.holds && x' == AfterPutsBack(x, u, t)
    case Releases(t) => t in x.holds && x' == AfterReleases(x, t)
    case Touches(b, up, dirt, lock) => 0 <= b < |x.s.buf| && x' == AfterTouches(x, b, up, dirt, lock)
  }

  /** xs[i + 1] comes from xs[i] by es[i].  Nothing is said of a step from a state without the invariant. */
  ghost predicate IsRun(xs: seq<Shared>, es: seq<Event>) {
    && |xs| == |es| + 1
    && forall i {:trigger es[i]} :: 0 <= i < |es| && SharedInv(xs[i]) ==> Moves(xs[i], es[i], xs[i + 1])
  }

  lemma HoldKept(x: Shared, e: Event, x': Shared, t: nat)
    requires SharedInv(x) && Moves(x, e, x') && t in x.holds && t in x'.holds
    ensures x'.holds[t] == x.holds[t]
  {
  }

  lemma InvKept(x: Shared, e: Event, x': Shared)
    requires SharedInv(x) && Moves(x, e, x')
    ensures SharedInv(x')
  {
  }

  /** The invariant of the first state holds in every state. */
  lemma {:induction false} InvAlways(xs: seq<Shared>, es: seq<Event>, n: nat)
    requires IsRun(xs, es) && n < |xs| && SharedInv(xs[0])
    ensures SharedInv(xs[n])
  {
    if n > 0 {
      InvAlways(xs, es, n - 1);
      InvKept(xs[n - 1], es[n - 1], xs[n]);
    }
  }

  lemma {:induction false} HoldLasts(xs: seq<Shared>, es: seq<Event>, t: nat, n: nat)
    requires IsRun(xs, es) && n < |xs| && SharedInv(xs[0])
    requires forall i :: 0 <= i <= n ==> t in xs[i].holds
    ensures xs[n].holds[t] == xs[0].holds[t]
  {
    if n > 0 {
      InvAlways(xs, es, n - 1);
      HoldLasts(xs, es, t, n - 1);
      HoldKept(xs[n - 1], es[n - 1], xs[n], t);
    }
  }

  /** While a caller holds a buffer, no step of any task gives it another identity, takes it off the
      lists or lets its count reach 0. */
  lemma HeldBufferStays(xs: seq<Shared>, es: seq<Event>, t: nat, n: nat)
    requires IsRun(xs, es) && n < |xs| && SharedInv(xs[0])
    requires forall i :: 0 <= i <= n ==> t in xs[i].holds
    ensures var h := xs[0].holds[t];
      Carries(xs[n].s, h.b, h.dev, h.block) && xs[n].s.buf[h.b].count >= 1
  {
    HoldLasts(xs, es, t, n);
    InvAlways(xs, es, n);
    HeldCarries(xs[n], t);
  }

  /** In every state of every run a block is in at most one hashed buffer. */
  lemma NeverTwice(xs: seq<Shared>, es: seq<Event>, n: nat)
    requires IsRun(xs, es) && n < |xs| && SharedInv(xs[0])
    ensures forall b, c, dev, block :: Carries(xs[n].s, b, dev, block) && Carries(xs[n].s, c, dev, block) ==> b == c
    ensures forall b :: 0 <= b < |xs[n].s.buf| && b !in xs[n].s.order ==> xs[n].s.buf[b].count >= 1
  {
    InvAlways(xs, es, n);
    forall b | 0 <= b < |xs[n].s.buf| && b !in xs[n].s.order ensures xs[n].s.buf[b].count >= 1 {
      OffListHasOneUser(xs[n], b);
    }
  }

  // ---------------------------------------------------------------- the code between two sleeps

  class Sharing {
    const c: Cache
    const calls: array<Call>
    var holds: map<nat, Hold>

    ghost function X(): Shared
      reads this, c, c.buf, c.hash, calls
    {
      Shared(c.S(), calls[..], holds)
    }

    ghost predicate Valid()
      reads this, c, c.buf, c.hash, calls
    {
      c.data.Length == c.buf.Length && SharedInv(X())
    }

    constructor (n: nat)
      requires n >= NR_TASKS + 2
      ensures Valid() && c.buf.Length == n && holds == map[] && forall u :: 0 <= u < NR_TASKS ==> calls[u] == Idle
    {
      c := new Cache(n);
      calls := new Call[NR_TASKS](_ => Idle);
      holds := map[];
      new;
      assert Writers(X()) == {};
      forall b | 0 <= b < n ensures c.buf[b].count == |Callers(X(), b)| + |Holders(X(), b)| && b in c.order {
        assert Callers(X(), b) == {} && Holders(X(), b) == {};
        assert c.order[b] == b;
      }
    }

    /** find_buffer and `b_count++` of get_hash_table, up to wait_on_buffer. */
    method LookUp(u: nat, dev: nat, block: nat) returns (found: bool)
      requires Valid() && u < NR_TASKS && calls[u].Idle? && dev != 0
      modifies c.buf, calls
      ensures Valid() && holds == old(holds)
      ensures found <==> Cached(old(c.S()), dev, block)
      ensures !found ==> X() == old(X())
      ensures found ==> calls[u].Found? && Carries(old(c.S()), calls[u].b, dev, block)
      ensures found ==> X() == AfterFinds(old(X()), u, dev, block, calls[u].b)
    {
      var b := c.FindBuffer(dev, block);
      found := b != NULL;
      if found {
        CountIn(u, dev, block, b);
      }
    }

    method CountIn(u: nat, dev: nat, block: nat, b: int)
      requires Valid() && u < NR_TASKS && calls[u].Idle? && dev != 0 && Carries(c.S(), b, dev, block)
      modifies c.buf, calls
      ensures Valid() && X() == AfterFinds(old(X()), u, dev, block, b) && calls[u] == Found(dev, block, b)
    {
      ghost var x := X();
      var n := c.buf[b].count + 1;
      assert n == x.s.buf[b].count + 1;
      calls[u] := Found(dev, block, b);
      SetCount(b, n);
      assert c.S() == Counted(x.s, b, n) && calls[..] == x.calls[u := Found(dev, block, b)];
      FoundIs(x, X(), u, dev, block, b);
    }

    /** get_hash_table after wait_on_buffer: the caller has the buffer, its identity unchanged. */
    method FoundReturns(u: nat, t: nat) returns (b: int)
      requires Valid() && u < NR_TASKS && calls[u].Found? && t !in holds
      modifies this, calls
      ensures Valid() && X() == AfterReturns(old(X()), u, t)
      ensures b == old(calls[u].b) && Carries(c.S(), b, old(calls[u].dev), old(calls[u].block))
    {
      ghost var x := X();
      TicketStep(x, u, t);
      b := calls[u].b;
      assert c.buf[b].dev == calls[u].dev && c.buf[b].block == calls[u].block;
      holds := holds[t := Hold(calls[u].dev, calls[u].block, b)];
      calls[u] := Idle;
    }

    /** getblk from the choice of an unused buffer up to sync_dev. */
    method TakeOff(u: nat, dev: nat, block: nat, b: int)
      requires Valid() && u < NR_TASKS && calls[u].Idle? && dev != 0 && 0 <= b < c.buf.Length && c.buf[b].count == 0
      modifies c, c.buf, c.hash, calls
      ensures Valid() && b !in c.order && X() == AfterTakes(old(X()), u, dev, block, b)
    {
      ghost var x := X();
      ClaimStep(x, u, b, dev, block);
      var h := c.buf[b].(count := c.buf[b].count + 1);
      assert h == x.s.buf[b].(count := 1);
      TakeFrom(b, h);
      calls[u] := Writing(dev, block, b);
      assert calls[..] == x.calls[u := Writing(dev, block, b)];
      assert X() == Shared(Removed(Counted(x.s, b, 1), b), x.calls[u := Writing(dev, block, b)], x.holds);
    }

    /** The buffer gets its user and leaves the queues. */
    method TakeFrom(b: int, h: Head)
      requires c.Valid() && 0 <= b < c.buf.Length && b in c.order && |c.order| >= 2
      requires h == c.buf[b].(count := 1) && BufferState.Inv(Counted(c.S(), b, 1))
      modifies c, c.buf, c.hash
      ensures c.Valid() && c.S() == Removed(Counted(old(c.S()), b, 1), b) && b !in c.order
    {
      ghost var s := c.S();
      c.SetHead(b, h);
      assert c.S() == Counted(s, b, 1);
      RemovedStep(c.S(), b);
      c.RemoveFromQueues(b);
    }

    /** getblk after sync_dev: the buffer of the block, or another try if somebody was faster. */
    method PutBack(u: nat, t: nat) returns (got: bool)
      requires Valid() && u < NR_TASKS && calls[u].Writing? && t !in holds
      modifies this, c, c.buf, c.hash, calls
      ensures Valid() && X() == AfterPutsBack(old(X()), u, t)
      ensures got <==> !old(Cached(c.S(), calls[u].dev, calls[u].block))
      ensures got <==> t in holds
      ensures IsBack(old(X()), X(), u, got)
    {
      ghost var x := X();
      var w := calls[u];
      WriterOff(x, u);
      BackIs(x, u, t);
      got := Rename(w.b, w.dev, w.block);
      if got {
        GotStep(x, u, t);
        TakeOver(u, t, x);
      } else {
        BeatenStep(x, u);
        Disown(x.s, w.b, w.dev, w.block);
        calls[u] := Idle;
        assert calls[..] == x.calls[u := Idle];
      }
    }

    /** No rival was found: the buffer goes back on the queues, and to the caller. */
    method TakeOver(u: nat, t: nat, ghost x: Shared)
      requires c.Valid() && u < |x.calls| && calls[..] == x.calls && holds == x.holds && x.calls[u].Writing?
      requires var w := x.calls[u];
        && 0 <= w.b < |x.s.buf| && c.S() == Renamed(x.s, w.b, w.dev, w.block, 1)
        && BufferState.Inv(c.S()) && BlockFree(c.S(), w.b) && w.b !in c.order
      modifies this, c, c.buf, c.hash, calls
      ensures c.Valid()
      ensures var w := x.calls[u];
        X() == Shared(Inserted(Renamed(x.s, w.b, w.dev, w.block, 1), w.b), x.calls[u := Idle],
                      x.holds[t := Hold(w.dev, w.block, w.b)])
    {
      var w := calls[u];
      c.InsertIntoQueues(w.b);
      holds := holds[t := Hold(w.dev, w.block, w.b)];
      calls[u] := Idle;
      assert calls[..] == x.calls[u := Idle];
    }

    /** The new identity, and the search for a rival. */
    method Rename(b: int, dev: nat, block: nat) returns (alone: bool)
      requires c.Valid() && 0 <= b < c.buf.Length && b !in c.order && c.buf[b].count == 1
      modifies c.buf
      ensures c.Valid() && c.S() == Renamed(old(c.S()), b, dev, block, 1)
      ensures alone <==> !Cached(old(c.S()), dev, block)
    {
      ghost var s := c.S();
      RenamedStep(s, b, dev, block, 1);
      var h := c.buf[b].(dev := dev, block := block, dirt := false, uptodate := false);
      assert h == s.buf[b].(dev := dev, block := block, dirt := false, uptodate := false, count := 1);
      c.SetHead(b, h);
      assert c.S() == Renamed(s, b, dev, block, 1);
      SameCached(s, c.S(), b, dev, block);
      var other := c.FindBuffer(dev, block);
      alone := other == NULL;
    }

    /** A rival was found: the buffer goes back without identity or user. */
    method Disown(ghost s: State, b: int, dev: nat, block: nat)
      requires c.Valid() && 0 <= b < |s.buf| && c.S() == Renamed(s, b, dev, block, 1) && b !in s.order
      requires BufferState.Inv(Renamed(s, b, 0, 0, 0)) && BlockFree(Renamed(s, b, 0, 0, 0), b)
      modifies c, c.buf, c.hash
      ensures c.Valid() && c.S() == Inserted(Renamed(s, b, 0, 0, 0), b)
    {
      c.SetHead(b, c.buf[b].(dev := 0, block := 0, count := 0));
      assert c.S() == Renamed(s, b, 0, 0, 0);
      c.InsertIntoQueues(b);
    }

    /** brelse after wait_on_buffer.  "Trying to free free buffer" cannot happen. */
    method Brelse(t: nat)
      requires Valid() && t in holds
      modifies this, c.buf
      ensures Valid() && X() == AfterReleases(old(X()), t)
    {
      ghost var x := X();
      HeldCarries(x, t);
      LetGo(t);
      ReleasedIs(x, X(), t);
    }

    method LetGo(t: nat)
      requires t in holds && 0 <= holds[t].b < c.buf.Length && c.buf[holds[t].b].count >= 1
      modifies this, c.buf
      ensures Let(old(X()), X(), t)
    {
      var b := holds[t].b;
      var n := c.buf[b].count - 1;
      holds := Dropped(holds, t);
      SetCount(b, n);
    }

    method SetCount(b: int, n: nat)
      requires 0 <= b < c.buf.Length
      modifies c.buf
      ensures c.S() == Counted(old(c.S()), b, n)
    {
      c.SetHead(b, c.buf[b].(count := n));
    }

    /** Whatever drivers and users do to the other fields of a buffer. */
    method Touch(b: int, uptodate: bool, dirt: bool, lock: bool)
      requires Valid() && 0 <= b < c.buf.Length
      modifies c.buf
      ensures Valid() && X() == AfterTouches(old(X()), b, uptodate, dirt, lock)
      ensures c.buf[..] == old(c.buf[..])[b := old(c.buf[b]).(uptodate := uptodate, dirt := dirt, lock := lock)]
    {
      ghost var x := X();
      IoStep(x, b, uptodate, dirt, lock);
      c.SetHead(b, c.buf[b].(uptodate := uptodate, dirt := dirt, lock := lock));
    }
  }

  lemma WriterOff(x: Shared, u: nat)
    requires SharedInv(x) && u < NR_TASKS && x.calls[u].Writing?
    ensures var w := x.calls[u]; 0 <= w.b < |x.s.buf| && w.b !in x.s.order && x.s.buf[w.b].count == 1 && w.dev != 0
  {
  }

  lemma FoundIs(x: Shared, x': Shared, u: nat, dev: nat, block: nat, b: int)
    requires SharedInv(x) && u < NR_TASKS && x.calls[u].Idle? && dev != 0 && Carries(x.s, b, dev, block)
    requires x' == Shared(Counted(x.s, b, x.s.buf[b].count + 1), x.calls[u := Found(dev, block, b)], x.holds)
    ensures x' == AfterFinds(x, u, dev, block, b) && SharedInv(x')
  {
    var y := AfterFinds(x, u, dev, block, b);
    assert y.s == x'.s;
    assert y.calls == x'.calls;
    assert y.holds == x'.holds;
  }

  lemma ReleasedIs(x: Shared, x': Shared, t: nat)
    requires SharedInv(x) && Let(x, x', t)
    ensures x' == AfterReleases(x, t)
  {
    var y := AfterReleases(x, t);
    assert y.s == x'.s && y.calls == x'.calls && y.holds == x'.holds;
  }

  lemma SameCached(s: State, s1: State, b: int, dev: nat, block: nat)
    requires BufferState.Inv(s) && 0 <= b < |s.buf| == |s1.buf| && b !in s.order && s1.order == s.order
    requires forall c :: 0 <= c < |s.buf| && c != b ==> s1.buf[c] == s.buf[c]
    ensures Cached(s1, dev, block) <==> Cached(s, dev, block)
  {
    assert forall c :: Carries(s1, c, dev, block) <==> Carries(s, c, dev, block);
  }
}
