/** fs/buffer.c: the queues, and the cache as one caller at a time sees it. */
module BufferCache {
  import opened BufferState
  import opened BufferSteps
  import opened FileState = FileState

  type DiskMap = map<(nat, nat), Block>

  ghost function OnDisk(disk: DiskMap, dev: nat, block: nat): Block {
    if (dev, block) in disk then disk[(dev, block)] else ZeroBlock()
  }

  ghost predicate Carries(s: BufferState.State, b: int, dev: nat, block: nat) {
    Hashed(s, b) && s.buf[b].dev == dev && s.buf[b].block == block
  }

  ghost predicate Cached(s: BufferState.State, dev: nat, block: nat) {
    exists b :: Carries(s, b, dev, block)
  }

  /** The contents of a block as its users see it: the up-to-date buffer that carries it, else the disk. */
  ghost function Seen(s: BufferState.State, data: seq<Block>, disk: DiskMap, dev: nat, block: nat): Block
    requires |data| == |s.buf|
  {
    if b :| Carries(s, b, dev, block) && s.buf[b].uptodate then data[b] else OnDisk(disk, dev, block)
  }

  /** A buffer that does not differ from the disk unless it is marked dirty. */
  ghost predicate Coherent(s: BufferState.State, data: seq<Block>, disk: DiskMap)
    requires |data| == |s.buf|
  {
    && (forall b :: 0 <= b < |s.buf| && s.buf[b].dirt ==> s.buf[b].uptodate && Hashed(s, b))
    && (forall b :: Hashed(s, b) && s.buf[b].uptodate && !s.buf[b].dirt ==>
          data[b] == OnDisk(disk, s.buf[b].dev, s.buf[b].block))
  }

  lemma SeenIs(s: BufferState.State, data: seq<Block>, disk: DiskMap, b: int)
    requires Unique(s) && |data| == |s.buf| && Hashed(s, b)
    ensures Seen(s, data, disk, s.buf[b].dev, s.buf[b].block)
         == if s.buf[b].uptodate then data[b] else OnDisk(disk, s.buf[b].dev, s.buf[b].block)
  {
    var dev, block := s.buf[b].dev, s.buf[b].block;
    assert Carries(s, b, dev, block);
    assert forall c :: Carries(s, c, dev, block) ==> c == b;
  }

  function InitialHead(n: nat, i: int): Head {
    Head(0, 0, false, false, 0, false, NULL, NULL, Round(n, i), Back(n, i))
  }

  lemma InitialLists(s: BufferState.State, n: nat)
    requires n >= 1 && |s.buf| == n && (forall i :: 0 <= i < n ==> s.buf[i] == InitialHead(n, i))
    requires s.hash == seq(NR_HASH, _ => NULL) && s.free == 0
    requires s.order == seq(n, i requires 0 <= i => i) && s.chains == seq(NR_HASH, _ => [])
    ensures BufferState.Inv(s)
  {
    forall i | 0 <= i < n ensures Circled(s.buf, s.order, i) {
    }
    assert forall h :: 0 <= h < NR_HASH ==> ChainOk(s.buf, s.chains[h], s.hash[h]);
  }

  class Cache {
    const buf: array<Head>
    const hash: array<int>
    const data: array<Block>
    var free: int
    var disk: DiskMap
    ghost var order: seq<int>
    ghost var chains: seq<seq<int>>

    ghost function S(): BufferState.State
      reads this, buf, hash
    {
      BufferState.State(buf[..], hash[..], free, order, chains)
    }

    ghost predicate Valid()
      reads this, buf, hash
    {
      data.Length == buf.Length && BufferState.Inv(S())
    }

    /** buffer_init: every buffer on the free list in order, the hash table empty. */
    constructor (n: nat)
      requires n >= 1
      ensures Valid() && buf.Length == n && order == seq(n, i requires 0 <= i => i)
      ensures forall b :: 0 <= b < n ==>
        buf[b].dev == 0 && !buf[b].dirt && !buf[b].uptodate && buf[b].count == 0 && !buf[b].lock
      ensures fresh(buf) && fresh(hash) && fresh(data) && disk == map[]
    {
      buf := new Head[n](i => InitialHead(n, i));
      hash := new int[NR_HASH](_ => NULL);
      data := new Block[n](_ => ZeroBlock());
      free := 0;
      disk := map[];
      order := seq(n, i requires 0 <= i => i);
      chains := seq(NR_HASH, _ => []);
      new;
      InitialLists(S(), n);
    }

    method SetHead(b: int, h: Head)
      requires 0 <= b < buf.Length
      modifies buf
      ensures S() == old(S()).(buf := old(buf[..])[b := h])
    {
      buf[b] := h;
    }

    method UnlinkHash(b: int)
      requires 0 <= b < buf.Length && -1 <= buf[b].next < buf.Length && -1 <= buf[b].prev < buf.Length
      modifies buf
      ensures buf[..] == Unchain(old(buf[..]), b)
    {
      var n, p := buf[b].next, buf[b].prev;
      if n != NULL {
        buf[n] := buf[n].(prev := p);
      }
      if p != NULL {
        buf[p] := buf[p].(next := n);
      }
    }

    method UnlinkFree(b: int)
      requires 0 <= b < buf.Length && 0 <= buf[b].nextFree < buf.Length && 0 <= buf[b].prevFree < buf.Length
      modifies buf
      ensures buf[..] == Uncircle(old(buf[..]), b)
    {
      var n, p := buf[b].nextFree, buf[b].prevFree;
      buf[p] := buf[p].(nextFree := n);
      buf[n] := buf[n].(prevFree := p);
    }

    /** The links of b leave both lists. */
    method Unlink(b: int)
      requires 0 <= b < buf.Length && hash.Length == NR_HASH
      requires -1 <= buf[b].next < buf.Length && -1 <= buf[b].prev < buf.Length
      requires 0 <= buf[b].nextFree < buf.Length && 0 <= buf[b].prevFree < buf.Length
      requires Unchain(buf[..], b)[b].nextFree == buf[b].nextFree && Unchain(buf[..], b)[b].prevFree == buf[b].prevFree
      modifies this`free, buf, hash
      ensures buf[..] == Uncircle(Unchain(old(buf[..]), b), b)
      ensures var h := HashFn(old(buf[b].dev), old(buf[b].block));
        hash[..] == if old(hash[h]) == b then old(hash[..])[h := old(buf[b].next)] else old(hash[..])
      ensures free == if old(free) == b then old(buf[b].nextFree) else old(free)
    {
      var h := HashFn(buf[b].dev, buf[b].block);
      var n, m := buf[b].next, buf[b].nextFree;
      UnlinkHash(b);
      if hash[h] == b {
        hash[h] := n;
      }
      assert buf[b].prevFree != NULL && buf[b].nextFree != NULL;
      UnlinkFree(b);
      if free == b {
        free := m;
      }
    }

    /** remove_from_queues.  "Free block list corrupted" cannot happen: both links are set. */
    method RemoveFromQueues(b: int)
      requires Valid() && 0 <= b < buf.Length && b in order && |order| >= 2
      modifies this, buf, hash
      ensures Valid() && S() == Removed(old(S()), b) && disk == old(disk)
    {
      ghost var s := S();
      RemovedDefined(s, b);
      ghost var h := HashFn(buf[b].dev, buf[b].block);
      Unlink(b);
      order, chains := Drop(order, b), chains[h := Drop(chains[h], b)];
      assert S() == Removed(s, b);
      RemovedStep(s, b);
    }

    method LinkFree(b: int)
      requires 0 <= b < buf.Length && 0 <= free < buf.Length && 0 <= buf[free].prevFree < buf.Length && free != b
      modifies buf
      ensures buf[..] == Encircle(old(buf[..]), b, free)
    {
      var last := buf[free].prevFree;
      buf[b] := buf[b].(nextFree := free, prevFree := last);
      buf[last] := buf[last].(nextFree := b);
      buf[free] := buf[free].(prevFree := b);
    }

    method LinkHash(b: int, h: nat)
      requires h < hash.Length && 0 <= b < buf.Length && -1 <= hash[h] < buf.Length && hash[h] != b
      modifies buf, hash
      ensures buf[..] == Enchain(old(buf[..]), b, old(hash[h])) && hash[..] == old(hash[..])[h := b]
    {
      var head := hash[h];
      buf[b] := buf[b].(prev := NULL, next := head);
      hash[h] := b;
      if head != NULL {
        buf[head] := buf[head].(prev := b);
      }
    }

    /** insert_into_queues */
    method InsertIntoQueues(b: int)
      requires Valid() && 0 <= b < buf.Length && b !in order && BlockFree(S(), b)
      modifies this, buf, hash
      ensures Valid() && S() == Inserted(old(S()), b) && disk == old(disk)
    {
      ghost var s := S();
      EncircleStep(s.buf, order, free, b);
      InsertedStep(s, b);
      LinkFree(b);
      order := order + [b];
      if buf[b].dev == 0 {
        buf[b] := buf[b].(prev := NULL, next := NULL);
        assert S() == Inserted(s, b);
        return;
      }
      EnterHash(b, s);
    }

    /** The second half of insert_into_queues. */
    method EnterHash(b: int, ghost s: BufferState.State)
      requires BufferState.Inv(s) && 0 <= b < buf.Length == |s.buf| && b !in s.order && s.buf[b].dev != 0
      requires 0 <= s.free < |s.buf| && 0 <= s.buf[s.free].prevFree < |s.buf| && s.free != b
      requires S() == s.(buf := Encircle(s.buf, b, s.free), order := s.order + [b])
      modifies this`chains, buf, hash
      ensures S() == Inserted(s, b)
    {
      var h := HashFn(buf[b].dev, buf[b].block);
      HeadInRange(s, h);
      LinkHash(b, h);
      chains := chains[h := [b] + chains[h]];
    }

    /** find_buffer */
    method FindBuffer(dev: nat, block: nat) returns (b: int)
      requires Valid()
      ensures b == NULL <==> !Cached(S(), dev, block)
      ensures b != NULL ==> Carries(S(), b, dev, block)
    {
      ghost var s := S();
      ghost var c := chains[HashFn(dev, block)];
      ghost var i := 0;
      b := hash[HashFn(dev, block)];
      while b != NULL
        invariant 0 <= i <= |c| && b == (if i < |c| then c[i] else NULL)
        invariant forall k :: 0 <= k < i ==> !Carries(s, c[k], dev, block)
        decreases |c| - i
      {
        assert Chained(s.buf, c, i) && c[i] in c;
        if buf[b].dev == dev && buf[b].block == block {
          assert Carries(s, b, dev, block);
          return;
        }
        b := buf[b].next;
        i := i + 1;
      }
      forall x ensures !Carries(s, x, dev, block) {
        assert Carries(s, x, dev, block) ==> x in c;
      }
    }

    // -------------------------------------------------------------- one caller at a time

    /** Nothing is locked, every buffer is on the lists, and the cache agrees with the disk. */
    ghost predicate Settled()
      reads this, buf, hash, data
    {
      && Valid() && Coherent(S(), data[..], disk) && |order| >= 2
      && (forall b :: 0 <= b < buf.Length ==> b in order && !buf[b].lock)
    }

    /** The lists of v with the payload of the buffers as they are now: while getblk has a buffer off
        the queues, v remembers where it was. */
    ghost predicate Shadows(v: BufferState.State)
      reads this, buf, hash, data
    {
      && |v.buf| == buf.Length == data.Length && Unique(v) && Coherent(v, data[..], disk)
      && SamePayloads(v.buf, buf[..])
    }

    /** ll_rw_block(WRITE) on a disk without faults. */
    method WriteBuffer(b: int, ghost v: BufferState.State) returns (ghost v': BufferState.State)
      requires Shadows(v) && 0 <= b < buf.Length && buf[b].dirt
      modifies this`disk, buf
      ensures Shadows(v') && v' == v.(buf := v.buf[b := v.buf[b].(dirt := false)])
      ensures buf[..] == old(buf[..])[b := old(buf[b]).(dirt := false)]
      ensures SeenAlike(v, v', data[..], old(disk), disk)
    {
      assert SamePayload(v.buf[b], buf[b]) && v.buf[b].uptodate;
      disk := disk[(buf[b].dev, buf[b].block) := data[b]];
      buf[b] := buf[b].(uptodate := true, dirt := false);
      v' := v.(buf := v.buf[b := v.buf[b].(dirt := false)]);
      forall x | 0 <= x < buf.Length ensures SamePayload(v'.buf[x], buf[x]) {
        assert SamePayload(v.buf[x], old(buf[..])[x]);
      }
      UniqueKept(v, v');
      WrittenSeen(v, v', data[..], old(disk), disk, b);
    }

    /** sync_dev: writes what is dirty on a device. */
    method SyncDev(dev: nat, ghost v: BufferState.State) returns (ghost v': BufferState.State)
      requires Shadows(v)
      modifies this`disk, buf
      ensures Shadows(v') && v'.order == v.order && SameButDirt(v.buf, v'.buf)
      ensures SeenAlike(v, v', data[..], old(disk), disk)
      ensures SameButDirt(old(buf[..]), buf[..])
      ensures forall b :: 0 <= b < buf.Length ==> buf[b].dirt == (old(buf[b].dirt) && buf[b].dev != dev)
    {
      v' := v;
      var i := 0;
      while i < buf.Length
        invariant 0 <= i <= buf.Length
        invariant Shadows(v') && v'.order == v.order && SameButDirt(v.buf, v'.buf)
        invariant SeenAlike(v, v', data[..], old(disk), disk)
        invariant SameButDirt(old(buf[..]), buf[..])
        invariant forall b :: 0 <= b < buf.Length ==>
          buf[b].dirt == (old(buf[b].dirt) && (b >= i || buf[b].dev != dev))
      {
        if buf[i].dev == dev && buf[i].dirt {
          ghost var w, d := v', disk;
          v' := WriteBuffer(i, v');
          SeenTrans(v, w, v', data[..], old(disk), d, disk);
        }
        i := i + 1;
      }
    }

    /** The scan of getblk: the first unused buffer of the free list, NULL when all are in use. */
    method FindFree() returns (b: int)
      requires Settled()
      ensures b == NULL ==> forall x :: 0 <= x < buf.Length ==> buf[x].count != 0
      ensures b != NULL ==> exists i :: 0 <= i < |order| && b == order[i] && FirstUnused(S(), i)
    {
      ghost var i := 0;
      b := free;
      while true
        invariant 0 <= i < |order| && b == order[i] && 0 <= b < buf.Length
        invariant forall k :: 0 <= k < i ==> 0 <= order[k] < buf.Length && buf[order[k]].count != 0
        decreases |order| - i
      {
        if buf[b].count == 0 {
          assert FirstUnused(S(), i);
          return;
        }
        assert Circled(buf[..], order, i);
        b := buf[b].nextFree;
        if b == free {
          b := NULL;
          forall x | 0 <= x < buf.Length ensures buf[x].count != 0 {
            var k := IndexOf(order, x);
          }
          return;
        }
        i := i + 1;
      }
    }

    /** getblk when nobody else runs: the buffer of the block, NULL where the caller would have to sleep. */
    method GetBlk(dev: nat, block: nat) returns (b: int)
      requires Settled() && dev != 0
      modifies this, buf, hash
      ensures Settled() && data[..] == old(data[..])
      ensures SeenAlike(old(S()), S(), data[..], old(disk), disk)
      ensures b == NULL ==> !Cached(S(), dev, block) && forall x :: 0 <= x < buf.Length ==> buf[x].count != 0
      ensures b != NULL ==> Carries(S(), b, dev, block)
      ensures b != NULL && !old(Cached(S(), dev, block)) ==> buf[b].count == 1
      ensures b != NULL && old(Cached(S(), dev, block)) ==> old(Carries(S(), b, dev, block))
      ensures b != NULL ==> buf[b].count == old(buf[b].count) + 1
      // the buffer that has been unused longest, empty now, is the last that will be taken again
      ensures b != NULL && !old(Cached(S(), dev, block)) ==> !buf[b].uptodate && !buf[b].dirt
      ensures b != NULL && !old(Cached(S(), dev, block)) ==> Taken(old(S()), b, order)
      ensures b == NULL || old(Cached(S(), dev, block)) ==> order == old(order)
      // every other buffer keeps its block, its contents and its count
      ensures forall x :: 0 <= x < buf.Length && x != b ==> HeldSame(old(buf[x]), buf[x])
    {
      ghost var s := S();
      b := FindBuffer(dev, block);
      if b != NULL {
        buf[b] := buf[b].(count := buf[b].count + 1);
        CountStep(s, S(), data[..], disk, b);
        return;
      }
      b := GetUnused(dev, block);
    }

    /** The rest of getblk: the first unused buffer is taken for the block. */
    method GetUnused(dev: nat, block: nat) returns (b: int)
      requires Settled() && dev != 0 && !Cached(S(), dev, block)
      modifies this, buf, hash
      ensures Settled() && data[..] == old(data[..])
      ensures SeenAlike(old(S()), S(), data[..], old(disk), disk)
      ensures b == NULL ==> S() == old(S()) && forall x :: 0 <= x < buf.Length ==> buf[x].count != 0
      ensures b != NULL ==> Carries(S(), b, dev, block) && old(buf[b].count) == 0 && buf[b].count == 1
      ensures b != NULL ==> !buf[b].uptodate && !buf[b].dirt && Taken(old(S()), b, order)
      ensures forall x :: 0 <= x < buf.Length && x != b ==> HeldSame(old(buf[x]), buf[x])
    {
      ghost var s := S();
      b := FindFree();
      if b == NULL { return; }
      ghost var i :| 0 <= i < |order| && b == order[i] && FirstUnused(S(), i);
      Reassign(b, dev, block);
      TakenIs(s, b, i);
    }

    /** brelse: the caller gives up its hold.  The precondition excludes "Trying to free free buffer". */
    method Brelse(b: int)
      requires Settled() && 0 <= b < buf.Length && buf[b].count != 0
      modifies buf
      ensures Settled() && SeenAlike(old(S()), S(), data[..], disk, disk)
      ensures buf[..] == old(buf[..])[b := old(buf[b]).(count := old(buf[b].count) - 1)]
    {
      ghost var s := S();
      buf[b] := buf[b].(count := buf[b].count - 1);
      CountStep(s, S(), data[..], disk, b);
    }

    /** bread on a disk without faults: the buffer holds what was last written to the block. */
    method Bread(dev: nat, block: nat) returns (b: int)
      requires Settled() && dev != 0
      modifies this, buf, hash, data
      ensures Settled()
      ensures forall d, k :: d != 0 ==>
        Seen(S(), data[..], disk, d, k) == Seen(old(S()), old(data[..]), old(disk), d, k)
      ensures b != NULL ==> Carries(S(), b, dev, block) && buf[b].uptodate && buf[b].count >= 1
      ensures b != NULL ==> data[b] == Seen(old(S()), old(data[..]), old(disk), dev, block)
      ensures b == NULL ==> forall x :: 0 <= x < buf.Length ==> buf[x].count != 0
      ensures b != NULL ==> buf[b].count == old(buf[b].count) + 1
      ensures forall x :: 0 <= x < buf.Length && x != b ==> HeldSame(old(buf[x]), buf[x])
    {
      ghost var s, d := S(), data[..];
      b := GetBlk(dev, block);
      if b == NULL { return; }
      ghost var s1 := S();
      if !buf[b].uptodate {
        data[b] := if (dev, block) in disk then disk[(dev, block)] else ZeroBlock();
        buf[b] := buf[b].(uptodate := true, dirt := false);
        ReadStep(s1, S(), d, data[..], disk, b);
      }
      SeenIs(s1, d, disk, b);
      assert Seen(s1, d, disk, dev, block) == Seen(s, d, old(disk), dev, block);
    }

    /** The holder of an up-to-date buffer changes its contents and marks it dirty. */
    method Modify(b: int, contents: Block)
      requires Settled() && 0 <= b < buf.Length && buf[b].count != 0 && buf[b].uptodate && Hashed(S(), b)
      modifies buf, data
      ensures Settled()
      ensures Seen(S(), data[..], disk, buf[b].dev, buf[b].block) == contents
      ensures forall d, k :: d != 0 && !(d == buf[b].dev && k == buf[b].block) ==>
        Seen(S(), data[..], disk, d, k) == Seen(old(S()), old(data[..]), disk, d, k)
      ensures buf[..] == old(buf[..])[b := old(buf[b]).(dirt := true)]
    {
      ghost var s, old_data := S(), data[..];
      data[b] := contents;
      buf[b] := buf[b].(dirt := true);
      ModifyStep(s, S(), old_data, data[..], disk, b);
    }

    /** One turn of the sys_sync loop. */
    method Flush(b: int)
      requires Settled() && 0 <= b < buf.Length
      modifies this`disk, buf
      ensures Settled() && SameButDirt(old(buf[..]), buf[..])
      ensures SeenAlike(old(S()), S(), data[..], old(disk), disk)
      ensures !buf[b].dirt && forall x :: 0 <= x < buf.Length && !old(buf[x].dirt) ==> !buf[x].dirt
    {
      if buf[b].dirt {
        ghost var w := S();
        ghost var v := WriteBuffer(b, w);
        PayloadStep(w, buf[..]);
        assert S() == v;
      }
    }

    /** The loop of sys_sync: afterwards the disk holds what every reader sees. */
    method SysSync()
      requires Settled()
      modifies this`disk, buf
      ensures Settled() && SameButDirt(old(buf[..]), buf[..])
      ensures SeenAlike(old(S()), S(), data[..], old(disk), disk)
      ensures forall dev, block :: dev != 0 ==> OnDisk(disk, dev, block) == Seen(S(), data[..], disk, dev, block)
    {
      ghost var s := S();
      var i := 0;
      while i < buf.Length
        invariant 0 <= i <= buf.Length
        invariant Settled() && SameButDirt(old(buf[..]), buf[..])
        invariant SeenAlike(s, S(), data[..], old(disk), disk)
        invariant forall x :: 0 <= x < i ==> !buf[x].dirt
      {
        ghost var w, d := S(), disk;
        Flush(i);
        SeenTrans(s, w, S(), data[..], old(disk), d, disk);
        i := i + 1;
      }
      AllWritten(S(), data[..], disk);
    }

    /** The second half of getblk: an unused buffer leaves the queues, is written out if it has to be,
        and comes back for the new block. */
    method Reassign(b: int, dev: nat, block: nat)
      requires Settled() && dev != 0 && 0 <= b < buf.Length && buf[b].count == 0 && !Cached(S(), dev, block)
      modifies this, buf, hash
      ensures Settled() && data[..] == old(data[..])
      ensures SeenAlike(old(S()), S(), data[..], old(disk), disk)
      ensures Carries(S(), b, dev, block) && buf[b].count == 1 && !buf[b].uptodate && !buf[b].dirt
      ensures order == Drop(old(order), b) + [b]
      ensures forall x :: 0 <= x < buf.Length && x != b ==> HeldSame(old(buf[x]), buf[x])
    {
      ghost var s := S();
      ghost var v := TakeOff(b);
      ghost var d := disk;
      assert forall x :: Carries(v, x, dev, block) ==> Carries(s, x, dev, block);
      PutBack(b, dev, block, v);
      SeenTrans(s, v, S(), data[..], old(disk), d, disk);
    }

    /** remove_from_queues and, for a dirty buffer, sync_dev. */
    method TakeOff(b: int) returns (ghost v: BufferState.State)
      requires Settled() && 0 <= b < buf.Length && buf[b].count == 0
      modifies this, buf, hash
      ensures Valid() && Shadows(v) && v.order == old(order) && !v.buf[b].dirt && order == Drop(old(order), b)
      ensures b !in order && forall x :: 0 <= x < buf.Length && x != b ==> x in order
      ensures forall x :: Hashed(S(), x) <==> Hashed(v, x) && x != b
      ensures SeenAlike(old(S()), v, data[..], old(disk), disk)
      ensures LeftAlone(old(buf[..]), v.buf, buf[..], b)
    {
      ghost var s := S();
      ghost var s1 := Claim(b);
      v := s1;
      if buf[b].dirt {
        v := SyncDev(buf[b].dev, v);
      }
      AfterSync(s1, v, S(), b);
      TakenOff(s, s1, v, S(), b);
      SeenTrans(s, s1, v, data[..], old(disk), old(disk), disk);
    }

    /** The buffer gets a user and leaves the queues: s1 is the state between the two. */
    method Claim(b: int) returns (ghost s1: BufferState.State)
      requires Settled() && 0 <= b < buf.Length && buf[b].count == 0
      modifies this, buf, hash
      ensures s1 == old(S()).(buf := old(buf[..])[b := old(buf[b]).(count := 1)])
      ensures Valid() && disk == old(disk) && Shadows(s1) && BufferState.Inv(s1) && S() == Removed(s1, b)
      ensures SeenAlike(old(S()), s1, data[..], disk, disk)
    {
      CountUp(b);
      s1 := S();
      RemovedStep(s1, b);
      RemoveFromQueues(b);
    }

    /** An unused buffer gets a user. */
    method CountUp(b: int)
      requires Settled() && 0 <= b < buf.Length && buf[b].count == 0
      modifies buf
      ensures S() == old(S()).(buf := old(buf[..])[b := old(buf[b]).(count := 1)])
      ensures Shadows(S()) && BufferState.Inv(S()) && SeenAlike(old(S()), S(), data[..], disk, disk)
    {
      ghost var s := S();
      buf[b] := buf[b].(count := buf[b].count + 1);
      CountStep(s, S(), data[..], disk, b);
    }

    /** The new identity; find_buffer finds nobody who added the block meanwhile; insert_into_queues. */
    method PutBack(b: int, dev: nat, block: nat, ghost v: BufferState.State)
      requires Valid() && Shadows(v) && dev != 0 && 0 <= b < buf.Length && !v.buf[b].dirt && |order| >= 1
      requires b !in order && (forall x :: 0 <= x < buf.Length && x != b ==> x in order)
      requires forall x :: Hashed(S(), x) <==> Hashed(v, x) && x != b
      requires !Cached(v, dev, block) && forall x :: 0 <= x < buf.Length ==> !buf[x].lock
      modifies this, buf, hash
      ensures Settled() && disk == old(disk)
      ensures SeenAlike(v, S(), data[..], disk, disk)
      ensures Carries(S(), b, dev, block) && buf[b].count == old(buf[b].count)
      ensures !buf[b].uptodate && !buf[b].dirt && order == old(order) + [b]
      ensures forall x :: 0 <= x < buf.Length && x != b ==> HeldSame(old(buf[x]), buf[x])
    {
      Relabel(b, dev, block, v);
      ghost var s3 := S();
      var other := FindBuffer(dev, block);
      assert other == NULL;
      InsertedStep(s3, b);
      InsertIntoQueues(b);
      Reassigned(v, s3, S(), data[..], disk, b, dev, block);
    }

    /** The new identity. */
    method Relabel(b: int, dev: nat, block: nat, ghost v: BufferState.State)
      requires Valid() && |v.buf| == buf.Length && SamePayloads(v.buf, buf[..]) && 0 <= b < buf.Length && b !in order
      requires (forall x :: Hashed(S(), x) <==> Hashed(v, x) && x != b) && !Cached(v, dev, block)
      modifies buf
      ensures Valid() && BlockFree(S(), b) && !Cached(S(), dev, block)
      ensures buf[..] == old(buf[..])[b := old(buf[b]).(dev := dev, block := block, dirt := false, uptodate := false)]
      ensures forall x :: Hashed(S(), x) <==> Hashed(v, x) && x != b
      ensures forall x :: 0 <= x < buf.Length && x != b ==> SamePayload(v.buf[x], buf[x])
    {
      ghost var s2 := S();
      buf[b] := buf[b].(dev := dev, block := block, dirt := false, uptodate := false);
      Relabelled(v, s2, S(), b, dev, block);
    }
  }

  /** b was the first unused buffer of the free list, and is the last of it now. */
  ghost predicate Taken(s: BufferState.State, b: int, order: seq<int>) {
    exists i :: 0 <= i < |s.order| && TakenFrom(s, b, order, i)
  }

  ghost predicate TakenFrom(s: BufferState.State, b: int, order: seq<int>, i: int)
    requires 0 <= i < |s.order|
  {
    && Indices(s.order, |s.buf|) && b == s.order[i] && FirstUnused(s, i)
    && order == s.order[..i] + s.order[i + 1..] + [b]
  }

  lemma TakenIs(s: BufferState.State, b: int, i: int)
    requires Distinct(s.order) && Indices(s.order, |s.buf|) && 0 <= i < |s.order|
    requires b == s.order[i] && FirstUnused(s, i)
    ensures Taken(s, b, Drop(s.order, b) + [b])
  {
    assert IndexOf(s.order, b) == i;
    assert TakenFrom(s, b, Drop(s.order, b) + [b], i);
  }

  /** Only the dirty marks may differ. */
  ghost predicate SameButDirt(buf: seq<Head>, buf': seq<Head>) {
    |buf'| == |buf| && forall b :: 0 <= b < |buf| ==> buf'[b] == buf[b].(dirt := buf'[b].dirt)
  }

  /** Position i of the free list is the first with an unused buffer. */
  ghost predicate FirstUnused(s: BufferState.State, i: int)
    requires Indices(s.order, |s.buf|) && 0 <= i < |s.order|
  {
    s.buf[s.order[i]].count == 0 && forall k :: 0 <= k < i ==> s.buf[s.order[k]].count != 0
  }

  /** Every block reads in one state as in the other. */
  ghost predicate SeenAlike(s: BufferState.State, s': BufferState.State, data: seq<Block>, disk: DiskMap,
                            disk': DiskMap)
    requires |data| == |s.buf| == |s'.buf|
  {
    forall dev, block :: dev != 0 ==> Seen(s', data, disk', dev, block) == Seen(s, data, disk, dev, block)
  }

  lemma SeenTrans(s0: BufferState.State, s1: BufferState.State, s2: BufferState.State, data: seq<Block>,
                  d0: DiskMap, d1: DiskMap, d2: DiskMap)
    requires |data| == |s0.buf| == |s1.buf| == |s2.buf|
    requires SeenAlike(s0, s1, data, d0, d1) && SeenAlike(s1, s2, data, d1, d2)
    ensures SeenAlike(s0, s2, data, d0, d2)
  {
    forall dev, block | dev != 0 ensures Seen(s2, data, d2, dev, block) == Seen(s0, data, d0, dev, block) {
      assert Seen(s1, data, d1, dev, block) == Seen(s0, data, d0, dev, block);
    }
  }

  lemma UniqueKept(v: BufferState.State, v': BufferState.State)
    requires Unique(v) && |v'.buf| == |v.buf| && v'.order == v.order
    requires forall x :: 0 <= x < |v.buf| ==> v'.buf[x].dev == v.buf[x].dev && v'.buf[x].block == v.buf[x].block
    ensures Unique(v') && forall x :: Hashed(v', x) <==> Hashed(v, x)
  {
    assert forall x :: Hashed(v', x) <==> Hashed(v, x);
  }

  /** What the holder of a buffer relies on. */
  ghost predicate HeldSame(x: Head, y: Head) {
    y.dev == x.dev && y.block == x.block && y.uptodate == x.uptodate && y.count == x.count
  }

  lemma WrittenSeenAt(s: BufferState.State, s': BufferState.State, data: seq<Block>, disk: DiskMap, disk': DiskMap,
                      b: int, dev: nat, block: nat)
    requires Unique(s) && Unique(s') && |data| == |s.buf| && Coherent(s, data, disk)
    requires 0 <= b < |s.buf| && s.buf[b].dirt
    requires s' == s.(buf := s.buf[b := s.buf[b].(dirt := false)])
    requires disk' == disk[(s.buf[b].dev, s.buf[b].block) := data[b]]
    ensures Seen(s', data, disk', dev, block) == Seen(s, data, disk, dev, block)
  {
    assert Hashed(s, b);
    if c :| Carries(s, c, dev, block) {
      SeenIs(s, data, disk, c);
      assert Carries(s', c, dev, block);
      SeenIs(s', data, disk', c);
    } else {
      assert forall c :: Carries(s', c, dev, block) ==> Carries(s, c, dev, block);
      assert Carries(s, b, s.buf[b].dev, s.buf[b].block);
    }
  }

  lemma WrittenSeen(s: BufferState.State, s': BufferState.State, data: seq<Block>, disk: DiskMap, disk': DiskMap,
                    b: int)
    requires Unique(s) && Unique(s') && |data| == |s.buf| && Coherent(s, data, disk)
    requires 0 <= b < |s.buf| && s.buf[b].dirt
    requires s' == s.(buf := s.buf[b := s.buf[b].(dirt := false)])
    requires disk' == disk[(s.buf[b].dev, s.buf[b].block) := data[b]]
    ensures Coherent(s', data, disk')
    ensures SeenAlike(s, s', data, disk, disk')
  {
    assert Hashed(s, b);
    assert forall x :: Hashed(s', x) <==> Hashed(s, x);
    forall dev, block | dev != 0 ensures Seen(s', data, disk', dev, block) == Seen(s, data, disk, dev, block) {
      WrittenSeenAt(s, s', data, disk, disk', b, dev, block);
    }
  }

  /** Only a count moved. */
  lemma CountStep(s: BufferState.State, s': BufferState.State, data: seq<Block>, disk: DiskMap, b: int)
    requires BufferState.Inv(s) && 0 <= b < |s.buf| == |data| && Coherent(s, data, disk)
    requires |s'.buf| == |s.buf| && s' == s.(buf := s.buf[b := s.buf[b].(count := s'.buf[b].count)])
    ensures BufferState.Inv(s') && Coherent(s', data, disk) && SeenAlike(s, s', data, disk, disk)
    ensures forall x :: Hashed(s', x) <==> Hashed(s, x)
  {
    PayloadStep(s, s'.buf);
    forall dev, block | dev != 0 ensures Seen(s', data, disk, dev, block) == Seen(s, data, disk, dev, block) {
      if c :| Carries(s, c, dev, block) {
        SeenIs(s, data, disk, c);
        SeenIs(s', data, disk, c);
      } else {
        assert forall c :: Carries(s', c, dev, block) ==> Carries(s, c, dev, block);
      }
    }
  }

  /** The lists while a buffer is off them. */
  lemma AfterSync(s1: BufferState.State, v: BufferState.State, s2: BufferState.State, b: int)
    requires BufferState.Inv(s1) && 0 <= b < |s1.buf| && b in s1.order && |s1.order| >= 2
    requires v.order == s1.order && SameButDirt(s1.buf, v.buf) && SamePayloads(v.buf, s2.buf)
    requires SameButDirt(Removed(s1, b).buf, s2.buf) && s2 == Removed(s1, b).(buf := s2.buf)
    ensures BufferState.Inv(s2) && b !in s2.order && (forall x :: x in s2.order <==> x in s1.order && x != b)
    ensures forall x :: Hashed(s2, x) <==> Hashed(v, x) && x != b
  {
    RemovedStep(s1, b);
    PayloadStep(Removed(s1, b), s2.buf);
    assert forall x :: Hashed(v, x) <==> Hashed(s1, x);
  }

  /** Buffer b has one user now; nobody else's buffer changed hands. */
  ghost predicate LeftAlone(was: seq<Head>, v: seq<Head>, buf: seq<Head>, b: int) {
    && |was| == |v| == |buf| && 0 <= b < |buf| && buf[b].count == 1
    && (forall x :: 0 <= x < |buf| ==> v[x].dev == was[x].dev && v[x].block == was[x].block && !buf[x].lock)
    && (forall x :: 0 <= x < |buf| && x != b ==> HeldSame(was[x], buf[x]))
  }

  lemma TakenOff(s: BufferState.State, s1: BufferState.State, v: BufferState.State, s2: BufferState.State, b: int)
    requires 0 <= b < |s.buf| && s1 == s.(buf := s.buf[b := s.buf[b].(count := 1)])
    requires SameButDirt(s1.buf, v.buf) && SamePayloads(v.buf, s2.buf)
    requires forall x :: 0 <= x < |s.buf| ==> !s.buf[x].lock
    ensures LeftAlone(s.buf, v.buf, s2.buf, b)
  {
    forall x | 0 <= x < |s.buf|
      ensures SamePayload(v.buf[x], s2.buf[x]) && v.buf[x] == s1.buf[x].(dirt := v.buf[x].dirt)
    {
    }
  }

  lemma Relabelled(v: BufferState.State, s2: BufferState.State, s3: BufferState.State, b: int, dev: nat, block: nat)
    requires BufferState.Inv(s2) && 0 <= b < |s2.buf| == |v.buf| && b !in s2.order
    requires s3 == s2.(buf := s2.buf[b := s2.buf[b].(dev := dev, block := block, dirt := false, uptodate := false)])
    requires forall x :: Hashed(s2, x) <==> Hashed(v, x) && x != b
    requires SamePayloads(v.buf, s2.buf) && !Cached(v, dev, block)
    ensures BufferState.Inv(s3) && BlockFree(s3, b) && !Cached(s3, dev, block)
    ensures forall x :: Hashed(s3, x) <==> Hashed(v, x) && x != b
    ensures forall x :: 0 <= x < |v.buf| && x != b ==> SamePayload(v.buf[x], s3.buf[x])
  {
    PayloadStep(s2, s3.buf);
    forall x | 0 <= x < |v.buf| && x != b ensures SamePayload(v.buf[x], s3.buf[x]) {
      assert SamePayload(v.buf[x], s2.buf[x]);
    }
    forall x | Hashed(s3, x) ensures !(s3.buf[x].dev == dev && s3.buf[x].block == block) {
      assert SamePayload(v.buf[x], s3.buf[x]);
      assert !Carries(v, x, dev, block);
    }
  }

  /** Buffer b, clean, gave up its block for one that nobody carried. */
  lemma Evicted(v: BufferState.State, s: BufferState.State, data: seq<Block>, disk: DiskMap, b: int, dev: nat,
                block: nat)
    requires Unique(v) && Unique(s) && |data| == |v.buf| == |s.buf| && Coherent(v, data, disk)
    requires !Cached(v, dev, block) && 0 <= b < |s.buf| && !v.buf[b].dirt
    requires Carries(s, b, dev, block) && !s.buf[b].uptodate && !s.buf[b].dirt
    requires forall x :: x != b ==> (Hashed(s, x) <==> Hashed(v, x))
    requires forall x :: 0 <= x < |s.buf| && x != b ==> SamePayload(v.buf[x], s.buf[x])
    ensures SeenAlike(v, s, data, disk, disk) && Coherent(s, data, disk)
  {
    forall d, k | d != 0 ensures Seen(s, data, disk, d, k) == Seen(v, data, disk, d, k) {
      EvictedAt(v, s, data, disk, b, dev, block, d, k);
    }
    forall x | Hashed(s, x) && s.buf[x].uptodate && !s.buf[x].dirt
      ensures data[x] == OnDisk(disk, s.buf[x].dev, s.buf[x].block)
    {
      assert SamePayload(v.buf[x], s.buf[x]);
    }
  }

  lemma Reassigned(v: BufferState.State, s3: BufferState.State, s4: BufferState.State,
                   data: seq<Block>, disk: DiskMap, b: int, dev: nat, block: nat)
    requires |data| == |v.buf| == |s3.buf| == |s4.buf|
    requires Unique(v) && Coherent(v, data, disk) && !Cached(v, dev, block) && 0 <= b < |v.buf| && !v.buf[b].dirt
    requires forall x :: Hashed(s3, x) <==> Hashed(v, x) && x != b
    requires forall x :: 0 <= x < |v.buf| && x != b ==> SamePayload(v.buf[x], s3.buf[x])
    requires Unique(s4) && SamePayloads(s3.buf, s4.buf) && dev != 0
    requires s3.buf[b].dev == dev && s3.buf[b].block == block && !s3.buf[b].uptodate && !s3.buf[b].dirt
    requires forall x :: Hashed(s4, x) <==> Hashed(s3, x) || x == b
    ensures SeenAlike(v, s4, data, disk, disk) && Coherent(s4, data, disk)
  {
    forall x | 0 <= x < |v.buf| && x != b ensures SamePayload(v.buf[x], s4.buf[x]) {
      assert SamePayload(v.buf[x], s3.buf[x]) && SamePayload(s3.buf[x], s4.buf[x]);
    }
    assert SamePayload(s3.buf[b], s4.buf[b]);
    Evicted(v, s4, data, disk, b, dev, block);
  }

  lemma EvictedAt(v: BufferState.State, s: BufferState.State, data: seq<Block>, disk: DiskMap, b: int, dev: nat,
                  block: nat, d: nat, k: nat)
    requires Unique(v) && Unique(s) && |data| == |v.buf| == |s.buf| && Coherent(v, data, disk)
    requires !Cached(v, dev, block) && 0 <= b < |s.buf| && !v.buf[b].dirt
    requires Carries(s, b, dev, block) && !s.buf[b].uptodate
    requires forall x :: x != b ==> (Hashed(s, x) <==> Hashed(v, x))
    requires forall x :: 0 <= x < |s.buf| && x != b ==> SamePayload(v.buf[x], s.buf[x])
    ensures Seen(s, data, disk, d, k) == Seen(v, data, disk, d, k)
  {
    if d == dev && k == block {
      SeenIs(s, data, disk, b);
    } else if c :| Carries(s, c, d, k) {
      assert SamePayload(v.buf[c], s.buf[c]) && Carries(v, c, d, k);
      SeenIs(s, data, disk, c);
      SeenIs(v, data, disk, c);
    } else if c :| Carries(v, c, d, k) {
      assert c != b ==> SamePayload(v.buf[c], s.buf[c]) && Carries(s, c, d, k);
      SeenIs(v, data, disk, c);
    }
  }

  lemma ReadStep(s: BufferState.State, s': BufferState.State, data: seq<Block>, data': seq<Block>, disk: DiskMap,
                 b: int)
    requires BufferState.Inv(s) && |data| == |s.buf| && Coherent(s, data, disk) && Hashed(s, b) && !s.buf[b].uptodate
    requires s' == s.(buf := s.buf[b := s.buf[b].(uptodate := true, dirt := false)])
    requires data' == data[b := OnDisk(disk, s.buf[b].dev, s.buf[b].block)]
    ensures BufferState.Inv(s') && Coherent(s', data', disk)
    ensures forall x :: Hashed(s', x) <==> Hashed(s, x)
    ensures forall d, k :: d != 0 ==> Seen(s', data', disk, d, k) == Seen(s, data, disk, d, k)
  {
    PayloadStep(s, s'.buf);
    forall d, k | d != 0 ensures Seen(s', data', disk, d, k) == Seen(s, data, disk, d, k) {
      SeenElsewhere(s, s', data, data', disk, b, d, k);
    }
  }

  lemma ModifyStep(s: BufferState.State, s': BufferState.State, data: seq<Block>, data': seq<Block>, disk: DiskMap,
                   b: int)
    requires BufferState.Inv(s) && |data| == |s.buf| == |data'|
    requires Coherent(s, data, disk) && Hashed(s, b) && s.buf[b].uptodate
    requires s' == s.(buf := s.buf[b := s.buf[b].(dirt := true)])
    requires data' == data[b := data'[b]]
    ensures BufferState.Inv(s') && Coherent(s', data', disk)
    ensures Seen(s', data', disk, s.buf[b].dev, s.buf[b].block) == data'[b]
    ensures forall d, k :: d != 0 && !(d == s.buf[b].dev && k == s.buf[b].block) ==>
      Seen(s', data', disk, d, k) == Seen(s, data, disk, d, k)
  {
    PayloadStep(s, s'.buf);
    SeenIs(s', data', disk, b);
    forall d, k | d != 0 && !(d == s.buf[b].dev && k == s.buf[b].block)
      ensures Seen(s', data', disk, d, k) == Seen(s, data, disk, d, k)
    {
      SeenElsewhere(s, s', data, data', disk, b, d, k);
    }
  }

  /** Buffers other than b are as they were, so all blocks but that of b read as they did; the block
      of b too, if b now is up to date with the disk. */
  lemma SeenElsewhere(s: BufferState.State, s': BufferState.State, data: seq<Block>, data': seq<Block>, disk: DiskMap,
                      b: int, d: nat, k: nat)
    requires Unique(s) && Unique(s') && |data| == |s.buf| == |data'| == |s'.buf| && Hashed(s, b)
    requires forall x :: Hashed(s', x) <==> Hashed(s, x)
    requires forall x :: 0 <= x < |s.buf| ==> s'.buf[x].dev == s.buf[x].dev && s'.buf[x].block == s.buf[x].block
    requires forall x :: 0 <= x < |s.buf| && x != b ==> s'.buf[x].uptodate == s.buf[x].uptodate && data'[x] == data[x]
    ensures !(d == s.buf[b].dev && k == s.buf[b].block) ==> Seen(s', data', disk, d, k) == Seen(s, data, disk, d, k)
    ensures d == s.buf[b].dev && k == s.buf[b].block && !s.buf[b].uptodate && data'[b] == OnDisk(disk, d, k) ==>
      Seen(s', data', disk, d, k) == Seen(s, data, disk, d, k)
  {
    if c :| Carries(s, c, d, k) {
      SeenIs(s, data, disk, c);
      SeenIs(s', data', disk, c);
    } else {
      assert forall c :: Carries(s', c, d, k) ==> Carries(s, c, d, k);
    }
  }

  lemma AllWritten(s: BufferState.State, data: seq<Block>, disk: DiskMap)
    requires Unique(s) && |data| == |s.buf| && Coherent(s, data, disk)
    requires forall x :: 0 <= x < |s.buf| ==> !s.buf[x].dirt
    ensures forall dev, block :: dev != 0 ==> OnDisk(disk, dev, block) == Seen(s, data, disk, dev, block)
  {
    forall dev, block | dev != 0 ensures OnDisk(disk, dev, block) == Seen(s, data, disk, dev, block) {
      if c :| Carries(s, c, dev, block) {
        SeenIs(s, data, disk, c);
      }
    }
  }
}
