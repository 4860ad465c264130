/** Runs of reads, changes and syncs on the buffer cache, one call at a time: a reader finds what was
    written to the block last, whatever was evicted, written out and read back in between. */
module BufferRuns {
  import opened BufferCache
  import opened BufferState
  import opened FileState

  datatype Call =
    | CallRead(dev: nat, block: nat)
    | CallWrite(dev: nat, block: nat, contents: Block)
    | CallSync

  /** A completed call, a read with what it found. */
  datatype Op =
    | Read(dev: nat, block: nat, contents: Block)
    | Write(dev: nat, block: nat, contents: Block)
    | Sync

  /** What the calls leave in a block that held `initial`. */
  function LastContents(ops: seq<Op>, dev: nat, block: nat, initial: Block): Block {
    if ops == [] then initial
    else
      var op, before := ops[|ops| - 1], LastContents(ops[..|ops| - 1], dev, block, initial);
      if op.Write? && op.dev == dev && op.block == block then op.contents else before
  }

  /** What was written to a block stays there until it is written to again. */
  lemma {:induction false} WriteLasts(ops: seq<Op>, j: nat, dev: nat, block: nat, contents: Block, initial: Block)
    requires j < |ops| && ops[j] == Write(dev, block, contents)
    requires forall m :: j < m < |ops| && ops[m].Write? ==> ops[m].dev != dev || ops[m].block != block
    ensures LastContents(ops, dev, block, initial) == contents
  {
    if j < |ops| - 1 { WriteLasts(ops[..|ops| - 1], j, dev, block, contents, initial); }
  }

  predicate Answers(call: Call, op: Op) {
    match call
    case CallRead(dev, block) => op.Read? && op.dev == dev && op.block == block
    case CallWrite(dev, block, contents) => op == Write(dev, block, contents)
    case CallSync => op == Sync
  }

  /** Every read of the list finds what was written to its block last. */
  ghost predicate ReadsBack(ops: seq<Op>, s: BufferState.State, data: seq<Block>, disk: DiskMap)
    requires |data| == |s.buf|
  {
    forall i :: 0 <= i < |ops| && ops[i].Read? ==>
      var dev, block := ops[i].dev, ops[i].block;
      ops[i].contents == LastContents(ops[..i], dev, block, Seen(s, data, disk, dev, block))
  }

  predicate OnDevice(call: Call) { call.CallSync? || call.dev != 0 }

  ghost predicate SameCounts(a: seq<Head>, b: seq<Head>) {
    |a| == |b| && forall x :: 0 <= x < |a| ==> b[x].count == a[x].count
  }

  /** Some buffer is not in use, so getblk never has to sleep. */
  ghost predicate OneUnused(buf: seq<Head>) { exists x :: 0 <= x < |buf| && buf[x].count == 0 }

  /** Every block reads as the call leaves it. */
  ghost predicate After(op: Op, s: BufferState.State, data: seq<Block>, disk: DiskMap,
                        s': BufferState.State, data': seq<Block>, disk': DiskMap)
    requires |data| == |s.buf| && |data'| == |s'.buf|
  {
    forall d, k :: d != 0 ==>
      Seen(s', data', disk', d, k) == LastContents([op], d, k, Seen(s, data, disk, d, k))
  }

  lemma LastOne(op: Op, dev: nat, block: nat, initial: Block)
    ensures LastContents([op], dev, block, initial)
         == if op.Write? && op.dev == dev && op.block == block then op.contents else initial
  {
    assert [op][..0] == [];
  }

  ghost predicate Alike(s: BufferState.State, data: seq<Block>, disk: DiskMap,
                        s': BufferState.State, data': seq<Block>, disk': DiskMap)
    requires |data| == |s.buf| && |data'| == |s'.buf|
  {
    forall d, k :: d != 0 ==> Seen(s', data', disk', d, k) == Seen(s, data, disk, d, k)
  }

  lemma Unwritten(op: Op, s: BufferState.State, data: seq<Block>, disk: DiskMap,
                  s1: BufferState.State, data1: seq<Block>, disk1: DiskMap,
                  s2: BufferState.State, data2: seq<Block>, disk2: DiskMap)
    requires |data| == |s.buf| && |data1| == |s1.buf| && |data2| == |s2.buf| && !op.Write?
    requires Alike(s, data, disk, s1, data1, disk1) && Alike(s1, data1, disk1, s2, data2, disk2)
    ensures After(op, s, data, disk, s2, data2, disk2)
  {
    forall d, k | d != 0 ensures Seen(s2, data2, disk2, d, k) == LastContents([op], d, k, Seen(s, data, disk, d, k)) {
      LastOne(op, d, k, Seen(s, data, disk, d, k));
      assert Seen(s1, data1, disk1, d, k) == Seen(s, data, disk, d, k);
    }
  }

  /** bread where some buffer is not in use. */
  method Fetch(c: Cache, dev: nat, block: nat) returns (b: int)
    requires c.Settled() && dev != 0 && OneUnused(c.buf[..])
    modifies c, c.buf, c.hash, c.data
    ensures c.Settled() && 0 <= b < c.buf.Length && Carries(c.S(), b, dev, block) && c.buf[b].uptodate
    ensures Alike(old(c.S()), old(c.data[..]), old(c.disk), c.S(), c.data[..], c.disk)
    ensures c.data[b] == Seen(old(c.S()), old(c.data[..]), old(c.disk), dev, block)
    ensures c.buf[b].count == old(c.buf[b].count) + 1
    ensures forall x :: 0 <= x < c.buf.Length && x != b ==> c.buf[x].count == old(c.buf[x].count)
  {
    ghost var x :| 0 <= x < c.buf.Length && c.buf[x].count == 0;
    ghost var h := c.buf[x];
    b := c.Bread(dev, block);
    assert x != b ==> HeldSame(h, c.buf[x]);
  }

  /** brelse after it. */
  method Drop(c: Cache, b: int, ghost buf: seq<Head>)
    requires c.Settled() && 0 <= b < c.buf.Length == |buf| && c.buf[b].count == buf[b].count + 1
    requires forall x :: 0 <= x < c.buf.Length && x != b ==> c.buf[x].count == buf[x].count
    modifies c.buf
    ensures c.Settled() && SameCounts(buf, c.buf[..])
    ensures Alike(old(c.S()), c.data[..], c.disk, c.S(), c.data[..], c.disk)
  {
    c.Brelse(b);
  }

  /** bread, a look at the contents, brelse. */
  method ReadBlock(c: Cache, dev: nat, block: nat) returns (op: Op)
    requires c.Settled() && dev != 0 && OneUnused(c.buf[..])
    modifies c, c.buf, c.hash, c.data
    ensures c.Settled() && SameCounts(old(c.buf[..]), c.buf[..])
    ensures op == Read(dev, block, Seen(old(c.S()), old(c.data[..]), old(c.disk), dev, block))
    ensures After(op, old(c.S()), old(c.data[..]), old(c.disk), c.S(), c.data[..], c.disk)
  {
    var b := Fetch(c, dev, block);
    ghost var s1, d1, k1 := c.S(), c.data[..], c.disk;
    op := Read(dev, block, c.data[b]);
    Drop(c, b, old(c.buf[..]));
    Unwritten(op, old(c.S()), old(c.data[..]), old(c.disk), s1, d1, k1, c.S(), c.data[..], c.disk);
  }

  /** bread, a change of the contents, brelse. */
  method WriteBlock(c: Cache, dev: nat, block: nat, contents: Block) returns (op: Op)
    requires c.Settled() && dev != 0 && OneUnused(c.buf[..])
    modifies c, c.buf, c.hash, c.data
    ensures c.Settled() && SameCounts(old(c.buf[..]), c.buf[..]) && op == Write(dev, block, contents)
    ensures After(op, old(c.S()), old(c.data[..]), old(c.disk), c.S(), c.data[..], c.disk)
  {
    var b := Fetch(c, dev, block);
    ghost var s1, d1, k1 := c.S(), c.data[..], c.disk;
    c.Modify(b, contents);
    ghost var s2, d2 := c.S(), c.data[..];
    op := Write(dev, block, contents);
    Drop(c, b, old(c.buf[..]));
    Overwritten(op, old(c.S()), old(c.data[..]), old(c.disk), s1, d1, k1, s2, d2, c.S(), c.data[..]);
  }

  lemma Overwritten(op: Op, s: BufferState.State, data: seq<Block>, disk: DiskMap,
                    s1: BufferState.State, data1: seq<Block>, disk1: DiskMap,
                    s2: BufferState.State, data2: seq<Block>, s3: BufferState.State, data3: seq<Block>)
    requires |data| == |s.buf| && |data1| == |s1.buf| && |data2| == |s2.buf| && |data3| == |s3.buf| && op.Write?
    requires Alike(s, data, disk, s1, data1, disk1) && Alike(s2, data2, disk1, s3, data3, disk1) && op.dev != 0
    requires Seen(s2, data2, disk1, op.dev, op.block) == op.contents
    requires forall d, k :: d != 0 && !(d == op.dev && k == op.block) ==>
      Seen(s2, data2, disk1, d, k) == Seen(s1, data1, disk1, d, k)
    ensures After(op, s, data, disk, s3, data3, disk1)
  {
    forall d, k | d != 0 ensures Seen(s3, data3, disk1, d, k) == LastContents([op], d, k, Seen(s, data, disk, d, k)) {
      LastOne(op, d, k, Seen(s, data, disk, d, k));
      assert Seen(s3, data3, disk1, d, k) == Seen(s2, data2, disk1, d, k);
      assert Seen(s1, data1, disk1, d, k) == Seen(s, data, disk, d, k);
    }
  }

  method SyncAll(c: Cache) returns (op: Op)
    requires c.Settled()
    modifies c, c.buf
    ensures c.Settled() && SameCounts(old(c.buf[..]), c.buf[..]) && op == Sync && c.data[..] == old(c.data[..])
    ensures After(op, old(c.S()), old(c.data[..]), old(c.disk), c.S(), c.data[..], c.disk)
    ensures forall d, k :: d != 0 ==> OnDisk(c.disk, d, k) == Seen(c.S(), c.data[..], c.disk, d, k)
  {
    ghost var s, k := c.S(), c.disk;
    c.SysSync();
    op := Sync;
    Unwritten(op, s, c.data[..], k, s, c.data[..], k, c.S(), c.data[..], c.disk);
  }

  method Step(c: Cache, call: Call) returns (op: Op)
    requires c.Settled() && OnDevice(call) && OneUnused(c.buf[..])
    modifies c, c.buf, c.hash, c.data
    ensures c.Settled() && SameCounts(old(c.buf[..]), c.buf[..]) && Answers(call, op)
    ensures op.Read? ==> op.contents == Seen(old(c.S()), old(c.data[..]), old(c.disk), op.dev, op.block)
    ensures After(op, old(c.S()), old(c.data[..]), old(c.disk), c.S(), c.data[..], c.disk)
    ensures op.Sync? ==> forall d, k :: d != 0 ==> OnDisk(c.disk, d, k) == Seen(c.S(), c.data[..], c.disk, d, k)
  {
    match call
    case CallRead(dev, block) => op := ReadBlock(c, dev, block);
    case CallWrite(dev, block, contents) => op := WriteBlock(c, dev, block, contents);
    case CallSync => op := SyncAll(c);
  }

  /** Where a run from s0 has got to: the reads so far were right, and every block reads as the list leaves it. */
  ghost predicate Follows(ops: seq<Op>, s0: BufferState.State, data0: seq<Block>, disk0: DiskMap,
                          s: BufferState.State, data: seq<Block>, disk: DiskMap)
    requires |data0| == |s0.buf| && |data| == |s.buf|
  {
    && ReadsBack(ops, s0, data0, disk0)
    && forall d, k :: d != 0 ==> Seen(s, data, disk, d, k) == LastContents(ops, d, k, Seen(s0, data0, disk0, d, k))
  }

  lemma FollowsOn(ops: seq<Op>, op: Op, s0: BufferState.State, data0: seq<Block>, disk0: DiskMap,
                  s: BufferState.State, data: seq<Block>, disk: DiskMap,
                  s': BufferState.State, data': seq<Block>, disk': DiskMap)
    requires |data0| == |s0.buf| && |data| == |s.buf| && |data'| == |s'.buf|
    requires Follows(ops, s0, data0, disk0, s, data, disk) && After(op, s, data, disk, s', data', disk')
    requires op.Read? ==> op.dev != 0 && op.contents == Seen(s, data, disk, op.dev, op.block)
    ensures Follows(ops + [op], s0, data0, disk0, s', data', disk')
  {
    var ops' := ops + [op];
    assert ops'[..|ops|] == ops;
    forall d, k | d != 0
      ensures Seen(s', data', disk', d, k) == LastContents(ops', d, k, Seen(s0, data0, disk0, d, k))
    {
      LastOne(op, d, k, Seen(s, data, disk, d, k));
    }
    assert forall i :: 0 <= i < |ops| ==> ops'[i] == ops[i] && ops'[..i] == ops[..i];
  }

  /** After a sync the disk has what readers see. */
  ghost predicate SyncedLast(ops: seq<Op>, s: BufferState.State, data: seq<Block>, disk: DiskMap)
    requires |data| == |s.buf|
  {
    ops != [] && ops[|ops| - 1].Sync? ==> forall d, k :: d != 0 ==> OnDisk(disk, d, k) == Seen(s, data, disk, d, k)
  }

  /** Any list of reads, writes and syncs, also with fewer buffers than blocks: the cache is transparent,
      and a final sync leaves everything on the disk. */
  method Run(c: Cache, calls: seq<Call>) returns (ops: seq<Op>)
    requires c.Settled() && OneUnused(c.buf[..]) && forall i :: 0 <= i < |calls| ==> OnDevice(calls[i])
    modifies c, c.buf, c.hash, c.data
    ensures c.Settled() && SameCounts(old(c.buf[..]), c.buf[..]) && |ops| == |calls|
    ensures forall i :: 0 <= i < |ops| ==> Answers(calls[i], ops[i])
    ensures Follows(ops, old(c.S()), old(c.data[..]), old(c.disk), c.S(), c.data[..], c.disk)
    ensures SyncedLast(ops, c.S(), c.data[..], c.disk)
  {
    ghost var s0, d0, k0 := c.S(), c.data[..], c.disk;
    ops := [];
    var i := 0;
    while i < |calls|
      invariant 0 <= i <= |calls| && c.Settled() && SameCounts(old(c.buf[..]), c.buf[..])
      invariant Ran(calls, i, ops, s0, d0, k0, c.S(), c.data[..], c.disk)
    {
      ghost var s1, d1, k1 := c.S(), c.data[..], c.disk;
      var op := Step(c, calls[i]);
      RanOn(calls, i, ops, op, s0, d0, k0, s1, d1, k1, c.S(), c.data[..], c.disk);
      ops := ops + [op];
      i := i + 1;
    }
  }

  /** Where Run is after i calls. */
  ghost predicate Ran(calls: seq<Call>, i: nat, ops: seq<Op>, s0: BufferState.State, data0: seq<Block>, disk0: DiskMap,
                      s: BufferState.State, data: seq<Block>, disk: DiskMap)
    requires i <= |calls| && |data0| == |s0.buf| && |data| == |s.buf|
  {
    && |ops| == i && (forall k :: 0 <= k < i ==> Answers(calls[k], ops[k]))
    && Follows(ops, s0, data0, disk0, s, data, disk) && SyncedLast(ops, s, data, disk)
  }

  lemma RanOn(calls: seq<Call>, i: nat, ops: seq<Op>, op: Op, s0: BufferState.State, data0: seq<Block>, disk0: DiskMap,
              s: BufferState.State, data: seq<Block>, disk: DiskMap,
              s': BufferState.State, data': seq<Block>, disk': DiskMap)
    requires i < |calls| && |data0| == |s0.buf| && |data| == |s.buf| && |data'| == |s'.buf|
    requires Ran(calls, i, ops, s0, data0, disk0, s, data, disk) && Answers(calls[i], op)
    requires After(op, s, data, disk, s', data', disk')
    requires op.Read? ==> op.dev != 0 && op.contents == Seen(s, data, disk, op.dev, op.block)
    requires SyncedLast([op], s', data', disk')
    ensures Ran(calls, i + 1, ops + [op], s0, data0, disk0, s', data', disk')
  {
    FollowsOn(ops, op, s0, data0, disk0, s, data, disk, s', data', disk');
  }
}
