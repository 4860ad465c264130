/** Runs of reads, writes and truncations on one device: what a reader finds at a position is what was
    written there last. */
module FileRuns {
  import opened FileState
  import opened FileSystem

  /** What a user asks for. */
  datatype Call =
    | CallWrite(n: nat, append: bool, pos: nat, buf: seq<Byte>)
    | CallRead(n: nat, pos: nat, count: int)
    | CallTruncate(n: nat)

  /** One completed call: file_write laid `bytes` down at `pos` of file n, file_read found `bytes` there, or
      truncate emptied the file.  Refused: there is no such file, or the position is past the largest one. */
  datatype Op =
    | Write(n: nat, pos: nat, bytes: seq<Byte>)
    | Read(n: nat, pos: nat, bytes: seq<Byte>)
    | Truncate(n: nat)
    | Refused

  ghost predicate IsFile(s: State, n: nat) { n < |s.inodes| && s.inodes[n].file }

  /** The bytes of file n from pos on. */
  ghost predicate Finds(s: State, n: nat, pos: nat, bytes: seq<Byte>)
    requires Shape(s) && IsFile(s, n)
  {
    && pos + |bytes| <= MAX_BLOCKS * BLOCK_SIZE
    && forall i :: 0 <= i < |bytes| ==> bytes[i] == ByteAt(s, n, pos + i)
  }

  ghost predicate Does(s: State, op: Op, s': State)
    requires Shape(s)
  {
    match op
    case Write(n, pos, bytes) => IsFile(s, n) && Written(s, s', n, pos, bytes)
    case Read(n, pos, bytes) => IsFile(s, n) && s' == s && (bytes == [] || Finds(s, n, pos, bytes))
    case Truncate(n) => IsFile(s, n) && Truncated(s, s', n)
    case Refused => s' == s
  }

  /** ss[i + 1] comes from ss[i] by ops[i].  Nothing is said of a step from a state without a shape. */
  ghost predicate IsRun(ss: seq<State>, ops: seq<Op>) {
    && |ss| == |ops| + 1
    && forall i {:trigger ops[i]} :: 0 <= i < |ops| && Shape(ss[i]) ==> Does(ss[i], ops[i], ss[i + 1])
  }

  /** The byte that the calls leave at position q of file n, where `initial` was. */
  function LastByte(ops: seq<Op>, n: nat, q: nat, initial: Byte): Byte {
    if ops == [] then initial
    else
      var op, before := ops[|ops| - 1], LastByte(ops[..|ops| - 1], n, q, initial);
      match op
      case Write(m, pos, bytes) => if m == n && pos <= q < pos + |bytes| then bytes[q - pos] else before
      case Truncate(m) => if m == n then 0 else before
      case Read(_, _, _) => before
      case Refused => before
  }

  /** The size that the calls leave. */
  function LastSize(ops: seq<Op>, n: nat, initial: nat): nat {
    if ops == [] then initial
    else
      var op, before := ops[|ops| - 1], LastSize(ops[..|ops| - 1], n, initial);
      match op
      case Write(m, pos, bytes) => if m == n && bytes != [] then Max(before, pos + |bytes|) else before
      case Truncate(m) => if m == n then 0 else before
      case Read(_, _, _) => before
      case Refused => before
  }

  /** Files are flat byte arrays that do not interfere, through all three levels of the block tree. */
  lemma {:induction false} FilesAreByteArrays(ss: seq<State>, ops: seq<Op>, n: nat, q: nat)
    requires IsRun(ss, ops) && Shape(ss[0]) && IsFile(ss[0], n)
    requires q < MAX_BLOCKS * BLOCK_SIZE
    ensures var s := ss[|ops|];
      && Shape(s) && IsFile(s, n)
      && ByteAt(s, n, q) == LastByte(ops, n, q, ByteAt(ss[0], n, q))
      && s.inodes[n].size == LastSize(ops, n, ss[0].inodes[n].size)
  {
    if ops != [] {
      var k := |ops| - 1;
      Prefix(ss, ops, k);
      FilesAreByteArrays(ss[..k + 1], ops[..k], n, q);
      assert ss[..k + 1][k] == ss[k];
      assert Does(ss[k], ops[k], ss[k + 1]);
      ByteAfter(ss[k], ops[k], ss[k + 1], n, q);
    }
  }

  lemma Prefix(ss: seq<State>, ops: seq<Op>, k: nat)
    requires IsRun(ss, ops) && k <= |ops|
    ensures IsRun(ss[..k + 1], ops[..k])
  {
    assert forall i :: 0 <= i < k ==> ops[..k][i] == ops[i] && ss[..k + 1][i] == ss[i];
  }

  lemma ByteAfter(s: State, op: Op, s': State, n: nat, q: nat)
    requires Shape(s) && Does(s, op, s') && IsFile(s, n) && q < MAX_BLOCKS * BLOCK_SIZE
    ensures Shape(s') && IsFile(s', n)
    ensures ByteAt(s', n, q) == LastByte([op], n, q, ByteAt(s, n, q))
    ensures s'.inodes[n].size == LastSize([op], n, s.inodes[n].size)
  {
    assert LastByte([op][..0], n, q, ByteAt(s, n, q)) == ByteAt(s, n, q);
    assert LastSize([op][..0], n, s.inodes[n].size) == s.inodes[n].size;
    if op.Truncate? {
      BlockBelow(q);
      assert s'.inodes[n].file;
      assert Data(s', n, q / BLOCK_SIZE) == if n == op.n then ZeroBlock() else Data(s, n, q / BLOCK_SIZE);
    }
  }

  /** What was written at a position stays there until it is written over or the file is emptied. */
  lemma {:induction false} WriteLasts(ops: seq<Op>, j: nat, n: nat, q: nat, initial: Byte)
    requires j < |ops| && ops[j].Write? && ops[j].n == n && ops[j].pos <= q < ops[j].pos + |ops[j].bytes|
    requires forall m :: j < m < |ops| ==> ops[m] != Truncate(n)
    requires forall m :: j < m < |ops| && ops[m].Write? && ops[m].n == n ==>
      q < ops[m].pos || q >= ops[m].pos + |ops[m].bytes|
    ensures LastByte(ops, n, q, initial) == ops[j].bytes[q - ops[j].pos]
  {
    if j < |ops| - 1 { WriteLasts(ops[..|ops| - 1], j, n, q, initial); }
  }

  lemma BlockBelow(q: nat)
    requires q < MAX_BLOCKS * BLOCK_SIZE
    ensures q / BLOCK_SIZE < MAX_BLOCKS
  {
  }

  /** In every run every read finds, byte for byte, what was written there last. */
  lemma ReadFindsLastWrite(ss: seq<State>, ops: seq<Op>, k: nat, i: nat)
    requires IsRun(ss, ops) && Shape(ss[0]) && k < |ops| && ops[k].Read? && i < |ops[k].bytes|
    requires IsFile(ss[0], ops[k].n)
    ensures ops[k].pos + i < MAX_BLOCKS * BLOCK_SIZE
    ensures ops[k].bytes[i] == LastByte(ops[..k], ops[k].n, ops[k].pos + i, ByteAt(ss[0], ops[k].n, ops[k].pos + i))
  {
    var op := ops[k];
    Prefix(ss, ops, k);
    assert ss[..k + 1][k] == ss[k] && ss[..k + 1][0] == ss[0];
    FilesAreByteArrays(ss[..k + 1], ops[..k], op.n, 0);
    assert Does(ss[k], op, ss[k + 1]) && Finds(ss[k], op.n, op.pos, op.bytes);
    FilesAreByteArrays(ss[..k + 1], ops[..k], op.n, op.pos + i);
  }

  // ---------------------------------------------------------------- the code

  /** Whether the call stays within the largest file. */
  ghost predicate Possible(s: State, call: Call) {
    && IsFile(s, call.n)
    && match call
       case CallWrite(n, append, pos, buf) =>
         buf == [] || (if append then s.inodes[n].size else pos) + |buf| <= MAX_BLOCKS * BLOCK_SIZE
       case CallRead(n, pos, count) => count <= 0 || pos + count <= MAX_BLOCKS * BLOCK_SIZE
       case CallTruncate(_) => true
  }

  /** What the completed call has to do with the one asked for; a write is cut short only on a full device. */
  ghost predicate Answers(s: State, call: Call, op: Op, s': State) {
    if !Possible(s, call) then op == Refused
    else
      match call
      case CallWrite(n, append, pos, buf) =>
        && op.Write? && op.n == n && op.pos == (if append then s.inodes[n].size else pos)
        && op.bytes <= buf && (op.bytes != buf ==> Full(s'))
      case CallRead(n, pos, count) =>
        op.Read? && op.n == n && op.pos == pos && |op.bytes| == if count <= 0 then 0 else count
      case CallTruncate(n) => op == Truncate(n)
  }

  method Step(d: Device, call: Call) returns (op: Op)
    requires d.Valid()
    modifies d.zmap, d.disk, d.inodes
    ensures d.Valid() && Does(old(d.S()), op, d.S()) && Answers(old(d.S()), call, op, d.S())
  {
    ghost var s := d.S();
    op := Refused;
    if call.n < d.inodes.Length && d.inodes[call.n].file {
      match call
      case CallWrite(n, append, pos, buf) =>
        var p := if append then d.inodes[n].size else pos;
        if buf == [] || p + |buf| <= MAX_BLOCKS * BLOCK_SIZE {
          var r, _ := d.FileWrite(n, append, pos, buf, |buf|);
          op := Write(n, p, buf[..if r == -1 then 0 else r]);
        }
      case CallRead(n, pos, count) =>
        if count <= 0 || pos + count <= MAX_BLOCKS * BLOCK_SIZE {
          var r, _, bytes := d.FileRead(n, pos, count);
          op := Read(n, pos, bytes);
        }
      case CallTruncate(n) =>
        d.Truncate(n);
        op := Truncate(n);
    }
  }

  /** Any list of calls, reads included, is a run of byte arrays. */
  method Run(d: Device, calls: seq<Call>) returns (ops: seq<Op>, ghost ss: seq<State>)
    requires d.Valid()
    modifies d.zmap, d.disk, d.inodes
    ensures d.Valid() && |ops| == |calls| && IsRun(ss, ops) && ss[0] == old(d.S()) && ss[|ops|] == d.S()
    ensures forall i :: 0 <= i < |ops| ==> Answers(ss[i], calls[i], ops[i], ss[i + 1])
  {
    ops, ss := [], [d.S()];
    var i := 0;
    while i < |calls|
      invariant 0 <= i <= |calls| && |ops| == i && d.Valid()
      invariant IsRun(ss, ops) && ss[0] == old(d.S()) && ss[i] == d.S()
      invariant forall k :: 0 <= k < i ==> Answers(ss[k], calls[k], ops[k], ss[k + 1])
    {
      var op := Step(d, calls[i]);
      RunExtends(ss, ops, op, d.S());
      ops, ss := ops + [op], ss + [d.S()];
      i := i + 1;
    }
  }

  lemma RunExtends(ss: seq<State>, ops: seq<Op>, op: Op, s': State)
    requires IsRun(ss, ops) && Shape(ss[|ops|]) && Does(ss[|ops|], op, s')
    ensures IsRun(ss + [s'], ops + [op])
  {
    forall i | 0 <= i < |ops + [op]| && Shape((ss + [s'])[i])
      ensures Does((ss + [s'])[i], (ops + [op])[i], (ss + [s'])[i + 1])
    {
      if i < |ops| { assert Does(ss[i], ops[i], ss[i + 1]); }
    }
  }
}
