/** The blocks, the zone bitmap and the inodes of one device as a value, and the three-level
    block tree that fs/inode.c reads out of them. */
module FileState {

  const BLOCK_SIZE: nat := 1024
  const NR_ENTRIES: nat := 512           // 16-bit block numbers in an index block
  const MAX_BLOCKS: nat := 262663        // 7 + 512 + 512 * 512

  type Byte = x: int | 0 <= x < 256
  type Block = seq<Byte>

  ghost predicate IsBlock(b: Block) { |b| == BLOCK_SIZE }

  function ZeroBlock(): (b: Block)
    ensures IsBlock(b) && forall i :: 0 <= i < BLOCK_SIZE ==> b[i] == 0
  {
    seq(BLOCK_SIZE, i => 0)
  }

  /** The j-th 16-bit number of a block, low byte first. */
  function Entry(b: Block, j: nat): nat
    requires |b| == BLOCK_SIZE && j < NR_ENTRIES
  {
    (b[2 * j] as int) + 256 * (b[2 * j + 1] as int)
  }

  function SetEntry(b: Block, j: nat, v: nat): Block
    requires |b| == BLOCK_SIZE && j < NR_ENTRIES && v < 65536
  {
    b[2 * j := v % 256][2 * j + 1 := v / 256]
  }

  lemma EntryAfterSet(b: Block, j: nat, v: nat)
    requires IsBlock(b) && j < NR_ENTRIES && v < 65536
    ensures IsBlock(SetEntry(b, j, v))
    ensures forall i :: 0 <= i < NR_ENTRIES ==> Entry(SetEntry(b, j, v), i) == if i == j then v else Entry(b, i)
  {
  }

  /** file: a regular file or a directory; the zones of other inodes are no block numbers. */
  datatype Inode = Inode(file: bool, size: nat, zone: seq<nat>)

  datatype State = State(first: nat, nzones: nat, disk: seq<Block>, inodes: seq<Inode>, used: set<nat>)

  ghost predicate Shape(s: State) {
    && 1 <= s.first <= s.nzones < 65536 && |s.disk| == s.nzones
    && (forall b :: 0 <= b < |s.disk| ==> IsBlock(s.disk[b]))
    && (forall n :: 0 <= n < |s.inodes| ==> |s.inodes[n].zone| == 9)
  }

  /** Where a block number is stored: in the inode, in the indirect block, in the double indirect
      block, or in one of the index blocks below that. */
  datatype Path = Zone(k: nat) | Ind(k: nat) | Dind(j: nat) | Leaf(j: nat, k: nat)

  predicate IsPath(p: Path) {
    match p
    case Zone(k) => k < 9
    case Ind(k) => k < NR_ENTRIES
    case Dind(j) => j < NR_ENTRIES
    case Leaf(j, k) => j < NR_ENTRIES && k < NR_ENTRIES
  }

  predicate HasParent(p: Path) { !p.Zone? }

  function Parent(p: Path): Path
    requires HasParent(p)
  {
    match p
    case Ind(_) => Zone(7)
    case Dind(_) => Zone(8)
    case Leaf(j, _) => Dind(j)
  }

  function Index(p: Path): nat
    requires HasParent(p)
  {
    match p
    case Ind(k) => k
    case Dind(j) => j
    case Leaf(_, k) => k
  }

  ghost predicate Ref(s: State, n: int, p: Path) { 0 <= n < |s.inodes| && s.inodes[n].file && IsPath(p) }

  function Depth(p: Path): nat {
    match p
    case Zone(_) => 0
    case Ind(_) => 1
    case Dind(_) => 1
    case Leaf(_, _) => 2
  }

  /** The block number stored at path p of inode n; 0 where there is none. */
  ghost function At(s: State, n: int, p: Path): nat
    requires Shape(s) && Ref(s, n, p)
    decreases Depth(p)
  {
    if p.Zone? then s.inodes[n].zone[p.k]
    else
      var b := At(s, n, Parent(p));
      if b == 0 || b >= s.nzones then 0 else Entry(s.disk[b], Index(p))
  }

  ghost predicate InRange(s: State, b: nat) { s.first <= b < s.nzones }

  ghost predicate RangeOk(s: State)
    requires Shape(s)
  {
    forall n, p :: Ref(s, n, p) && At(s, n, p) != 0 ==> InRange(s, At(s, n, p))
  }

  /** No block is reached twice, as data or as index, from one inode or from two. */
  ghost predicate NoSharing(s: State)
    requires Shape(s)
  {
    forall n, p, n', p' :: Ref(s, n, p) && Ref(s, n', p') && At(s, n, p) == At(s, n', p') != 0 ==> n == n' && p == p'
  }

  ghost predicate Reachable(s: State, b: nat)
    requires Shape(s)
  {
    exists n, p :: Ref(s, n, p) && At(s, n, p) == b
  }

  /** The bitmap is set exactly for the reachable blocks and for those in `extra`, which new_block
      has handed out and nobody has entered yet. */
  ghost predicate UsedOk(s: State, extra: set<nat>)
    requires Shape(s)
  {
    && (forall b :: b in s.used ==> InRange(s, b))
    && (forall b :: InRange(s, b) ==> (b in s.used <==> Reachable(s, b) || b in extra))
    && (forall b :: b in extra ==> InRange(s, b) && !Reachable(s, b))
  }

  ghost predicate InvWith(s: State, extra: set<nat>) {
    Shape(s) && RangeOk(s) && NoSharing(s) && UsedOk(s, extra)
  }

  ghost predicate Inv(s: State) { InvWith(s, {}) }

  // ---------------------------------------------------------------- contents

  /** The path that _bmap follows to block i of a file. */
  function PathOf(i: nat): (p: Path)
    requires i < MAX_BLOCKS
    ensures IsPath(p)
  {
    if i < 7 then Zone(i)
    else if i < 519 then Ind(i - 7)
    else Leaf((i - 519) / 512, (i - 519) % 512)
  }

  lemma PathsDiffer(i: nat, j: nat)
    requires i < MAX_BLOCKS && j < MAX_BLOCKS && PathOf(i) == PathOf(j)
    ensures i == j
  {
    if i >= 519 {
      assert i - 519 == 512 * ((i - 519) / 512) + (i - 519) % 512;
      assert j - 519 == 512 * ((j - 519) / 512) + (j - 519) % 512;
    }
  }

  ghost function BlockAt(s: State, n: nat, i: nat): nat
    requires Shape(s) && n < |s.inodes| && s.inodes[n].file && i < MAX_BLOCKS
  {
    At(s, n, PathOf(i))
  }

  /** Block i of file n as its reader sees it: a hole is zeros. */
  ghost function Data(s: State, n: nat, i: nat): Block
    requires Shape(s) && n < |s.inodes| && s.inodes[n].file && i < MAX_BLOCKS
  {
    var b := BlockAt(s, n, i);
    if b == 0 || b >= s.nzones then ZeroBlock() else s.disk[b]
  }

  /** The byte at position pos of file n. */
  ghost function ByteAt(s: State, n: nat, pos: nat): Byte
    requires Shape(s) && n < |s.inodes| && s.inodes[n].file && pos < MAX_BLOCKS * BLOCK_SIZE
  {
    assert |Data(s, n, pos / BLOCK_SIZE)| == BLOCK_SIZE;
    Data(s, n, pos / BLOCK_SIZE)[pos % BLOCK_SIZE]
  }
}
