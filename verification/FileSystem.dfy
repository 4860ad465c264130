/** fs/bitmap.c, fs/inode.c (_bmap), fs/truncate.c and fs/file_dev.c over one device.  bread
    returns the data of a block, as the buffer cache promises; every inode of the device is in
    memory. */
module FileSystem {
  import opened FileState
  import opened FileSteps

  const BITS: nat := 8192      // bits in a bitmap block
  const Z_MAP_SLOTS: nat := 8
  const NO_ZONES: seq<nat> := [0, 0, 0, 0, 0, 0, 0, 0, 0]

  /** Bit n of the zone bitmap: bit n % 8192 of block n / 8192 of the map. */
  predicate Bit(zmap: seq<seq<bool>>, n: nat) {
    n / BITS < |zmap| && n % BITS < |zmap[n / BITS]| && zmap[n / BITS][n % BITS]
  }

  ghost predicate ZoneBit(zmap: seq<seq<bool>>, first: nat, b: nat)
    requires 1 <= first <= b
  {
    Bit(zmap, b - first + 1)
  }

  /** Only bit 0 is set, which stands for no zone. */
  /** Bit 0 is set, and no other. */
  ghost predicate OnlyBitZero(zmap: seq<seq<bool>>) {
    forall i, j :: 0 <= i < |zmap| ==> |zmap[i]| == BITS && (0 <= j < BITS ==> (zmap[i][j] <==> i == 0 && j == 0))
  }

  lemma NoBits(zmap: seq<seq<bool>>, first: nat, nzones: nat)
    requires 1 <= first && |zmap| == Z_MAP_SLOTS && nzones - first < BITS * Z_MAP_SLOTS && OnlyBitZero(zmap)
    ensures forall b :: first <= b < nzones ==> !ZoneBit(zmap, first, b)
  {
  }

  /** Bit n of the bitmap has become v, and that is all that changed in it. */
  ghost predicate BitChanged(zmap: seq<seq<bool>>, zmap': seq<seq<bool>>, n: int, v: bool) {
    && 0 <= n / 8192 < |zmap| == |zmap'| && |zmap[n / 8192]| == 8192 && zmap[n / 8192][n % 8192] == !v
    && zmap' == zmap[n / 8192 := zmap[n / 8192][n % 8192 := v]]
  }

  /** The data zones whose bits are set; bit n stands for zone n + first - 1. */
  ghost function UsedZones(zmap: seq<seq<bool>>, first: nat, nzones: nat): set<nat>
    requires first >= 1
  {
    set b | first <= b < nzones && ZoneBit(zmap, first, b)
  }

  /** `notl; bsfl`: the lowest zero of a word, its length when there is none. */
  function LowestZero(word: seq<bool>): (k: nat)
    ensures k <= |word| && (forall i :: 0 <= i < k ==> word[i]) && (k < |word| ==> !word[k])
  {
    if word == [] || !word[0] then 0 else 1 + LowestZero(word[1..])
  }

  method FindFirstZero(bits: seq<bool>) returns (r: nat)
    requires |bits| == BITS
    ensures r <= BITS && (forall k :: 0 <= k < r ==> bits[k]) && (r < BITS ==> !bits[r])
  {
    r := 0;
    while r < BITS
      invariant r <= BITS && r % 32 == 0
      invariant forall k :: 0 <= k < r ==> bits[k]
    {
      var word := bits[r..r + 32];
      var k := LowestZero(word);
      assert forall i :: r <= i < r + k ==> bits[i] == word[i - r];
      if k < 32 {
        return r + k;
      }
      r := r + 32;
    }
  }

  ghost predicate Full(s: State) {
    forall b :: InRange(s, b) ==> b in s.used
  }

  /** Block numbers are only added, and only to inode n. */
  ghost predicate Grows(s: State, s': State, n: nat)
    requires Shape(s) && Shape(s')
  {
    && s'.nzones == s.nzones && s'.first == s.first && |s'.inodes| == |s.inodes|
    && (forall n', p :: Ref(s', n', p) <==> Ref(s, n', p))
    && (forall n', p :: Ref(s, n', p) && Ref(s', n', p) && (n' != n || At(s, n', p) != 0) ==>
          At(s', n', p) == At(s, n', p))
  }

  lemma GrowsTrans(s0: State, s: State, s': State, n: nat)
    requires Shape(s0) && Shape(s) && Shape(s') && Grows(s0, s, n) && Grows(s, s', n)
    ensures Grows(s0, s', n)
  {
    forall n', p | Ref(s0, n', p) && (n' != n || At(s0, n', p) != 0) ensures At(s', n', p) == At(s0, n', p) {
      assert Ref(s, n', p) && At(s, n', p) == At(s0, n', p);
    }
  }

  /** With no bit set but bit 0 and no zone in any inode the accounting holds: nothing is used and all is empty. */
  lemma EmptyDevice(zmap: seq<seq<bool>>, disk: seq<Block>, inodes: seq<Inode>, first: nat, nzones: nat)
    requires 1 <= first <= nzones < 65536 && |zmap| == Z_MAP_SLOTS && nzones - first < BITS * Z_MAP_SLOTS
    requires OnlyBitZero(zmap) && |disk| == nzones && forall b :: 0 <= b < nzones ==> IsBlock(disk[b])
    requires forall n :: 0 <= n < |inodes| ==> inodes[n] == Inode(true, 0, NO_ZONES)
    ensures var s := State(first, nzones, disk, inodes, UsedZones(zmap, first, nzones));
      InvWith(s, {}) && forall b :: b !in s.used
  {
    NoBits(zmap, first, nzones);
    var s := State(first, nzones, disk, inodes, UsedZones(zmap, first, nzones));
    assert Shape(s) && s.used == {};
    forall n, p | Ref(s, n, p) ensures At(s, n, p) == 0 {
      EmptyTree(s, n, p);
    }
  }

  /** The j-th number listed in index block b: its bytes 2j and 2j + 1, low byte first; 0 where there is no
      such block. */
  ghost function Listed(disk: seq<Block>, b: nat, j: int): nat {
    if b == 0 || b >= |disk| || j < 0 || 2 * j + 1 >= |disk[b]| then 0
    else (disk[b][2 * j] as int) + 256 * (disk[b][2 * j + 1] as int)
  }

  /** The block tree in the fields of the inode and the bytes of its index blocks. */
  lemma BlockIs(s: State, n: nat, i: nat)
    requires Shape(s) && n < |s.inodes| && s.inodes[n].file && i < 262663
    ensures i < 7 ==> BlockAt(s, n, i) == s.inodes[n].zone[i]
    ensures 7 <= i < 519 ==> BlockAt(s, n, i) == Listed(s.disk, s.inodes[n].zone[7], i - 7)
    ensures 519 <= i ==>
      BlockAt(s, n, i) == Listed(s.disk, Listed(s.disk, s.inodes[n].zone[8], (i - 519) / 512), (i - 519) % 512)
  {
    if i >= 519 {
      var j, k := (i - 519) / 512, (i - 519) % 512;
      assert Parent(Leaf(j, k)) == Dind(j) && Parent(Dind(j)) == Zone(8);
      assert At(s, n, Dind(j)) == Listed(s.disk, s.inodes[n].zone[8], j);
    }
  }

  /** The byte at position pos, in the bytes of the disk: byte pos % 1024 of block pos / 1024, zero in a hole. */
  lemma ByteIs(s: State, n: nat, pos: nat)
    requires Shape(s) && RangeOk(s) && n < |s.inodes| && s.inodes[n].file && pos < 268966912
    ensures var b := BlockAt(s, n, pos / 1024);
      b < |s.disk| && ByteAt(s, n, pos) == if b == 0 then 0 else s.disk[b][pos % 1024]
  {
    var i := pos / 1024;
    assert Ref(s, n, PathOf(i)) && IsBlock(s.disk[0]);
    assert At(s, n, PathOf(i)) != 0 ==> InRange(s, At(s, n, PathOf(i)));
    assert BlockAt(s, n, i) != 0 ==> IsBlock(s.disk[BlockAt(s, n, i)]);
  }

  lemma OneByteMore(d: Block, p: nat, k: nat)
    requires p + k < |d|
    ensures d[p..p + k + 1] == d[p..p + k] + [d[p + k]]
  {
  }

  class Device {
    const first: nat              // s_firstdatazone
    const nzones: nat             // s_nzones
    const maps: nat               // bitmap blocks that are present
    const zmap: array<seq<bool>>
    const disk: array<Block>
    const inodes: array<Inode>

    ghost function S(): State
      requires first >= 1
      reads zmap, disk, inodes
    {
      State(first, nzones, disk[..], inodes[..], UsedZones(zmap[..], first, nzones))
    }

    ghost predicate Geometry()
      reads zmap
    {
      && 1 <= first <= nzones < 65536 && 1 <= maps <= Z_MAP_SLOTS && zmap.Length == Z_MAP_SLOTS
      && (forall i :: 0 <= i < maps ==> |zmap[i]| == BITS)
      && nzones - first < BITS * maps
      && zmap[0][0]
    }

    ghost predicate ValidWith(extra: set<nat>)
      reads zmap, disk, inodes
    {
      Geometry() && InvWith(S(), extra)
    }

    ghost predicate Valid()
      reads zmap, disk, inodes
    {
      ValidWith({})
    }

    /** A device with `files` empty files and no zone in use; bit 0 stands for no zone and is set. */
    constructor (first: nat, nzones: nat, files: nat)
      requires 1 <= first <= nzones < 65536 && nzones - first < BITS * Z_MAP_SLOTS
      ensures Valid() && this.first == first && this.nzones == nzones && inodes.Length == files
      ensures forall b :: InRange(S(), b) ==> b !in S().used
      ensures forall n :: 0 <= n < files ==> inodes[n].file && inodes[n].size == 0
    {
      this.first, this.nzones, maps := first, nzones, Z_MAP_SLOTS;
      zmap := new seq<bool>[Z_MAP_SLOTS](i requires 0 <= i => seq(BITS, j => i == 0 && j == 0));
      disk := new Block[nzones](_ => ZeroBlock());
      inodes := new Inode[files](_ => Inode(true, 0, NO_ZONES));
      new;
      EmptyDevice(zmap[..], disk[..], inodes[..], first, nzones);
    }

    /** Sets the first zero bit and hands out its zone, cleared; 0 exactly when no zone is free.
        A bit past the last zone may be set on the way, which stands for no zone. */
    method NewBlock() returns (b: nat)
      requires Valid()
      modifies zmap, disk
      ensures b == 0 <==> Full(old(S()))
      ensures b == 0 ==> S() == old(S()) && Valid()
      ensures b != 0 ==> InRange(old(S()), b) && b !in old(S()).used && forall c :: first <= c < b ==>
        c in old(S()).used
      ensures b != 0 ==> S() == Alloc(old(S()), b) && ValidWith({b})
      ensures b != 0 ==> BitChanged(old(zmap[..]), zmap[..], b - first + 1, true)
      ensures b != 0 ==> forall k :: 0 <= k < 1024 ==> disk[b][k] == 0
    {
      ghost var s0 := S();
      ghost var z0 := zmap[..];
      var i, j := FirstZero();
      if i >= Z_MAP_SLOTS || j >= BITS {
        assert Full(s0);
        return 0;
      }
      zmap[i] := zmap[i][j := true];
      var n := j + i * BITS;
      BitSet(z0, zmap[..], i, j);
      b := n + first - 1;
      UsedAfterSet(z0, zmap[..], first, nzones, n);
      if b >= nzones {
        assert Full(s0);
        return 0;
      }
      AllocStep(s0, {}, b);
      disk[b] := ZeroBlock();
      assert S() == Alloc(s0, b);
      assert {} + {b} == {b};
    }

    /** The search of new_block: bit j of bitmap block i is the first that is clear; else i is past the blocks or j
        past the bits, and every bit is set. */
    method FirstZero() returns (i: nat, j: nat)
      requires Geometry()
      ensures i < Z_MAP_SLOTS && j < BITS ==> i < maps && !zmap[i][j]
      ensures i < Z_MAP_SLOTS && j < BITS ==>
        !Bit(zmap[..], j + i * BITS) && forall n: nat :: n < j + i * BITS ==> Bit(zmap[..], n)
      ensures !(i < Z_MAP_SLOTS && j < BITS) ==> forall n: nat :: n < BITS * maps ==> Bit(zmap[..], n)
    {
      i, j := 0, BITS;
      while i < Z_MAP_SLOTS
        invariant 0 <= i <= Z_MAP_SLOTS
        invariant forall n: nat :: n < BITS * (if i < maps then i else maps) ==> Bit(zmap[..], n)
      {
        if i < maps {
          j := FindFirstZero(zmap[i]);
          if j < BITS {
            FirstZeroBit(zmap[..], i, j);
            return;
          }
          RowFull(zmap[..], i);
        }
        i := i + 1;
      }
    }

    /** Clears the bit of a zone.  The precondition excludes the panics "not in datazone" and
        "bit already cleared". */
    method FreeBlock(block: nat)
      requires Geometry() && first <= block < nzones && block in UsedZones(zmap[..], first, nzones)
      modifies zmap
      ensures Geometry()
      ensures UsedZones(zmap[..], first, nzones) == UsedZones(old(zmap[..]), first, nzones) - {block}
      ensures BitChanged(old(zmap[..]), zmap[..], block - first + 1, false)
    {
      ghost var z0 := zmap[..];
      var n := block - (first - 1);
      zmap[n / 8192] := zmap[n / 8192][n % 8192 := false];
      UsedAfterClear(z0, zmap[..], first, nzones, n);
    }

    /** What is stored in zone k of the inode; with `create`, a new block if there is none. */
    method EnterZone(n: nat, k: nat, create: bool) returns (z: nat)
      requires Valid() && n < inodes.Length && inodes[n].file && k < 9
      modifies zmap, disk, inodes
      ensures Valid() && SameContents(old(S()), S()) && Grows(old(S()), S(), n)
      ensures z == At(S(), n, Zone(k))
      ensures !create || At(old(S()), n, Zone(k)) != 0 ==> S() == old(S())
      ensures create && z == 0 ==> Full(S())
    {
      ghost var s0 := S();
      z := inodes[n].zone[k];
      if create && z == 0 {
        z := NewBlock();
        if z != 0 {
          ghost var s1 := S();
          LinkZoneStep(s1, {z}, n, k, z);
          inodes[n] := inodes[n].(zone := inodes[n].zone[k := z]);
          assert S() == LinkZone(s1, n, k, z);
          assert {z} - {z} == {};
          Entered(s0, s1, S(), n, Zone(k), z);
        }
      }
    }

    /** The same for entry j of the index block c that path p of inode n leads through. */
    method EnterEntry(n: nat, ghost p: Path, c: nat, j: nat, create: bool) returns (z: nat)
      requires Valid() && n < inodes.Length && inodes[n].file && IsPath(p) && HasParent(p)
      requires j == Index(p) && c == At(S(), n, Parent(p)) != 0
      modifies zmap, disk
      ensures Valid() && SameContents(old(S()), S()) && Grows(old(S()), S(), n)
      ensures z == At(S(), n, p)
      ensures !create || At(old(S()), n, p) != 0 ==> S() == old(S())
      ensures create && z == 0 ==> Full(S())
    {
      ghost var s0 := S();
      assert Ref(s0, n, Parent(p)) && InRange(s0, c);
      z := Entry(disk[c], j);
      if create && z == 0 {
        z := NewBlock();
        if z != 0 {
          EntryAfterAlloc(s0, n, p, z);
          disk[c] := SetEntry(disk[c], j, z);
          assert S() == LinkEntry(Alloc(s0, z), c, j, z);
        }
      }
    }

    /** _bmap: the block behind block number `block` of a file, entered on the way if `create`.
        The precondition excludes the panics "block<0" and "block>big". */
    method Bmap(n: nat, block: nat, create: bool) returns (b: nat)
      requires Valid() && n < inodes.Length && inodes[n].file && block < MAX_BLOCKS
      modifies zmap, disk, inodes
      ensures Valid() && SameContents(old(S()), S()) && Grows(old(S()), S(), n)
      ensures b == BlockAt(S(), n, block)
      // in the fields of the inode and the bytes of the index blocks, low byte first
      ensures block < 7 ==> b == inodes[n].zone[block]
      ensures 7 <= block < 519 ==> b == Listed(disk[..], inodes[n].zone[7], block - 7)
      ensures 519 <= block ==>
        b == Listed(disk[..], Listed(disk[..], inodes[n].zone[8], (block - 519) / 512), (block - 519) % 512)
      ensures !create || BlockAt(old(S()), n, block) != 0 ==> S() == old(S())
      ensures create && b == 0 ==> Full(S())
    {
      if block < 7 {
        b := EnterZone(n, block, create);
      } else if block < 7 + 512 {
        b := BmapIndirect(n, block - 7, create);
      } else {
        b := BmapDouble(n, block - 7 - 512, create);
      }
      BlockIs(S(), n, block);
    }

    /** The part of _bmap below i_zone[7]. */
    method BmapIndirect(n: nat, block: nat, create: bool) returns (b: nat)
      requires Valid() && n < inodes.Length && inodes[n].file && block < 512
      modifies zmap, disk, inodes
      ensures Valid() && SameContents(old(S()), S()) && Grows(old(S()), S(), n)
      ensures b == At(S(), n, Ind(block))
      ensures !create || At(old(S()), n, Ind(block)) != 0 ==> S() == old(S())
      ensures create && b == 0 ==> Full(S())
    {
      ghost var s0 := S();
      var z := EnterZone(n, 7, create);
      if z == 0 { return 0; }
      ghost var s1 := S();
      b := EnterEntry(n, Ind(block), z, block, create);
      SameContentsTrans(s0, s1, S());
      GrowsTrans(s0, s1, S(), n);
    }

    /** The part of _bmap below i_zone[8]. */
    method BmapDouble(n: nat, block: nat, create: bool) returns (b: nat)
      requires Valid() && n < inodes.Length && inodes[n].file && block < 512 * 512
      modifies zmap, disk, inodes
      ensures Valid() && SameContents(old(S()), S()) && Grows(old(S()), S(), n)
      ensures b == At(S(), n, Leaf(block / 512, block % 512))
      ensures !create || At(old(S()), n, Leaf(block / 512, block % 512)) != 0 ==> S() == old(S())
      ensures create && b == 0 ==> Full(S())
    {
      ghost var s0 := S();
      var i := BmapDind(n, block / 512, create);
      if i == 0 { return 0; }
      ghost var s2 := S();
      b := EnterEntry(n, Leaf(block / 512, block % 512), i, block % 512, create);
      SameContentsTrans(s0, s2, S());
      GrowsTrans(s0, s2, S(), n);
    }

    method BmapDind(n: nat, j: nat, create: bool) returns (b: nat)
      requires Valid() && n < inodes.Length && inodes[n].file && j < 512
      modifies zmap, disk, inodes
      ensures Valid() && SameContents(old(S()), S()) && Grows(old(S()), S(), n)
      ensures b == At(S(), n, Dind(j))
      ensures !create || At(old(S()), n, Dind(j)) != 0 ==> S() == old(S())
      ensures create && b == 0 ==> Full(S())
    {
      ghost var s0 := S();
      var z := EnterZone(n, 8, create);
      if z == 0 { return 0; }
      ghost var s1 := S();
      b := EnterEntry(n, Dind(j), z, j, create);
      SameContentsTrans(s0, s1, S());
      GrowsTrans(s0, s1, S(), n);
    }

    /** file_write.  Reaches `count` bytes, or stops where the device has no zone left. */
    method FileWrite(n: nat, append: bool, f_pos: nat, buf: seq<Byte>, count: int) returns (r: int, new_pos: nat)
      requires Valid() && n < inodes.Length && inodes[n].file
      requires count <= |buf|
      requires count > 0 ==> (if append then inodes[n].size else f_pos) + count <= MAX_BLOCKS * BLOCK_SIZE
      modifies zmap, disk, inodes
      ensures Valid()
      ensures r == -1 || 0 < r <= count
      ensures 0 < count && r < count ==> Full(S())
      ensures var pos, done := if append then old(inodes[n].size) else f_pos, if r == -1 then 0 else r;
        && Written(old(S()), S(), n, pos, buf[..done])
        && inodes[n].size == (if done > 0 && pos + done > old(inodes[n].size) then pos + done else old(inodes[n].size))
        && new_pos == (if append then f_pos else pos + done)
        && BytesLaid(old(S()), S(), n, pos, buf[..done])
    {
      var pos := if append then inodes[n].size else f_pos;
      var i := WriteBlocks(n, pos, buf, count);
      pos := pos + i;
      r := if i != 0 then i else -1;
      new_pos := if append then f_pos else pos;
    }

    /** The loop of file_write from position pos: the number of bytes it gets done. */
    method WriteBlocks(n: nat, pos: nat, buf: seq<Byte>, count: int) returns (i: nat)
      requires Valid() && n < inodes.Length && inodes[n].file && count <= |buf|
      requires count > 0 ==> pos + count <= MAX_BLOCKS * BLOCK_SIZE
      modifies zmap, disk, inodes
      ensures Valid() && i <= |buf|
      ensures if count <= 0 then i == 0 else i <= count && (i < count ==> Full(S()))
      ensures Written(old(S()), S(), n, pos, buf[..i])
    {
      ghost var s0 := S();
      i := 0;
      WrittenNothing(s0, n, pos);
      while i < count
        invariant i <= |buf| && if count <= 0 then i == 0 else i <= count
        invariant Valid() && inodes[n].file
        invariant Written(s0, S(), n, pos, buf[..i])
      {
        var c := ChunkSize(pos + i, count - i);
        var ok := WriteNext(n, pos, buf, i, c, s0);
        if !ok { return; }
        i := i + c;
      }
    }

    /** One round of it, for the c bytes that go into one block. */
    method WriteNext(n: nat, pos: nat, buf: seq<Byte>, i: nat, c: nat, ghost s0: State) returns (ok: bool)
      requires Valid() && n < inodes.Length && inodes[n].file && i + c <= |buf| && 0 < c <= Room(pos + i)
      requires pos + i < MAX_BLOCKS * BLOCK_SIZE && Shape(s0) && n < |s0.inodes| && s0.inodes[n].file
      requires Written(s0, S(), n, pos, buf[..i])
      modifies zmap, disk, inodes
      ensures Valid() && inodes[n].file && Written(s0, S(), n, pos, buf[..if ok then i + c else i])
      ensures !ok ==> Full(S())
    {
      ghost var s := S();
      var bytes := buf[i..i + c];
      ok := WriteBlock(n, pos + i, bytes);
      WrittenMore(s0, s, S(), n, pos, buf, i, if ok then c else 0, if ok then bytes else []);
    }

    /** One round of file_write's loop; false where create_block finds no zone. */
    method WriteBlock(n: nat, pos: nat, bytes: seq<Byte>) returns (ok: bool)
      requires Valid() && n < inodes.Length && inodes[n].file && pos < MAX_BLOCKS * BLOCK_SIZE
      requires 0 < |bytes| <= Room(pos)
      modifies zmap, disk, inodes
      ensures Valid() && inodes[n].file && Written(old(S()), S(), n, pos, if ok then bytes else [])
      ensures !ok ==> Full(S())
    {
      ghost var s0 := S();
      var block := Bmap(n, pos / BLOCK_SIZE, true);
      ghost var s1 := S();
      ok := block != 0;
      if ok {
        WriteChunk(n, block, pos, bytes);
        WrittenAfter(s0, s1, S(), n, pos, bytes);
      } else {
        WrittenNothing(s1, n, pos);
        WrittenAfter(s0, s1, s1, n, pos, []);
      }
    }

    /** The loop body of file_write behind create_block: the bytes that fall into one block, and the size. */
    method WriteChunk(n: nat, block: nat, pos: nat, bytes: seq<Byte>)
      requires Valid() && n < inodes.Length && inodes[n].file && pos < MAX_BLOCKS * BLOCK_SIZE
      requires block == BlockAt(S(), n, pos / BLOCK_SIZE) != 0
      requires 0 < |bytes| <= Room(pos)
      modifies disk, inodes
      ensures Valid() && inodes[n].file && Written(old(S()), S(), n, pos, bytes)
    {
      ghost var s0 := S();
      assert Ref(s0, n, PathOf(pos / BLOCK_SIZE)) && InRange(s0, block);
      if pos + |bytes| > inodes[n].size {
        inodes[n] := inodes[n].(size := pos + |bytes|);
      }
      ghost var s1 := S();
      Resized(s0, s1, n);
      var d := CopyIn(disk[block], pos % BLOCK_SIZE, bytes);
      WriteStep(s1, n, pos / BLOCK_SIZE, d);
      disk[block] := d;
      assert S() == s1.(disk := s1.disk[block := d]);
      ChunkWritten(s0, s1, S(), n, pos, bytes);
    }

    /** file_read: exactly the `count` bytes from f_pos on, holes as zeros. */
    method FileRead(n: nat, f_pos: nat, count: int) returns (r: int, new_pos: nat, out: seq<Byte>)
      requires Valid() && n < inodes.Length && inodes[n].file
      requires count > 0 ==> f_pos + count <= MAX_BLOCKS * BLOCK_SIZE
      modifies zmap, disk, inodes
      ensures Valid() && S() == old(S())
      ensures r == |out| == if count <= 0 then 0 else count
      ensures new_pos == f_pos + r
      ensures forall i :: 0 <= i < |out| ==> out[i] == ByteAt(S(), n, f_pos + i)
    {
      out := [];
      new_pos := f_pos;
      var left := count;
      if left <= 0 {
        return 0, new_pos, out;
      }
      while left != 0
        invariant 0 <= left <= count && |out| == count - left && new_pos == f_pos + |out|
        invariant Valid() && S() == old(S())
        invariant forall i :: 0 <= i < |out| ==> out[i] == ByteAt(S(), n, f_pos + i)
        decreases left
      {
        var chars := ChunkSize(new_pos, left);
        var bytes := ReadBlock(n, new_pos, chars);
        out := out + bytes;
        new_pos := new_pos + chars;
        left := left - chars;
      }
      r := count - left;
    }

    /** One round of file_read's loop. */
    method ReadBlock(n: nat, pos: nat, chars: nat) returns (out: seq<Byte>)
      requires Valid() && n < inodes.Length && inodes[n].file
      requires 0 < chars <= Room(pos) && pos + chars <= MAX_BLOCKS * BLOCK_SIZE
      modifies zmap, disk, inodes
      ensures Valid() && S() == old(S()) && |out| == chars
      ensures forall i :: 0 <= i < chars ==> out[i] == ByteAt(S(), n, pos + i)
    {
      var nr := Bmap(n, pos / BLOCK_SIZE, false);
      ghost var d := Data(S(), n, pos / BLOCK_SIZE);
      assert nr != 0 ==> Ref(S(), n, PathOf(pos / BLOCK_SIZE)) && InRange(S(), nr) && d == disk[nr];
      assert nr == 0 ==> d == ZeroBlock();
      out := CopyOut(nr, pos % BLOCK_SIZE, chars, d);
      BytesOfBlock(S(), n, pos, chars);
    }

    /** Bytes of a block for the caller, or zeros for a hole. */
    method CopyOut(nr: nat, p: nat, chars: nat, ghost d: Block) returns (out: seq<Byte>)
      requires IsBlock(d) && p + chars <= BLOCK_SIZE
      requires if nr != 0 then nr < disk.Length && disk[nr] == d else d == ZeroBlock()
      ensures out == d[p..p + chars]
    {
      out := [];
      var k := 0;
      while k < chars
        invariant 0 <= k <= chars
        invariant out == d[p..p + k]
      {
        OneByteMore(d, p, k);
        out := out + [if nr != 0 then disk[nr][p + k] else 0];
        k := k + 1;
      }
    }

    /** The bitmap is that of s without the blocks at the paths `freed` of inode n; nothing else moved. */
    ghost predicate FreedSoFar(s: State, n: nat, freed: set<Path>)
      reads zmap, disk
    {
      && Geometry() && Inv(s) && s.first == first && s.nzones == nzones && s.disk == disk[..]
      && n < |s.inodes| && s.inodes[n].file
      && UsedZones(zmap[..], first, nzones) == s.used - BlocksOf(s, n, freed)
    }

    /** Frees the block at path p, which is still allocated because no other path leads to it. */
    method FreeAt(ghost s: State, n: nat, ghost p: Path, ghost freed: set<Path>, block: nat)
      requires FreedSoFar(s, n, freed) && IsPath(p) && p !in freed && block == At(s, n, p) != 0
      modifies zmap
      ensures FreedSoFar(s, n, freed + {p})
    {
      StillUsed(s, n, p, freed);
      FreeBlock(block);
    }

    /** free_ind */
    method FreeInd(ghost s: State, n: nat, ghost p: Path, ghost freed: set<Path>, block: nat)
      requires FreedSoFar(s, n, freed) && (p == Zone(7) || (p.Dind? && IsPath(p))) && block == At(s, n, p)
      requires p !in freed && forall k :: 0 <= k < NR_ENTRIES ==> Child(p, k) !in freed
      modifies zmap
      ensures FreedSoFar(s, n, freed + {p} + Children(p, NR_ENTRIES))
    {
      if block == 0 {
        NothingBelow(s, n, p, freed);
        return;
      }
      assert Ref(s, n, p) && InRange(s, block);
      var i := 0;
      assert freed + Children(p, 0) == freed;
      while i < 512
        invariant 0 <= i <= 512
        invariant FreedSoFar(s, n, freed + Children(p, i))
      {
        assert At(s, n, Child(p, i)) == Entry(disk[block], i);
        ghost var f := freed + Children(p, i);
        ChildrenNext(p, freed, i);
        if Entry(disk[block], i) != 0 {
          FreeAt(s, n, Child(p, i), f, Entry(disk[block], i));
        } else {
          EmptyPath(s, n, Child(p, i), f);
        }
        i := i + 1;
      }
      FreeAt(s, n, p, freed + Children(p, i), block);
      assert freed + Children(p, i) + {p} == freed + {p} + Children(p, i);
    }

    /** free_dind */
    method FreeDind(ghost s: State, n: nat, ghost freed: set<Path>, block: nat)
      requires FreedSoFar(s, n, freed) && block == At(s, n, Zone(8))
      requires Zone(8) !in freed && forall j :: 0 <= j < NR_ENTRIES ==> Dind(j) !in freed
      requires forall j, k :: 0 <= j < NR_ENTRIES && 0 <= k < NR_ENTRIES ==> Leaf(j, k) !in freed
      modifies zmap
      ensures FreedSoFar(s, n, freed + {Zone(8)} + Subtrees(NR_ENTRIES))
    {
      if block == 0 {
        NothingBelowDouble(s, n, freed);
        return;
      }
      assert Ref(s, n, Zone(8)) && InRange(s, block);
      var i := 0;
      assert freed + Subtrees(0) == freed;
      while i < 512
        invariant 0 <= i <= 512
        invariant FreedSoFar(s, n, freed + Subtrees(i))
      {
        assert At(s, n, Dind(i)) == Entry(disk[block], i);
        ghost var f := freed + Subtrees(i);
        SubtreesNext(i);
        assert freed + Subtrees(i + 1) == f + {Dind(i)} + Children(Dind(i), NR_ENTRIES);
        if Entry(disk[block], i) != 0 {
          FreeInd(s, n, Dind(i), f, Entry(disk[block], i));
        } else {
          NothingBelow(s, n, Dind(i), f);
        }
        i := i + 1;
      }
      FreeAt(s, n, Zone(8), freed + Subtrees(i), block);
      assert freed + Subtrees(i) + {Zone(8)} == freed + {Zone(8)} + Subtrees(i);
    }

    /** truncate: every block of the file is freed, exactly once, and the file is empty. */
    method Truncate(n: nat)
      requires Valid() && n < inodes.Length
      modifies zmap, inodes
      ensures Valid()
      ensures !old(inodes[n].file) ==> S() == old(S())
      ensures old(inodes[n].file) ==> Truncated(old(S()), S(), n)
      ensures old(inodes[n].file) ==> inodes[n] == Inode(true, 0, [0, 0, 0, 0, 0, 0, 0, 0, 0])
    {
      if !inodes[n].file { return; }
      ghost var s := S();
      FreeDirect(n);
      ghost var freed := Zones(7);
      FreeInd(s, n, Zone(7), freed, inodes[n].zone[7]);
      freed := freed + {Zone(7)} + Children(Zone(7), NR_ENTRIES);
      FreeDind(s, n, freed, inodes[n].zone[8]);
      inodes[n] := inodes[n].(zone := inodes[n].zone[7 := 0][8 := 0], size := 0);
      assert freed + {Zone(8)} + Subtrees(NR_ENTRIES) == EveryPath();
      NineZeros(s.inodes[n]);
      assert inodes[..] == s.inodes[n := inodes[n]];
      TruncateStep(s, S(), n);
    }

    /** The first loop of truncate. */
    method FreeDirect(n: nat)
      requires Valid() && n < inodes.Length && inodes[n].file
      modifies zmap, inodes
      ensures FreedSoFar(old(S()), n, Zones(7))
      ensures inodes[..] == old(inodes[..])[n := ZonesCleared(old(inodes[n]), 7)]
    {
      ghost var s := S();
      assert BlocksOf(s, n, Zones(0)) == {};
      assert ZonesCleared(s.inodes[n], 0).zone == s.inodes[n].zone;
      var i := 0;
      while i < 7
        invariant 0 <= i <= 7
        invariant FreedSoFar(s, n, Zones(i))
        invariant inodes[..] == s.inodes[n := ZonesCleared(s.inodes[n], i)]
      {
        ZonesClearedNext(s.inodes[n], i);
        assert Zones(i + 1) == Zones(i) + {Zone(i)};
        if inodes[n].zone[i] != 0 {
          FreeAt(s, n, Zone(i), Zones(i), inodes[n].zone[i]);
          inodes[n] := inodes[n].(zone := inodes[n].zone[i := 0]);
        } else {
          EmptyPath(s, n, Zone(i), Zones(i));
        }
        i := i + 1;
      }
    }
  }

  /** An inode with the first i zones set to 0. */
  ghost function ZonesCleared(x: Inode, i: nat): Inode
    requires i <= |x.zone|
  {
    x.(zone := seq(i, k => 0) + x.zone[i..])
  }

  lemma NineZeros(x: Inode)
    requires |x.zone| == 9 && x.file
    ensures ZonesCleared(x, 7).(zone := ZonesCleared(x, 7).zone[7 := 0][8 := 0], size := 0)
         == Inode(true, 0, NO_ZONES)
  {
    assert ZonesCleared(x, 7).zone[7 := 0][8 := 0] == NO_ZONES;
  }

  lemma ZonesClearedNext(x: Inode, i: nat)
    requires i < |x.zone|
    ensures ZonesCleared(x, i).zone[i] == x.zone[i]
    ensures ZonesCleared(x, i + 1) == ZonesCleared(x, i).(zone := ZonesCleared(x, i).zone[i := 0])
    ensures x.zone[i] == 0 ==> ZonesCleared(x, i + 1) == ZonesCleared(x, i)
  {
    assert ZonesCleared(x, i + 1).zone == ZonesCleared(x, i).zone[i := 0];
  }

  lemma ChildrenNext(p: Path, freed: set<Path>, i: nat)
    requires i < NR_ENTRIES && (p == Zone(7) || p.Dind?) && Child(p, i) !in freed
    ensures freed + Children(p, i + 1) == freed + Children(p, i) + {Child(p, i)}
    ensures Child(p, i) !in freed + Children(p, i)
  {
  }

  function Child(p: Path, k: nat): Path {
    match p
    case Zone(7) => Ind(k)
    case Dind(j) => Leaf(j, k)
    case _ => Dind(k)
  }

  ghost function Children(p: Path, m: nat): set<Path> {
    set k | 0 <= k < m :: Child(p, k)
  }

  ghost function Zones(m: nat): set<Path> {
    set k | 0 <= k < m :: Zone(k)
  }

  ghost function Dinds(m: nat): set<Path> {
    set j | 0 <= j < m :: Dind(j)
  }

  ghost function Leaves(m: nat): set<Path> {
    set j, k | 0 <= j < m && 0 <= k < NR_ENTRIES :: Leaf(j, k)
  }

  /** The first m entries of the double indirect block, with all that hangs below them. */
  ghost function Subtrees(m: nat): set<Path> { Dinds(m) + Leaves(m) }

  lemma SubtreesNext(m: nat)
    ensures Subtrees(m + 1) == Subtrees(m) + {Dind(m)} + Children(Dind(m), NR_ENTRIES)
  {
    forall p ensures p in Subtrees(m + 1) <==> p in Subtrees(m) + {Dind(m)} + Children(Dind(m), NR_ENTRIES) {
      if p in Children(Dind(m), NR_ENTRIES) {
        assert p in Leaves(m + 1);
      }
      if p.Leaf? && p in Leaves(m + 1) && p.j == m {
        assert p == Child(Dind(m), p.k);
      }
    }
  }

  /** What truncate frees, in its order. */
  ghost function EveryPath(): set<Path> {
    Zones(7) + {Zone(7)} + Children(Zone(7), NR_ENTRIES) + {Zone(8)} + Subtrees(NR_ENTRIES)
  }

  lemma AllPaths()
    ensures forall p :: IsPath(p) ==> p in EveryPath()
  {
    forall p | IsPath(p) ensures p in EveryPath() {
      if p.Ind? { assert p == Child(Zone(7), p.k); }
    }
  }

  /** The blocks at these paths of inode n. */
  ghost function BlocksOf(s: State, n: nat, paths: set<Path>): set<nat>
    requires Shape(s) && n < |s.inodes| && s.inodes[n].file
  {
    set p | p in paths && IsPath(p) && At(s, n, p) != 0 :: At(s, n, p)
  }

  lemma StillUsed(s: State, n: nat, p: Path, freed: set<Path>)
    requires Inv(s) && Ref(s, n, p) && At(s, n, p) != 0 && p !in freed
    ensures InRange(s, At(s, n, p)) && At(s, n, p) in s.used - BlocksOf(s, n, freed)
    ensures BlocksOf(s, n, freed + {p}) == BlocksOf(s, n, freed) + {At(s, n, p)}
  {
    assert Reachable(s, At(s, n, p));
    forall q | q in freed && IsPath(q) ensures At(s, n, q) != At(s, n, p) {
      assert Ref(s, n, q) && q != p;
    }
  }

  lemma EmptyPath(s: State, n: nat, p: Path, freed: set<Path>)
    requires Inv(s) && Ref(s, n, p) && At(s, n, p) == 0
    ensures BlocksOf(s, n, freed + {p}) == BlocksOf(s, n, freed)
  {
  }

  lemma NothingBelow(s: State, n: nat, p: Path, freed: set<Path>)
    requires Inv(s) && Ref(s, n, p) && At(s, n, p) == 0 && (p == Zone(7) || p.Dind?)
    ensures BlocksOf(s, n, freed + {p} + Children(p, NR_ENTRIES)) == BlocksOf(s, n, freed)
  {
    forall k | 0 <= k < NR_ENTRIES ensures At(s, n, Child(p, k)) == 0 {
      assert Parent(Child(p, k)) == p;
    }
    forall q | q in {p} + Children(p, NR_ENTRIES) ensures Ref(s, n, q) && At(s, n, q) == 0 {
      if q != p { var k :| 0 <= k < NR_ENTRIES && q == Child(p, k); }
    }
    assert freed + {p} + Children(p, NR_ENTRIES) == freed + ({p} + Children(p, NR_ENTRIES));
  }

  lemma NothingBelowDouble(s: State, n: nat, freed: set<Path>)
    requires Inv(s) && Ref(s, n, Zone(8)) && At(s, n, Zone(8)) == 0
    ensures BlocksOf(s, n, freed + {Zone(8)} + Subtrees(NR_ENTRIES)) == BlocksOf(s, n, freed)
  {
    forall q | q in {Zone(8)} + Subtrees(NR_ENTRIES) ensures Ref(s, n, q) && At(s, n, q) == 0 {
      if q.Leaf? { assert At(s, n, Dind(q.j)) == 0; }
    }
    assert freed + {Zone(8)} + Subtrees(NR_ENTRIES) == freed + ({Zone(8)} + Subtrees(NR_ENTRIES));
  }

  /** Inode n is empty, exactly its blocks are free again, and every other file is as it was. */
  ghost predicate Truncated(s: State, s': State, n: nat)
    requires Shape(s) && n < |s.inodes| && s.inodes[n].file
  {
    && Shape(s') && s'.nzones == s.nzones && s'.first == s.first && |s'.inodes| == |s.inodes| && s'.disk == s.disk
    && (forall b :: b in s'.used <==> b in s.used && !ReachableFrom(s, n, b))
    && s'.inodes[n].file && s'.inodes[n].size == 0
    && (forall p :: IsPath(p) ==> At(s', n, p) == 0)
    && (forall m :: 0 <= m < |s.inodes| && m != n ==> s'.inodes[m] == s.inodes[m])
    && (forall m, i :: 0 <= m < |s.inodes| && s.inodes[m].file && 0 <= i < MAX_BLOCKS ==>
          s'.inodes[m].file && Data(s', m, i) == if m == n then ZeroBlock() else Data(s, m, i))
  }

  ghost predicate ReachableFrom(s: State, n: nat, b: nat)
    requires Shape(s) && n < |s.inodes| && s.inodes[n].file
  {
    exists p :: IsPath(p) && At(s, n, p) == b
  }

  lemma {:induction false} EmptyTree(s: State, n: nat, p: Path)
    requires Shape(s) && Ref(s, n, p) && s.inodes[n].zone == NO_ZONES
    ensures At(s, n, p) == 0
    decreases Depth(p)
  {
    if !p.Zone? {
      EmptyTree(s, n, Parent(p));
    }
  }

  lemma {:induction false} OtherTree(s: State, s': State, m: nat, p: Path)
    requires Shape(s) && Shape(s') && Ref(s, m, p) && m < |s'.inodes| && s'.inodes[m] == s.inodes[m]
    requires s'.disk == s.disk && s'.nzones == s.nzones
    ensures At(s', m, p) == At(s, m, p)
    decreases Depth(p)
  {
    if !p.Zone? {
      OtherTree(s, s', m, Parent(p));
    }
  }

  lemma TruncateStep(s: State, s': State, n: nat)
    requires Inv(s) && n < |s.inodes| && s.inodes[n].file
    requires |s'.inodes| == |s.inodes| && s' == s.(inodes := s'.inodes, used := s'.used)
    requires s'.inodes == s.inodes[n := Inode(true, 0, NO_ZONES)]
    requires s'.used == s.used - BlocksOf(s, n, EveryPath())
    ensures Inv(s') && Truncated(s, s', n)
  {
    AllPaths();
    assert forall b :: b in BlocksOf(s, n, EveryPath()) <==> b != 0 && ReachableFrom(s, n, b);
    forall p | IsPath(p) ensures At(s', n, p) == 0 {
      EmptyTree(s', n, p);
    }
    forall m, p | Ref(s, m, p) && m != n ensures At(s', m, p) == At(s, m, p) {
      OtherTree(s, s', m, p);
    }
    TruncatedUsed(s, s', n);
    forall m, i | 0 <= m < |s.inodes| && s.inodes[m].file && 0 <= i < MAX_BLOCKS
      ensures s'.inodes[m].file && Data(s', m, i) == if m == n then ZeroBlock() else Data(s, m, i)
    {
      assert Ref(s, m, PathOf(i));
    }
  }

  lemma TruncatedUsed(s: State, s': State, n: nat)
    requires Inv(s) && n < |s.inodes| && s.inodes[n].file && Shape(s') && |s'.inodes| == |s.inodes|
    requires s'.first == s.first && s'.nzones == s.nzones
    requires forall m, p :: Ref(s', m, p) <==> Ref(s, m, p)
    requires forall p :: IsPath(p) ==> At(s', n, p) == 0
    requires forall m, p :: Ref(s, m, p) && m != n ==> At(s', m, p) == At(s, m, p)
    requires forall b :: b in s'.used <==> b in s.used && !ReachableFrom(s, n, b)
    ensures Inv(s')
  {
    forall b | InRange(s, b) ensures b in s'.used <==> Reachable(s', b) {
      if b in s'.used {
        assert Reachable(s, b);
        var m, p :| Ref(s, m, p) && At(s, m, p) == b;
        assert m != n;
        assert Ref(s', m, p) && At(s', m, p) == b;
      }
      if Reachable(s', b) {
        var m, p :| Ref(s', m, p) && At(s', m, p) == b;
        assert Ref(s, m, p) && m != n && At(s, m, p) == b;
        assert Reachable(s, b);
        forall q | IsPath(q) ensures At(s, n, q) != b {
          assert Ref(s, n, q);
        }
      }
    }
  }

  /** The copying loop of file_write: bytes from user memory into the block, from position p on. */
  method CopyIn(b: Block, p: nat, bytes: seq<Byte>) returns (d: Block)
    requires |b| == BLOCK_SIZE && p + |bytes| <= BLOCK_SIZE
    ensures d == Overlay(b, p, bytes)
  {
    d := b;
    var k := 0;
    while k < |bytes|
      invariant 0 <= k <= |bytes|
      invariant d == Overlay(b, p, bytes[..k])
    {
      d := d[p + k := bytes[k]];
      k := k + 1;
    }
    assert bytes[..k] == bytes;
  }

  /** What is left of the block that position pos lies in. */
  function Room(pos: nat): nat { BLOCK_SIZE - pos % BLOCK_SIZE }

  function ChunkSize(pos: nat, left: nat): (c: nat)
    requires left > 0
    ensures 0 < c <= left && c <= Room(pos)
    ensures c == left || c == Room(pos)
  {
    if Room(pos) > left then left else Room(pos)
  }

  /** b with `bytes` laid over it from position p. */
  ghost function Overlay(b: Block, p: nat, bytes: seq<Byte>): Block
    requires |b| == BLOCK_SIZE && p + |bytes| <= BLOCK_SIZE
  {
    b[..p] + bytes + b[p + |bytes|..]
  }

  function Max(a: nat, b: nat): nat { if a < b then b else a }

  /** Exactly the bytes [pos, pos + |bytes|) of file n are new, its size covers them, and nothing else changed. */
  ghost predicate Written(s: State, s': State, n: nat, pos: nat, bytes: seq<Byte>)
    requires Shape(s) && n < |s.inodes| && s.inodes[n].file
  {
    && Shape(s') && s'.nzones == s.nzones && s'.first == s.first && |s'.inodes| == |s.inodes|
    && (forall m :: 0 <= m < |s.inodes| ==> s'.inodes[m].file == s.inodes[m].file)
    && (forall m :: 0 <= m < |s.inodes| && m != n ==> s'.inodes[m].size == s.inodes[m].size)
    && s'.inodes[n].size == (if bytes == [] then s.inodes[n].size else Max(s.inodes[n].size, pos + |bytes|))
    && (forall m, q :: 0 <= m < |s.inodes| && s.inodes[m].file && 0 <= q < MAX_BLOCKS * BLOCK_SIZE ==>
          ByteAt(s', m, q) == if m == n && pos <= q < pos + |bytes| then bytes[q - pos] else ByteAt(s, m, q))
  }

  /** Byte i of `bytes` is at position pos + i of file n, and every other byte of every file is what it was. */
  ghost predicate BytesLaid(s: State, s': State, n: nat, pos: nat, bytes: seq<Byte>)
    requires Shape(s) && Shape(s') && |s'.inodes| == |s.inodes| && n < |s.inodes| && s'.inodes[n].file
    requires forall m :: 0 <= m < |s.inodes| ==> s'.inodes[m].file == s.inodes[m].file
  {
    && (forall i :: 0 <= i < |bytes| ==> pos + i < 268966912 && ByteAt(s', n, pos + i) == bytes[i])
    && (forall m, q: nat | 0 <= m < |s.inodes| && s.inodes[m].file && q < 268966912 ::
          m != n || q < pos || q >= pos + |bytes| ==> ByteAt(s', m, q) == ByteAt(s, m, q))
  }

  lemma WrittenNothing(s: State, n: nat, pos: nat)
    requires Shape(s) && n < |s.inodes| && s.inodes[n].file
    ensures Written(s, s, n, pos, [])
  {
  }

  /** What came before did not change any contents. */
  lemma WrittenAfter(s0: State, s: State, s': State, n: nat, pos: nat, bytes: seq<Byte>)
    requires Shape(s0) && Shape(s) && SameContents(s0, s) && n < |s.inodes| && s.inodes[n].file
    requires Written(s, s', n, pos, bytes)
    ensures Written(s0, s', n, pos, bytes)
  {
    forall m, q | 0 <= m < |s0.inodes| && s0.inodes[m].file && 0 <= q < MAX_BLOCKS * BLOCK_SIZE
      ensures ByteAt(s, m, q) == ByteAt(s0, m, q)
    {
      assert Data(s, m, q / BLOCK_SIZE) == Data(s0, m, q / BLOCK_SIZE);
    }
  }

  lemma WrittenMore(s0: State, s: State, s': State, n: nat, pos: nat, buf: seq<Byte>, i: nat, c: nat, bytes: seq<Byte>)
    requires Shape(s0) && n < |s0.inodes| && s0.inodes[n].file && i + c <= |buf|
    requires Written(s0, s, n, pos, buf[..i])
    requires Written(s, s', n, pos + i, bytes) && bytes == buf[i..i + c]
    ensures Written(s0, s', n, pos, buf[..i + c])
  {
    forall m, q | 0 <= m < |s0.inodes| && s0.inodes[m].file && 0 <= q < MAX_BLOCKS * BLOCK_SIZE
      ensures ByteAt(s', m, q) == if m == n && pos <= q < pos + i + c then buf[q - pos] else ByteAt(s0, m, q)
    {
      assert ByteAt(s, m, q) == if m == n && pos <= q < pos + i then buf[q - pos] else ByteAt(s0, m, q);
    }
  }

  lemma Resized(s: State, s': State, n: nat)
    requires Inv(s) && n < |s.inodes| == |s'.inodes| && s' == s.(inodes := s'.inodes)
    requires s'.inodes == s.inodes[n := s.inodes[n].(size := s'.inodes[n].size)]
    ensures Inv(s') && SameTree(s, s')
    ensures forall m, i :: 0 <= m < |s.inodes| && s.inodes[m].file && 0 <= i < MAX_BLOCKS ==>
      Data(s', m, i) == Data(s, m, i)
  {
    forall m, p | Ref(s, m, p) ensures At(s', m, p) == At(s, m, p) {
      ResizedAt(s, s', m, p);
    }
    SameTreeInv(s, s', {});
    forall m, i | 0 <= m < |s.inodes| && s.inodes[m].file && 0 <= i < MAX_BLOCKS
      ensures Data(s', m, i) == Data(s, m, i)
    {
      assert Ref(s, m, PathOf(i));
    }
  }

  lemma {:induction false} ResizedAt(s: State, s': State, m: int, p: Path)
    requires Shape(s) && Shape(s') && s'.disk == s.disk && s'.nzones == s.nzones && |s'.inodes| == |s.inodes|
    requires forall k :: 0 <= k < |s.inodes| ==>
      s'.inodes[k].zone == s.inodes[k].zone && s'.inodes[k].file == s.inodes[k].file
    requires Ref(s, m, p)
    ensures At(s', m, p) == At(s, m, p)
    decreases Depth(p)
  {
    if !p.Zone? {
      ResizedAt(s, s', m, Parent(p));
    }
  }

  lemma ChunkWritten(s0: State, s1: State, s2: State, n: nat, pos: nat, bytes: seq<Byte>)
    requires Shape(s0) && Shape(s1) && Shape(s2) && n < |s0.inodes| && s0.inodes[n].file && s0.nzones == s1.nzones
    requires s0.first == s1.first && |s0.inodes| == |s1.inodes| && pos < MAX_BLOCKS * BLOCK_SIZE
    requires bytes != [] && |bytes| <= BLOCK_SIZE - pos % BLOCK_SIZE
    requires forall m :: 0 <= m < |s0.inodes| ==> s1.inodes[m].file == s0.inodes[m].file
    requires forall m :: 0 <= m < |s0.inodes| && m != n ==> s1.inodes[m].size == s0.inodes[m].size
    requires s1.inodes[n].size == Max(s0.inodes[n].size, pos + |bytes|) && s2.inodes == s1.inodes
    requires forall m, i :: 0 <= m < |s0.inodes| && s0.inodes[m].file && 0 <= i < MAX_BLOCKS ==>
      Data(s1, m, i) == Data(s0, m, i)
    requires OnlyData(s1, s2, n, pos / BLOCK_SIZE,
                      Overlay(Data(s0, n, pos / BLOCK_SIZE), pos % BLOCK_SIZE, bytes))
    ensures Written(s0, s2, n, pos, bytes)
  {
    var i0, p := pos / BLOCK_SIZE, pos % BLOCK_SIZE;
    assert pos == 1024 * i0 + p;
    forall m, q | 0 <= m < |s0.inodes| && s0.inodes[m].file && 0 <= q < MAX_BLOCKS * BLOCK_SIZE
      ensures ByteAt(s2, m, q) == if m == n && pos <= q < pos + |bytes| then bytes[q - pos] else ByteAt(s0, m, q)
    {
      var i := q / BLOCK_SIZE;
      assert q == 1024 * i + q % 1024;
      assert Data(s1, m, i) == Data(s0, m, i);
      assert Data(s2, m, i) == if m == n && i == i0 then Overlay(Data(s0, n, i0), p, bytes) else Data(s1, m, i);
    }
  }

  lemma BytesOfBlock(s: State, n: nat, pos: nat, chars: nat)
    requires Shape(s) && n < |s.inodes| && s.inodes[n].file && pos + chars <= MAX_BLOCKS * BLOCK_SIZE
    requires 0 < chars <= BLOCK_SIZE - pos % BLOCK_SIZE
    ensures pos / BLOCK_SIZE < MAX_BLOCKS && |Data(s, n, pos / BLOCK_SIZE)| == BLOCK_SIZE
    ensures forall q :: pos <= q < pos + chars ==>
      ByteAt(s, n, q) == Data(s, n, pos / BLOCK_SIZE)[pos % BLOCK_SIZE + q - pos]
  {
    forall q | pos <= q < pos + chars
      ensures ByteAt(s, n, q) == Data(s, n, pos / BLOCK_SIZE)[pos % BLOCK_SIZE + q - pos]
    {
      assert pos == 1024 * (pos / 1024) + pos % 1024;
      assert q / BLOCK_SIZE == pos / BLOCK_SIZE && q % BLOCK_SIZE == pos % BLOCK_SIZE + q - pos;
    }
  }

  lemma EntryAfterAlloc(s: State, n: nat, p: Path, b: nat)
    requires Inv(s) && Ref(s, n, p) && HasParent(p) && At(s, n, Parent(p)) != 0 && At(s, n, p) == 0
    requires InRange(s, b) && b !in s.used
    ensures At(s, n, Parent(p)) < s.nzones
    ensures var s' := LinkEntry(Alloc(s, b), At(s, n, Parent(p)), Index(p), b);
      Inv(s') && SameContents(s, s') && Grows(s, s', n) && At(s', n, p) == b
  {
    assert Ref(s, n, Parent(p)) && InRange(s, At(s, n, Parent(p)));
    AllocStep(s, {}, b);
    var s1 := Alloc(s, b);
    assert {} + {b} == {b} && {b} - {b} == {};
    LinkEntryStep(s1, {b}, n, p, b);
    Entered(s, s1, LinkEntry(s1, At(s, n, Parent(p)), Index(p), b), n, p, b);
  }

  /** new_block, then its number entered at p: what the caller of _bmap sees of the two. */
  lemma Entered(s0: State, s1: State, s2: State, n: nat, p: Path, b: nat)
    requires Shape(s0) && Shape(s1) && Shape(s2) && Ref(s0, n, p) && At(s0, n, p) == 0
    requires InvWith(s0, {}) && InRange(s0, b) && b !in s0.used && s1 == Alloc(s0, b)
    requires OnlyAt(s1, s2, n, p, b) && SameContents(s1, s2)
    ensures SameContents(s0, s2) && Grows(s0, s2, n)
  {
    AllocStep(s0, {}, b);
    SameContentsTrans(s0, s1, s2);
    forall n', p' | Ref(s0, n', p') && (n' != n || At(s0, n', p') != 0) ensures At(s2, n', p') == At(s0, n', p') {
      assert Ref(s1, n', p') && At(s1, n', p') == At(s0, n', p');
    }
  }

  lemma RowFull(z: seq<seq<bool>>, i: nat)
    requires i < |z| && |z[i]| == BITS && forall k :: 0 <= k < BITS ==> z[i][k]
    requires forall n: nat :: n < BITS * i ==> Bit(z, n)
    ensures forall n: nat :: n < BITS * (i + 1) ==> Bit(z, n)
  {
    forall n: nat | BITS * i <= n < BITS * (i + 1) ensures Bit(z, n) {
      assert n / 8192 == i;
    }
  }

  lemma FirstZeroBit(z: seq<seq<bool>>, i: nat, j: nat)
    requires i < |z| && |z[i]| == BITS && j < BITS && !z[i][j] && forall k :: 0 <= k < j ==> z[i][k]
    requires forall n: nat :: n < BITS * i ==> Bit(z, n)
    ensures !Bit(z, j + i * BITS) && forall n: nat :: n < j + i * BITS ==> Bit(z, n)
  {
    assert (j + i * 8192) / 8192 == i && (j + i * 8192) % 8192 == j;
    forall n: nat | BITS * i <= n < j + i * BITS ensures Bit(z, n) {
      assert n / 8192 == i && n % 8192 == n - i * 8192;
    }
  }

  lemma BitSet(z: seq<seq<bool>>, z': seq<seq<bool>>, i: nat, j: nat)
    requires i < |z| && |z[i]| == BITS && j < BITS && z' == z[i := z[i][j := true]]
    ensures forall n: nat :: Bit(z', n) <==> Bit(z, n) || n == j + i * BITS
  {
    assert (j + i * 8192) / 8192 == i && (j + i * 8192) % 8192 == j;
  }

  lemma UsedAfterSet(z: seq<seq<bool>>, z': seq<seq<bool>>, first: nat, nzones: nat, n: nat)
    requires first >= 1 && forall m: nat :: Bit(z', m) <==> Bit(z, m) || m == n
    ensures UsedZones(z', first, nzones)
         == UsedZones(z, first, nzones) + (if first <= n + first - 1 < nzones then {n + first - 1} else {})
  {
  }

  lemma UsedAfterClear(z: seq<seq<bool>>, z': seq<seq<bool>>, first: nat, nzones: nat, n: nat)
    requires first >= 1 && n >= 1 && n / BITS < |z| && |z[n / BITS]| == BITS
    requires z' == z[n / BITS := z[n / BITS][n % BITS := false]]
    ensures UsedZones(z', first, nzones) == UsedZones(z, first, nzones) - {n + first - 1}
  {
    assert n == 8192 * (n / 8192) + n % 8192;
    forall m: nat ensures Bit(z', m) <==> Bit(z, m) && m != n {
      assert m == 8192 * (m / 8192) + m % 8192;
    }
  }
}
