/** create_tables of fs/exec.c: argc and the argv and envp vectors below the strings, and the proof that
    a program which reads them gets back its arguments and its environment. */
module ExecTables {
  import opened ExecArgs

  const DATA_LIMIT: nat := 0x400_0000
  const BASE: nat := DATA_LIMIT - PAGE_SIZE * MAX_ARG_PAGES   // where page[0] goes

  /** User memory; a page that nobody has touched reads as zeros. */
  type Memory = map<nat, Byte>

  function ByteOf(m: Memory, a: nat): Byte { if a in m then m[a] else 0 }

  function GetLong(m: Memory, a: nat): nat {
    ByteOf(m, a) + 256 * ByteOf(m, a + 1) + 65536 * ByteOf(m, a + 2) + 16777216 * ByteOf(m, a + 3)
  }

  /** The number v at address a: four bytes, the lowest first. */
  ghost predicate LongBytes(m: Memory, a: nat, v: nat) {
    && v < 0x1_0000_0000 && ByteOf(m, a) == v % 256 && ByteOf(m, a + 1) == v / 256 % 256
    && ByteOf(m, a + 2) == v / 65536 % 256 && ByteOf(m, a + 3) == v / 16777216
  }

  /** What is read as a number stands there byte by byte. */
  lemma LongIs(m: Memory, a: nat)
    ensures LongBytes(m, a, GetLong(m, a))
  {
    FourBytes(ByteOf(m, a), ByteOf(m, a + 1), ByteOf(m, a + 2), ByteOf(m, a + 3));
  }

  lemma FourBytes(a: int, b: int, c: int, d: int)
    requires 0 <= a < 256 && 0 <= b < 256 && 0 <= c < 256 && 0 <= d < 256
    ensures var v := a + 256 * b + 65536 * c + 16777216 * d;
      && v < 0x1_0000_0000 && a == v % 256 && b == v / 256 % 256 && c == v / 65536 % 256 && d == v / 16777216
  {
    var v := a + 256 * b + 65536 * c + 16777216 * d;
    assert v / 256 == b + 256 * c + 65536 * d;
    assert v / 65536 == c + 256 * d;
    assert v / 16777216 == d;
  }

  /** The three words that a program finds at its stack pointer: argc, argv and envp. */
  ghost predicate HeaderBytes(m: Memory, sp: nat, argc: nat, ap: nat, ep: nat) {
    LongBytes(m, sp, argc) && LongBytes(m, sp + 4, ap) && LongBytes(m, sp + 8, ep)
  }

  lemma HeaderIs(m: Memory, sp: nat, argc: nat, ap: nat, ep: nat)
    requires GetLong(m, sp) == argc && GetLong(m, sp + 4) == ap && GetLong(m, sp + 8) == ep
    ensures HeaderBytes(m, sp, argc, ap, ep)
  {
    LongIs(m, sp);
    LongIs(m, sp + 4);
    LongIs(m, sp + 8);
  }

  /** put_fs_long */
  function PutLong(m: Memory, a: nat, v: nat): Memory
    requires v < 0x1_0000_0000
  {
    m[a := v % 256][a + 1 := v / 256 % 256][a + 2 := v / 65536 % 256][a + 3 := v / 16777216]
  }

  lemma LongStored(m: Memory, a: nat, v: nat)
    requires v < 0x1_0000_0000
    ensures GetLong(PutLong(m, a, v), a) == v
    ensures SameOutside(m, PutLong(m, a, v), a, a + 4)
  {
    assert v == v % 256 + 256 * (v / 256) && v / 256 == v / 256 % 256 + 256 * (v / 256 / 256);
    assert v / 256 / 256 == v / 65536 && v / 65536 == v / 65536 % 256 + 256 * (v / 65536 / 256);
    assert v / 65536 / 256 == v / 16777216;
  }

  /** The string s with its 0 starts at a. */
  ghost predicate StringAt(m: Memory, a: nat, s: Str) {
    (forall k :: 0 <= k < |s| ==> ByteOf(m, a + k) == s[k]) && ByteOf(m, a + |s|) == 0
  }

  /** A zero-terminated vector of pointers to the strings, which stand at `low` or above. */
  ghost predicate VectorAt(m: Memory, t: nat, strs: seq<Str>, low: nat) {
    (forall k :: 0 <= k < |strs| ==> PointerAt(m, t + 4 * k, strs[k], low)) && GetLong(m, t + 4 * |strs|) == 0
  }

  ghost predicate PointerAt(m: Memory, a: nat, s: Str, low: nat) {
    GetLong(m, a) >= low && StringAt(m, GetLong(m, a), s)
  }

  ghost predicate AllNulFree(strs: seq<Str>) { forall k :: 0 <= k < |strs| ==> NulFree(strs[k]) }

  ghost function CharOf(s: Str, k: nat): Byte { if k < |s| then s[k] else 1 }

  lemma CharNonZero(s: Str, k: nat)
    requires NulFree(s)
    ensures CharOf(s, k) != 0
  {
  }

  /** A string without 0 can be read in one way only. */
  lemma OneString(m: Memory, a: nat, s: Str, t: Str)
    requires StringAt(m, a, s) && StringAt(m, a, t) && NulFree(s) && NulFree(t)
    ensures s == t
  {
    CharNonZero(s, |t|);
    CharNonZero(t, |s|);
  }

  /** So can a vector: what the new program parses is the list it was given. */
  lemma OneVector(m: Memory, t: nat, a: seq<Str>, b: seq<Str>, low: nat)
    requires VectorAt(m, t, a, low) && VectorAt(m, t, b, low) && AllNulFree(a) && AllNulFree(b) && low > 0
    ensures a == b
  {
    assert |a| >= |b| || PointerAt(m, t + 4 * |a|, b[|a|], low);
    assert |b| >= |a| || PointerAt(m, t + 4 * |b|, a[|b|], low);
    forall k | 0 <= k < |a| ensures a[k] == b[k] {
      assert PointerAt(m, t + 4 * k, a[k], low) && PointerAt(m, t + 4 * k, b[k], low);
      OneString(m, GetLong(m, t + 4 * k), a[k], b[k]);
    }
  }

  ghost predicate TextAt(m: Memory, a: nat, text: seq<Byte>) {
    forall k :: 0 <= k < |text| ==> ByteOf(m, a + k) == text[k]
  }

  lemma TextParts(m: Memory, a: nat, x: seq<Byte>, y: seq<Byte>)
    requires TextAt(m, a, x + y)
    ensures TextAt(m, a, x) && TextAt(m, a + |x|, y)
  {
    forall k | 0 <= k < |x| ensures ByteOf(m, a + k) == x[k] {
      assert (x + y)[k] == x[k];
    }
    forall k | 0 <= k < |y| ensures ByteOf(m, a + |x| + k) == y[k] {
      assert (x + y)[|x| + k] == y[k] && ByteOf(m, a + (|x| + k)) == (x + y)[|x| + k];
    }
  }

  lemma FirstString(m: Memory, a: nat, strs: seq<Str>, i: nat, rest: seq<Byte>)
    requires i < |strs| && TextAt(m, a, Flat(strs[i..]) + rest)
    ensures StringAt(m, a, strs[i]) && TextAt(m, a + |strs[i]| + 1, Flat(strs[i + 1..]) + rest)
    ensures |Flat(strs[i..])| == |strs[i]| + 1 + |Flat(strs[i + 1..])|
  {
    FlatSnoc(strs, i);
    var x, y := strs[i] + [0], Flat(strs[i + 1..]) + rest;
    assert Flat(strs[i..]) + rest == x + y;
    TextParts(m, a, x, y);
    assert forall k :: 0 <= k < |strs[i]| ==> x[k] == strs[i][k];
    assert x[|strs[i]|] == 0;
  }

  lemma {:induction false} CountsFit(strs: seq<Str>)
    ensures |strs| <= |Flat(strs)|
  {
    if strs != [] { CountsFit(strs[1..]); }
  }

  /** Only bytes of [low, high) differ. */
  ghost predicate SameOutside(m: Memory, m': Memory, low: nat, high: nat) {
    forall b: nat :: b < low || high <= b ==> ByteOf(m', b) == ByteOf(m, b)
  }

  lemma OutsideTrans(m: Memory, m1: Memory, m2: Memory, low: nat, high: nat, l1: nat, h1: nat, l2: nat, h2: nat)
    requires SameOutside(m, m1, l1, h1) && SameOutside(m1, m2, l2, h2)
    requires low <= l1 && h1 <= high && low <= l2 && h2 <= high
    ensures SameOutside(m, m2, low, high)
  {
    forall b: nat | b < low || high <= b ensures ByteOf(m2, b) == ByteOf(m, b) {
      assert ByteOf(m1, b) == ByteOf(m, b);
    }
  }

  lemma LongKept(m: Memory, m': Memory, a: nat, low: nat, high: nat)
    requires SameOutside(m, m', low, high) && (a + 4 <= low || high <= a)
    ensures GetLong(m', a) == GetLong(m, a)
  {
  }

  lemma FromHigh(m: Memory, m': Memory, low: nat, high: nat, a: nat)
    requires SameOutside(m, m', low, high) && high <= a
    ensures SameFrom(m, m', a)
  {
  }

  ghost predicate SameFrom(m: Memory, m': Memory, a: nat) { forall b: nat :: a <= b ==> ByteOf(m', b) == ByteOf(m, b) }

  lemma VectorKept(m: Memory, m': Memory, t: nat, strs: seq<Str>, n: nat, low: nat, l: nat, h: nat)
    requires n <= |strs| && SameOutside(m, m', l, h) && (h <= t || t + 4 * n <= l) && h <= low
    requires forall k :: 0 <= k < n ==> PointerAt(m, t + 4 * k, strs[k], low)
    ensures forall k :: 0 <= k < n ==> PointerAt(m', t + 4 * k, strs[k], low)
  {
    forall k | 0 <= k < n ensures PointerAt(m', t + 4 * k, strs[k], low) {
      var a, s := t + 4 * k, strs[k];
      assert PointerAt(m, a, s, low);
      LongKept(m, m', a, l, h);
      var q := GetLong(m, a);
      forall j | 0 <= j < |s| ensures ByteOf(m', q + j) == s[j] {
        assert ByteOf(m', q + j) == ByteOf(m, q + j);
      }
      assert ByteOf(m', q + |s|) == ByteOf(m, q + |s|);
    }
  }

  lemma TextKept(m: Memory, m': Memory, a: nat, text: seq<Byte>, l: nat, h: nat)
    requires TextAt(m, a, text) && SameOutside(m, m', l, h) && h <= a
    ensures TextAt(m', a, text)
  {
    forall k | 0 <= k < |text| ensures ByteOf(m', a + k) == text[k] {
      assert ByteOf(m', a + k) == ByteOf(m, a + k);
    }
  }

  /** What follows the first text is still there after a store below both. */
  lemma SecondText(m: Memory, m': Memory, a: nat, x: seq<Byte>, y: seq<Byte>, l: nat, h: nat, p: nat)
    requires TextAt(m, a, x + y) && SameOutside(m, m', l, h) && h <= a && p == a + |x|
    ensures TextAt(m', p, y + []) && p + |y + []| == a + |x + y|
  {
    TextKept(m, m', a, x + y, l, h);
    assert y + [] == y;
    TextParts(m', a, x, y);
  }

  /** Byte j of argument page i stands 32 - i pages below the end of the 64 MB. */
  ghost predicate PageByte(m: Memory, page: seq<Slot>, i: nat, j: nat)
    requires PagesOk(page) && i < 32 && j < 4096
  {
    ByteOf(m, 0x3fe_0000 + 4096 * i + j) == if page[i].Present? then page[i].bytes[j] else 0
  }

  lemma AllPlaced(m: Memory, page: seq<Slot>)
    requires PagesOk(page) && forall q: nat :: q < DATA_LIMIT - BASE ==> ByteOf(m, BASE + q) == At(page, q)
    ensures forall i: nat, j: nat :: i < 32 && j < 4096 ==> PageByte(m, page, i, j)
  {
    forall i: nat, j: nat | i < 32 && j < 4096 ensures PageByte(m, page, i, j) {
      var q: nat := 4096 * i + j;
      assert q / 4096 == i && q % 4096 == j;
      assert ByteOf(m, BASE + q) == At(page, q);
    }
  }

  class Stack {
    var mem: Memory

    constructor (m: Memory)
      ensures mem == m
    {
      mem := m;
    }

    method PutFsLong(v: nat, a: nat)
      requires v < 0x1_0000_0000
      modifies this
      ensures mem == PutLong(old(mem), a, v) && GetLong(mem, a) == v && SameOutside(old(mem), mem, a, a + 4)
    {
      LongStored(mem, a, v);
      mem := PutLong(mem, a, v);
    }

    /** The loop of create_tables that looks for the end of a string. */
    method SkipString(start: nat, ghost s: Str) returns (p: nat)
      requires StringAt(mem, start, s) && NulFree(s)
      ensures p == start + |s| + 1
    {
      p := start;
      ghost var k := 0;
      while ByteOf(mem, p) != 0
        invariant k <= |s| && p == start + k
        decreases |s| - k
      {
        p := p + 1;
        k := k + 1;
      }
      assert k < |s| ==> s[k] == 0;
      p := p + 1;
    }

    /** One round: the pointer to string i, and p moves behind the string. */
    method PutPointer(p0: nat, t: nat, ghost t0: nat, ghost strs: seq<Str>, ghost i: nat, ghost rest: seq<Byte>,
                      ghost low: nat)
      returns (p: nat)
      requires i < |strs| && NulFree(strs[i]) && t == t0 + 4 * i && t + 4 <= low <= p0 < 0x1_0000_0000
      requires TextAt(mem, p0, Flat(strs[i..]) + rest)
      requires forall k :: 0 <= k < i ==> PointerAt(mem, t0 + 4 * k, strs[k], low)
      modifies this
      ensures forall k :: 0 <= k <= i ==> PointerAt(mem, t0 + 4 * k, strs[k], low)
      ensures TextAt(mem, p, Flat(strs[i + 1..]) + rest) && p == p0 + |strs[i]| + 1
      ensures |Flat(strs[i..])| == |strs[i]| + 1 + |Flat(strs[i + 1..])|
      ensures SameOutside(old(mem), mem, t, t + 4)
    {
      ghost var before := mem;
      PutFsLong(p0, t);
      VectorKept(before, mem, t0, strs, i, low, t, t + 4);
      TextKept(before, mem, p0, Flat(strs[i..]) + rest, t, t + 4);
      FirstString(mem, p0, strs, i, rest);
      assert PointerAt(mem, t, strs[i], low);
      p := SkipString(p0, strs[i]);
    }

    /** One of the two loops: the pointers to the strings that start at p, and the 0 behind them. */
    method PutVector(p0: nat, t0: nat, strs: seq<Str>, ghost rest: seq<Byte>, ghost low: nat) returns (p: nat)
      requires AllNulFree(strs) && t0 + 4 * (|strs| + 1) <= low <= p0 && 0 < low
      requires p0 + |Flat(strs) + rest| < 0x1_0000_0000 && TextAt(mem, p0, Flat(strs) + rest)
      modifies this
      ensures VectorAt(mem, t0, strs, low) && p == p0 + |Flat(strs)|
      ensures SameOutside(old(mem), mem, t0, t0 + 4 * (|strs| + 1))
    {
      ghost var m := mem;
      var argc, t := |strs|, t0;
      p := p0;
      ghost var i := 0;
      assert strs[0..] == strs;
      while argc > 0
        invariant i <= |strs| && argc == |strs| - i && t == t0 + 4 * i
        invariant p + |Flat(strs[i..])| == p0 + |Flat(strs)| && p0 <= p && TextAt(mem, p, Flat(strs[i..]) + rest)
        invariant forall k :: 0 <= k < i ==> PointerAt(mem, t0 + 4 * k, strs[k], low)
        invariant SameOutside(m, mem, t0, t)
      {
        ghost var before := mem;
        p := PutPointer(p, t, t0, strs, i, rest, low);
        OutsideTrans(m, before, mem, t0, t + 4, t0, t, t, t + 4);
        t := t + 4;
        argc := argc - 1;
        i := i + 1;
      }
      ghost var before := mem;
      PutFsLong(0, t);
      VectorKept(before, mem, t0, strs, i, low, t, t + 4);
      OutsideTrans(m, before, mem, t0, t + 4, t0, t, t, t + 4);
      assert strs[i..] == [];
    }

    /** create_tables.  The tables stay below the strings. */
    method CreateTables(start: nat, argv: seq<Str>, envp: seq<Str>) returns (sp: nat, ap: nat, ep: nat)
      requires AllNulFree(argv) && AllNulFree(envp) && BASE < start && start + |Flat(argv) + Flat(envp)| <= DATA_LIMIT
      requires TextAt(mem, start, Flat(argv) + Flat(envp))
      modifies this
      ensures sp % 4 == 0 && ap == sp + 12 && ep == ap + 4 * (|argv| + 1) && ep + 4 * (|envp| + 1) <= start
      ensures SameFrom(old(mem), mem, start)
      ensures GetLong(mem, sp) == |argv|
      ensures GetLong(mem, sp + 4) == ap && VectorAt(mem, ap, argv, start)
      ensures GetLong(mem, sp + 8) == ep && VectorAt(mem, ep, envp, start)
    {
      CountsFit(argv);
      CountsFit(envp);
      ghost var m, text := mem, Flat(argv) + Flat(envp);
      sp := 4 * (start / 4);
      sp := sp - 4 * (|envp| + 1);
      ep := sp;
      sp := sp - 4 * (|argv| + 1);
      ap := sp;
      sp := PutHeader(sp, |argv|, ap, ep);
      Aligned(start, |argv|, |envp|, sp, ap, ep);
      TextKept(m, mem, start, text, sp, ap);
      ghost var m1 := mem;
      var p := PutVector(start, ap, argv, Flat(envp), start);
      SecondText(m1, mem, start, Flat(argv), Flat(envp), ap, ep, p);
      ghost var m2 := mem;
      p := PutVector(p, ep, envp, [], start);
      TablesDone(m, m1, m2, mem, sp, ap, ep, ep + 4 * (|envp| + 1), argv, envp, start);
    }

    /** change_ldt: the new data segment is empty but for the argument pages at its end. */
    method ChangeLdt(page: seq<Slot>)
      requires PagesOk(page)
      modifies this
      ensures forall q: nat :: q < DATA_LIMIT - BASE ==> ByteOf(mem, BASE + q) == At(page, q)
      ensures forall i: nat, j: nat :: i < 32 && j < 4096 ==> PageByte(mem, page, i, j)
    {
      mem := map[];
      var base := DATA_LIMIT;
      var i := MAX_ARG_PAGES;
      while i > 0
        invariant 0 <= i <= MAX_ARG_PAGES && base == BASE + PAGE_SIZE * i
        invariant forall a :: a in mem ==> base <= a
        invariant forall q: nat :: PAGE_SIZE * i <= q < DATA_LIMIT - BASE ==> ByteOf(mem, BASE + q) == At(page, q)
      {
        i := i - 1;
        base := base - PAGE_SIZE;
        ghost var m := mem;
        if page[i].Present? {
          mem := PutPage(mem, base, page[i].bytes);
        }
        PagePlaced(m, page, i);
      }
      AllPlaced(mem, page);
    }

    /** envp, argv and argc are pushed. */
    method PutHeader(top: nat, argc: nat, ap: nat, ep: nat) returns (sp: nat)
      requires top >= 12 && argc < 0x1_0000_0000 && ap < 0x1_0000_0000 && ep < 0x1_0000_0000
      modifies this
      ensures sp == top - 12 && SameOutside(old(mem), mem, sp, top)
      ensures GetLong(mem, sp) == argc && GetLong(mem, sp + 4) == ap && GetLong(mem, sp + 8) == ep
    {
      HeaderStored(mem, top, argc, ap, ep);
      sp := top - 4;
      PutFsLong(ep, sp);
      sp := sp - 4;
      PutFsLong(ap, sp);
      sp := sp - 4;
      PutFsLong(argc, sp);
    }
  }

  lemma HeaderStored(m: Memory, top: nat, argc: nat, ap: nat, ep: nat)
    requires top >= 12 && argc < 0x1_0000_0000 && ap < 0x1_0000_0000 && ep < 0x1_0000_0000
    ensures var m3 := PutLong(PutLong(PutLong(m, top - 4, ep), top - 8, ap), top - 12, argc);
      && SameOutside(m, m3, top - 12, top)
      && GetLong(m3, top - 12) == argc && GetLong(m3, top - 8) == ap && GetLong(m3, top - 4) == ep
  {
    var m1 := PutLong(m, top - 4, ep);
    var m2 := PutLong(m1, top - 8, ap);
    var m3 := PutLong(m2, top - 12, argc);
    LongStored(m, top - 4, ep);
    LongStored(m1, top - 8, ap);
    LongStored(m2, top - 12, argc);
    LongKept(m1, m2, top - 4, top - 8, top - 4);
    LongKept(m2, m3, top - 4, top - 12, top - 8);
    LongKept(m2, m3, top - 8, top - 12, top - 8);
    OutsideTrans(m, m1, m2, top - 8, top, top - 4, top, top - 8, top - 4);
    OutsideTrans(m, m2, m3, top - 12, top, top - 8, top, top - 12, top - 8);
  }

  /** What the three writes of create_tables add up to. */
  lemma TablesDone(m: Memory, m1: Memory, m2: Memory, m3: Memory, sp: nat, ap: nat, ep: nat, end: nat,
                   argv: seq<Str>, envp: seq<Str>, start: nat)
    requires ap == sp + 12 && ep == ap + 4 * (|argv| + 1) && end == ep + 4 * (|envp| + 1) <= start
    requires SameOutside(m, m1, sp, ap) && SameOutside(m1, m2, ap, ep) && SameOutside(m2, m3, ep, end)
    requires VectorAt(m2, ap, argv, start)
    ensures SameFrom(m, m3, start) && VectorAt(m3, ap, argv, start)
    ensures GetLong(m3, sp) == GetLong(m1, sp)
    ensures GetLong(m3, sp + 4) == GetLong(m1, sp + 4) && GetLong(m3, sp + 8) == GetLong(m1, sp + 8)
  {
    VectorKept(m2, m3, ap, argv, |argv|, start, ep, end);
    LongKept(m2, m3, ap + 4 * |argv|, ep, end);
    OutsideTrans(m1, m2, m3, ap, end, ap, ep, ep, end);
    HeaderKept(m1, m3, sp, ap, end);
    OutsideTrans(m, m1, m3, sp, end, sp, ap, ap, end);
    FromHigh(m, m3, sp, end, start);
  }

  lemma Aligned(start: nat, argc: nat, envc: nat, sp: int, ap: int, ep: int)
    requires ep == 4 * (start / 4) - 4 * (envc + 1) && ap == ep - 4 * (argc + 1) && sp == ap - 12
    ensures sp % 4 == 0 && ap == sp + 12 && ep == ap + 4 * (argc + 1) && ep + 4 * (envc + 1) <= start
  {
    assert sp == 4 * (start / 4 - envc - argc - 5);
  }

  lemma HeaderKept(m: Memory, m': Memory, sp: nat, low: nat, high: nat)
    requires SameOutside(m, m', low, high) && sp + 12 <= low
    ensures GetLong(m', sp) == GetLong(m, sp)
    ensures GetLong(m', sp + 4) == GetLong(m, sp + 4) && GetLong(m', sp + 8) == GetLong(m, sp + 8)
  {
    LongKept(m, m', sp, low, high);
    LongKept(m, m', sp + 4, low, high);
    LongKept(m, m', sp + 8, low, high);
  }

  /** put_page at address a */
  function PutPage(m: Memory, a: nat, bytes: seq<Byte>): Memory {
    m + map b: nat | a <= b < a + |bytes| && Inside(a, |bytes|, b) :: bytes[b - a]
  }

  predicate Inside(a: nat, n: nat, b: nat) { a <= b < a + n }

  lemma PagePlaced(m: Memory, page: seq<Slot>, i: nat)
    requires PagesOk(page) && i < MAX_ARG_PAGES && forall a :: a in m ==> BASE + PAGE_SIZE * (i + 1) <= a
    requires forall q: nat :: PAGE_SIZE * (i + 1) <= q < DATA_LIMIT - BASE ==> ByteOf(m, BASE + q) == At(page, q)
    ensures var m' := if page[i].Present? then PutPage(m, BASE + PAGE_SIZE * i, page[i].bytes) else m;
      && (forall a :: a in m' ==> BASE + PAGE_SIZE * i <= a)
      && forall q: nat :: PAGE_SIZE * i <= q < DATA_LIMIT - BASE ==> ByteOf(m', BASE + q) == At(page, q)
  {
    var m' := if page[i].Present? then PutPage(m, BASE + PAGE_SIZE * i, page[i].bytes) else m;
    forall q: nat | PAGE_SIZE * i <= q < DATA_LIMIT - BASE ensures ByteOf(m', BASE + q) == At(page, q) {
      if q < PAGE_SIZE * (i + 1) {
        assert q / PAGE_SIZE == i && q % PAGE_SIZE == q - PAGE_SIZE * i;
      } else {
        assert ByteOf(m, BASE + q) == At(page, q);
      }
    }
  }

  /** do_execve's stack, from the caller's strings to the new program's: with NUL-free strings that fit, what
      the program reads through the tables at its stack pointer is what the caller gave. */
  method NewStack(argv: seq<Str>, envp: seq<Str>, frames: nat) returns (r: Result, s: Stack, sp: nat, ap: nat, ep: nat)
    requires AllNulFree(argv) && AllNulFree(envp) && Sane(argv) && Sane(envp)
    ensures r.Ready? <==> Fits(argv, envp) && frames >= MAX_ARG_PAGES - Lowest(TOP - |Flat(argv)| - |Flat(envp)|)
    ensures r == Crashed <==> Derails(argv, envp, frames)
    ensures r.Ready? ==> GetLong(s.mem, sp) == |argv|
    ensures r.Ready? ==> HeaderBytes(s.mem, sp, |argv|, ap, ep)
    ensures r.Ready? ==> GetLong(s.mem, sp + 4) == ap && VectorAt(s.mem, ap, argv, BASE + r.p)
    ensures r.Ready? ==> GetLong(s.mem, sp + 8) == ep && VectorAt(s.mem, ep, envp, BASE + r.p)
    ensures r.Ready? ==> sp + 12 == ap < ep && ep + 4 * |envp| < BASE + r.p
  {
    var e := new Exec(frames);
    r := e.PrepareArgs(argv, envp);
    sp, ap, ep := 0, 0, 0;
    if r.Ready? {
      s, sp, ap, ep := PlaceStack(e.page[..], r.p, argv, envp);
    } else {
      s := new Stack(map[]);
    }
  }

  /** The argument pages go to the end of the segment, the tables below the strings. */
  method PlaceStack(page: seq<Slot>, p: nat, argv: seq<Str>, envp: seq<Str>)
    returns (s: Stack, sp: nat, ap: nat, ep: nat)
    requires AllNulFree(argv) && AllNulFree(envp) && PagesOk(page)
    requires 0 < p && p + |Flat(argv) + Flat(envp)| <= TOP && Holds(page, p, Flat(argv) + Flat(envp))
    ensures GetLong(s.mem, sp) == |argv|
    ensures HeaderBytes(s.mem, sp, |argv|, ap, ep)
    ensures GetLong(s.mem, sp + 4) == ap && VectorAt(s.mem, ap, argv, BASE + p)
    ensures GetLong(s.mem, sp + 8) == ep && VectorAt(s.mem, ep, envp, BASE + p)
    ensures sp + 12 == ap < ep && ep + 4 * |envp| < BASE + p
  {
    s := new Stack(map[]);
    s.ChangeLdt(page);
    PlacedText(s.mem, page, p, Flat(argv) + Flat(envp));
    sp, ap, ep := s.CreateTables(BASE + p, argv, envp);
    HeaderIs(s.mem, sp, |argv|, ap, ep);
  }

  lemma PlacedText(m: Memory, page: seq<Slot>, p: nat, text: seq<Byte>)
    requires Holds(page, p, text) && p + |text| <= DATA_LIMIT - BASE
    requires forall q: nat :: q < DATA_LIMIT - BASE ==> ByteOf(m, BASE + q) == At(page, q)
    ensures TextAt(m, BASE + p, text)
  {
    forall k | 0 <= k < |text| ensures ByteOf(m, BASE + p + k) == text[k] {
      assert ByteOf(m, BASE + (p + k)) == At(page, p + k);
    }
  }
}
