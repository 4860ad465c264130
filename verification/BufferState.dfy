/** The buffer heads of fs/buffer.c, the hash table and the free list as a value.  A buffer is its
    index in start_buffer; -1 stands for NULL. */
module BufferState {

  const NR_HASH: nat := 307
  const NULL: int := -1

  datatype Head = Head(dev: nat, block: nat, uptodate: bool, dirt: bool, count: nat, lock: bool,
                       next: int, prev: int, nextFree: int, prevFree: int)

  /** `^` on the bits of two numbers */
  function Xor(a: nat, b: nat): nat
    decreases a + b
  {
    if a == 0 && b == 0 then 0
    else (if a % 2 == b % 2 then 0 else 1) + 2 * Xor(a / 2, b / 2)
  }

  function HashFn(dev: nat, block: nat): (h: nat)
    ensures h < NR_HASH
  {
    Xor(dev, block) % NR_HASH
  }

  /** `free` is free_list; `order` is the circular free list read from there, and `chains` are the
      hash chains read from their heads: what the links are proved to spell. */
  datatype State = State(buf: seq<Head>, hash: seq<int>, free: int, order: seq<int>, chains: seq<seq<int>>)

  ghost predicate Distinct(s: seq<int>) {
    forall i, j :: 0 <= i < j < |s| ==> s[i] != s[j]
  }

  ghost predicate Indices(s: seq<int>, n: nat) {
    forall i :: 0 <= i < |s| ==> 0 <= s[i] < n
  }

  function After(s: seq<int>, i: int): int
    requires 0 <= i < |s|
  {
    if i + 1 < |s| then s[i + 1] else NULL
  }

  function Before(s: seq<int>, i: int): int
    requires 0 <= i < |s|
  {
    if i > 0 then s[i - 1] else NULL
  }

  /** b_next and b_prev spell the chain c from its head. */
  ghost predicate ChainOk(buf: seq<Head>, c: seq<int>, head: int) {
    && Distinct(c) && Indices(c, |buf|)
    && head == (if c == [] then NULL else c[0])
    && (forall i :: 0 <= i < |c| ==> Chained(buf, c, i))
  }

  ghost predicate Chained(buf: seq<Head>, c: seq<int>, i: int)
    requires 0 <= i < |c|
  {
    0 <= c[i] < |buf| && buf[c[i]].next == After(c, i) && buf[c[i]].prev == Before(c, i)
  }

  /** b_next_free and b_prev_free spell the circle `order` from free_list. */
  ghost predicate CircleOk(buf: seq<Head>, order: seq<int>, free: int) {
    && Distinct(order) && Indices(order, |buf|) && order != []
    && free == order[0]
    && (forall i :: 0 <= i < |order| ==> Circled(buf, order, i))
  }

  function Round(n: int, i: int): int { if i + 1 < n then i + 1 else 0 }
  function Back(n: int, i: int): int { if i > 0 then i - 1 else n - 1 }

  ghost predicate Circled(buf: seq<Head>, order: seq<int>, i: int)
    requires 0 <= i < |order|
  {
    && 0 <= order[i] < |buf|
    && buf[order[i]].nextFree == order[Round(|order|, i)]
    && buf[order[i]].prevFree == order[Back(|order|, i)]
  }

  ghost predicate Hashed(s: State, b: int) {
    0 <= b < |s.buf| && b in s.order && s.buf[b].dev != 0
  }

  ghost predicate Lists(s: State) {
    && |s.hash| == NR_HASH && |s.chains| == NR_HASH
    && CircleOk(s.buf, s.order, s.free)
    && (forall h :: 0 <= h < NR_HASH ==> ChainOk(s.buf, s.chains[h], s.hash[h]))
    && (forall h, b :: 0 <= h < NR_HASH && b in s.chains[h] ==>
          Hashed(s, b) && HashFn(s.buf[b].dev, s.buf[b].block) == h)
    && (forall b :: Hashed(s, b) ==> b in s.chains[HashFn(s.buf[b].dev, s.buf[b].block)])
    && (forall b :: 0 <= b < |s.buf| && b in s.order && s.buf[b].dev == 0 ==>
          s.buf[b].next == NULL && s.buf[b].prev == NULL)
  }

  /** At most one hashed buffer carries a block. */
  ghost predicate Unique(s: State) {
    forall b, c ::
      Hashed(s, b) && Hashed(s, c) && s.buf[b].dev == s.buf[c].dev && s.buf[b].block == s.buf[c].block ==> b == c
  }

  ghost predicate Inv(s: State) { Lists(s) && Unique(s) }

  // ---------------------------------------------------------------- one list

  function Without(s: seq<int>, k: int): seq<int>
    requires 0 <= k < |s|
  {
    s[..k] + s[k + 1..]
  }

  lemma WithoutFacts(s: seq<int>, k: int)
    requires 0 <= k < |s| && Distinct(s)
    ensures Distinct(Without(s, k)) && s[k] !in Without(s, k)
    ensures forall b :: b in Without(s, k) <==> b in s && b != s[k]
  {
    forall b | b in s && b != s[k] ensures b in Without(s, k) {
      var i :| 0 <= i < |s| && s[i] == b;
      assert Without(s, k)[if i < k then i else i - 1] == b;
    }
  }

  lemma WithoutIndices(s: seq<int>, k: int, n: nat)
    requires 0 <= k < |s| && Indices(s, n)
    ensures Indices(Without(s, k), n)
  {
  }

  /** The hash part of remove_from_queues on the links of one chain. */
  function Unchain(buf: seq<Head>, b: int): (r: seq<Head>)
    requires 0 <= b < |buf| && -1 <= buf[b].next < |buf| && -1 <= buf[b].prev < |buf|
    ensures |r| == |buf|
  {
    var n, p := buf[b].next, buf[b].prev;
    var buf1 := if n != NULL then buf[n := buf[n].(prev := p)] else buf;
    if p != NULL then buf1[p := buf1[p].(next := n)] else buf1
  }

  /** Element i of the shortened list was element Old(k, i). */
  function Old(k: int, i: int): int { if i < k then i else i + 1 }

  lemma NeighboursWithout(s: seq<int>, k: int, i: int)
    requires 0 <= k < |s| && 0 <= i < |s| - 1
    ensures Without(s, k)[i] == s[Old(k, i)]
    ensures After(Without(s, k), i) == After(s, if Old(k, i) == k - 1 then k else Old(k, i))
    ensures Before(Without(s, k), i) == Before(s, if Old(k, i) == k + 1 then k else Old(k, i))
  {
  }

  lemma UnchainAt(buf: seq<Head>, c: seq<int>, head: int, k: int, i: int)
    requires ChainOk(buf, c, head) && 0 <= k < |c| && 0 <= i < |c| - 1
    ensures -1 <= buf[c[k]].next < |buf| && -1 <= buf[c[k]].prev < |buf|
    ensures Chained(Unchain(buf, c[k]), Without(c, k), i)
  {
    var j := Old(k, i);
    assert Chained(buf, c, k) && Chained(buf, c, j);
    assert c[j] == After(c, k) <==> j == k + 1;
    assert c[j] == Before(c, k) <==> j == k - 1;
    NeighboursWithout(c, k, i);
  }

  lemma UnchainStep(buf: seq<Head>, c: seq<int>, head: int, k: int)
    requires ChainOk(buf, c, head) && 0 <= k < |c|
    ensures -1 <= buf[c[k]].next < |buf| && -1 <= buf[c[k]].prev < |buf|
    ensures ChainOk(Unchain(buf, c[k]), Without(c, k), if head == c[k] then buf[c[k]].next else head)
    ensures forall b :: 0 <= b < |buf| && b !in c ==> Unchain(buf, c[k])[b] == buf[b]
  {
    WithoutFacts(c, k);
    WithoutIndices(c, k, |buf|);
    assert Chained(buf, c, k);
    forall i | 0 <= i < |c| - 1 ensures Chained(Unchain(buf, c[k]), Without(c, k), i) {
      UnchainAt(buf, c, head, k, i);
    }
    assert head == c[k] <==> k == 0;
  }

  /** The free-list part of remove_from_queues. */
  function Uncircle(buf: seq<Head>, b: int): (r: seq<Head>)
    requires 0 <= b < |buf| && 0 <= buf[b].nextFree < |buf| && 0 <= buf[b].prevFree < |buf|
    ensures |r| == |buf|
  {
    var n, p := buf[b].nextFree, buf[b].prevFree;
    var buf1 := buf[p := buf[p].(nextFree := n)];
    buf1[n := buf1[n].(prevFree := p)]
  }

  lemma UncircleFields(buf: seq<Head>, b: int, x: int)
    requires 0 <= b < |buf| && 0 <= buf[b].nextFree < |buf| && 0 <= buf[b].prevFree < |buf| && 0 <= x < |buf|
    ensures Uncircle(buf, b)[x].nextFree == if x == buf[b].prevFree then buf[b].nextFree else buf[x].nextFree
    ensures Uncircle(buf, b)[x].prevFree == if x == buf[b].nextFree then buf[b].prevFree else buf[x].prevFree
  {
  }

  /** The neighbours of the elements that stay. */
  lemma RoundWithout(order: seq<int>, k: int, i: int)
    requires 0 <= k < |order| && 0 <= i < |order| - 1
    ensures var n, j, o' := |order|, Old(k, i), Without(order, k);
      && o'[i] == order[j]
      && o'[Round(n - 1, i)] == order[if j == Back(n, k) then Round(n, k) else Round(n, j)]
      && o'[Back(n - 1, i)] == order[if j == Round(n, k) then Back(n, k) else Back(n, j)]
  {
    var n, j := |order|, Old(k, i);
    assert Old(k, Round(n - 1, i)) == if j == Back(n, k) then Round(n, k) else Round(n, j);
    assert Old(k, Back(n - 1, i)) == if j == Round(n, k) then Back(n, k) else Back(n, j);
    NeighboursWithout(order, k, Round(n - 1, i));
    NeighboursWithout(order, k, Back(n - 1, i));
  }

  lemma UncircleAt(buf: seq<Head>, order: seq<int>, free: int, k: int, i: int)
    requires CircleOk(buf, order, free) && 0 <= k < |order| && 0 <= i < |order| - 1
    ensures 0 <= buf[order[k]].nextFree < |buf| && 0 <= buf[order[k]].prevFree < |buf|
    ensures Circled(Uncircle(buf, order[k]), Without(order, k), i)
  {
    var n, j := |order|, Old(k, i);
    assert Circled(buf, order, k) && Circled(buf, order, j);
    RoundWithout(order, k, i);
    UncircleFields(buf, order[k], order[j]);
    assert order[j] == order[Round(n, k)] <==> j == Round(n, k);
    assert order[j] == order[Back(n, k)] <==> j == Back(n, k);
  }

  lemma UncircleStep(buf: seq<Head>, order: seq<int>, free: int, k: int)
    requires CircleOk(buf, order, free) && 0 <= k < |order| && |order| >= 2
    ensures 0 <= buf[order[k]].nextFree < |buf| && 0 <= buf[order[k]].prevFree < |buf|
    ensures CircleOk(Uncircle(buf, order[k]), Without(order, k),
                     if free == order[k] then buf[order[k]].nextFree else free)
    ensures forall b :: 0 <= b < |buf| && b !in order ==> Uncircle(buf, order[k])[b] == buf[b]
  {
    WithoutFacts(order, k);
    WithoutIndices(order, k, |buf|);
    assert Circled(buf, order, k);
    forall i | 0 <= i < |order| - 1 ensures Circled(Uncircle(buf, order[k]), Without(order, k), i) {
      UncircleAt(buf, order, free, k, i);
    }
    assert free == order[k] <==> k == 0;
  }

  /** The free-list part of insert_into_queues: b goes to the end. */
  function Encircle(buf: seq<Head>, b: int, free: int): (r: seq<Head>)
    requires 0 <= b < |buf| && 0 <= free < |buf| && 0 <= buf[free].prevFree < |buf| && free != b
    ensures |r| == |buf|
  {
    var last := buf[free].prevFree;
    var buf1 := buf[b := buf[b].(nextFree := free, prevFree := last)];
    var buf2 := buf1[last := buf1[last].(nextFree := b)];
    buf2[free := buf2[free].(prevFree := b)]
  }

  lemma EncircleStep(buf: seq<Head>, order: seq<int>, free: int, b: int)
    requires CircleOk(buf, order, free) && 0 <= b < |buf| && b !in order
    ensures 0 <= free < |buf| && 0 <= buf[free].prevFree < |buf| && free != b
    ensures CircleOk(Encircle(buf, b, free), order + [b], free)
  {
    var n, o' := |order|, order + [b];
    assert Circled(buf, order, 0);
    var buf' := Encircle(buf, b, free);
    forall i | 0 <= i < |o'| ensures Circled(buf', o', i) {
      if i < n {
        assert Circled(buf, order, i);
        assert order[i] == order[n - 1] <==> i == n - 1;
      }
    }
  }

  /** The hash part of insert_into_queues: b becomes the head of its chain. */
  function Enchain(buf: seq<Head>, b: int, head: int): (r: seq<Head>)
    requires 0 <= b < |buf| && -1 <= head < |buf|
    ensures |r| == |buf|
  {
    var buf1 := buf[b := buf[b].(prev := NULL, next := head)];
    if head != NULL then buf1[head := buf1[head].(prev := b)] else buf1
  }

  lemma EnchainStep(buf: seq<Head>, c: seq<int>, head: int, b: int)
    requires ChainOk(buf, c, head) && 0 <= b < |buf| && b !in c
    ensures -1 <= head < |buf|
    ensures ChainOk(Enchain(buf, b, head), [b] + c, b)
    ensures forall x :: 0 <= x < |buf| && x != b && x !in c ==> Enchain(buf, b, head)[x] == buf[x]
  {
    var buf', c' := Enchain(buf, b, head), [b] + c;
    forall i | 0 <= i < |c'| ensures Chained(buf', c', i) {
      if i > 0 {
        assert Chained(buf, c, i - 1);
        assert c[i - 1] == head <==> i == 1;
      }
    }
  }

  // ---------------------------------------------------------------- both lists

  /** Everything in a buffer head but its links. */
  ghost predicate SamePayload(x: Head, y: Head) {
    && x.dev == y.dev && x.block == y.block && x.uptodate == y.uptodate
    && x.dirt == y.dirt && x.count == y.count && x.lock == y.lock
  }

  ghost predicate SamePayloads(buf: seq<Head>, buf': seq<Head>) {
    |buf'| == |buf| && forall b :: 0 <= b < |buf| ==> SamePayload(buf[b], buf'[b])
  }

  /** Same hash links. */
  ghost predicate SameChainLinks(buf: seq<Head>, buf': seq<Head>) {
    |buf'| == |buf| && forall b :: 0 <= b < |buf| ==> buf'[b].next == buf[b].next && buf'[b].prev == buf[b].prev
  }

  /** Same free-list links. */
  ghost predicate SameCircleLinks(buf: seq<Head>, buf': seq<Head>) {
    |buf'| == |buf| && forall b :: 0 <= b < |buf| ==>
      buf'[b].nextFree == buf[b].nextFree && buf'[b].prevFree == buf[b].prevFree
  }

  lemma ChainKept(buf: seq<Head>, buf': seq<Head>, c: seq<int>, head: int)
    requires ChainOk(buf, c, head) && |buf'| == |buf|
    requires forall b :: b in c ==> 0 <= b < |buf| && buf'[b].next == buf[b].next && buf'[b].prev == buf[b].prev
    ensures ChainOk(buf', c, head)
  {
    forall i | 0 <= i < |c| ensures Chained(buf', c, i) {
      assert Chained(buf, c, i) && c[i] in c;
    }
  }

  lemma CircleKept(buf: seq<Head>, buf': seq<Head>, order: seq<int>, free: int)
    requires CircleOk(buf, order, free) && SameCircleLinks(buf, buf')
    ensures CircleOk(buf', order, free)
  {
    forall i | 0 <= i < |order| ensures Circled(buf', order, i) {
      assert Circled(buf, order, i);
    }
  }

  ghost function IndexOf(s: seq<int>, b: int): (k: int)
    requires b in s
    ensures 0 <= k < |s| && s[k] == b
  {
    var k :| 0 <= k < |s| && s[k] == b;
    k
  }

  ghost function Drop(s: seq<int>, b: int): seq<int> {
    if b in s then Without(s, IndexOf(s, b)) else s
  }

  /** remove_from_queues */
  ghost function Removed(s: State, b: int): State
    requires Lists(s) && 0 <= b < |s.buf| && b in s.order && |s.order| >= 2
  {
    RemovedDefined(s, b);
    var h := HashFn(s.buf[b].dev, s.buf[b].block);
    State(Uncircle(Unchain(s.buf, b), b),
          if s.hash[h] == b then s.hash[h := s.buf[b].next] else s.hash,
          if s.free == b then s.buf[b].nextFree else s.free,
          Drop(s.order, b), s.chains[h := Drop(s.chains[h], b)])
  }

  lemma UnchainKeeps(buf: seq<Head>, b: int)
    requires 0 <= b < |buf| && -1 <= buf[b].next < |buf| && -1 <= buf[b].prev < |buf|
    ensures SamePayloads(buf, Unchain(buf, b)) && SameCircleLinks(buf, Unchain(buf, b))
  {
  }

  lemma UncircleKeeps(buf: seq<Head>, b: int)
    requires 0 <= b < |buf| && 0 <= buf[b].nextFree < |buf| && 0 <= buf[b].prevFree < |buf|
    ensures SamePayloads(buf, Uncircle(buf, b)) && SameChainLinks(buf, Uncircle(buf, b))
  {
  }

  lemma RemovedDefined(s: State, b: int)
    requires Lists(s) && 0 <= b < |s.buf| && b in s.order
    ensures -1 <= s.buf[b].next < |s.buf| && -1 <= s.buf[b].prev < |s.buf|
    ensures 0 <= s.buf[b].nextFree < |s.buf| && 0 <= s.buf[b].prevFree < |s.buf|
    ensures Unchain(s.buf, b)[b].nextFree == s.buf[b].nextFree && Unchain(s.buf, b)[b].prevFree == s.buf[b].prevFree
  {
    assert Circled(s.buf, s.order, IndexOf(s.order, b));
    if s.buf[b].dev != 0 {
      var h := HashFn(s.buf[b].dev, s.buf[b].block);
      assert Hashed(s, b);
      assert Chained(s.buf, s.chains[h], IndexOf(s.chains[h], b));
    }
    UnchainKeeps(s.buf, b);
  }
}
