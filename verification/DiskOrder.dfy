/** The request order of kernel/hd.c: IN_ORDER, the place that add_request chooses, and the
    cylinder, head and sector that rw_hd computes. */
module DiskOrder {

  datatype Position = Position(hd: nat, cyl: nat, head: nat, sector: nat)

  /** IN_ORDER */
  predicate InOrder(a: Position, b: Position) {
    a.hd < b.hd || (a.hd == b.hd &&
    (a.cyl < b.cyl || (a.cyl == b.cyl &&
    (a.head < b.head || (a.head == b.head &&
    a.sector < b.sector)))))
  }

  // ---------------------------------------------------------------- the place of a new request

  predicate Fits(p: seq<Position>, r: Position, k: nat)
    requires k + 1 < |p|
  {
    (InOrder(p[k], r) || !InOrder(p[k], p[k + 1])) && InOrder(r, p[k + 1])
  }

  /** The loop of add_request from entry k: the entry that r goes behind. */
  function PlaceFrom(p: seq<Position>, r: Position, k: nat): (j: nat)
    requires k < |p|
    ensures k <= j < |p| && (j + 1 < |p| ==> Fits(p, r, j)) && forall i :: k <= i < j ==> !Fits(p, r, i)
    decreases |p| - k
  {
    if k + 1 == |p| || Fits(p, r, k) then k else PlaceFrom(p, r, k + 1)
  }

  /** How many entries stay in front of r: all when there are at most two, never fewer than two. */
  function Place(p: seq<Position>, r: Position): (n: nat)
    ensures n <= |p| && (|p| <= 2 ==> n == |p|) && (|p| > 2 ==> n >= 2)
  {
    if |p| < 2 then |p| else PlaceFrom(p, r, 1) + 1
  }

  function Insert<T>(s: seq<T>, n: nat, x: T): (r: seq<T>)
    requires n <= |s|
    ensures |r| == |s| + 1
  {
    s[..n] + [x] + s[n..]
  }

  // ---------------------------------------------------------------- how many sweeps are pending

  function Descent(a: Position, b: Position): nat { if InOrder(b, a) then 1 else 0 }

  /** The places where the disk arm has to go back. */
  function Descents(p: seq<Position>): (n: nat)
    ensures |p| < 2 ==> n == 0
  {
    if |p| < 2 then 0 else Descents(p[..|p| - 1]) + Descent(p[|p| - 2], p[|p| - 1])
  }

  lemma {:induction false} DescentsSplit(p: seq<Position>, k: nat)
    requires k < |p|
    ensures Descents(p) == Descents(p[..k + 1]) + Descents(p[k..])
  {
    if k + 1 == |p| {
      assert p[..k + 1] == p;
    } else {
      var q := p[..|p| - 1];
      DescentsSplit(q, k);
      assert q[..k + 1] == p[..k + 1] && q[k..] == p[k..][..|p| - k - 1];
    }
  }

  /** Inserting r behind entry k of p changes the number of descents by what it does to its neighbours. */
  lemma DescentsAfterInsert(p: seq<Position>, k: nat, r: Position)
    requires k < |p|
    ensures k + 1 == |p| ==> Descents(Insert(p, k + 1, r)) == Descents(p) + Descent(p[k], r)
    ensures k + 1 < |p| ==>
      Descents(Insert(p, k + 1, r)) == Descents(p) - Descent(p[k], p[k + 1]) + Descent(p[k], r) + Descent(r, p[k + 1])
  {
    var p' := Insert(p, k + 1, r);
    if k + 1 == |p| {
      assert p'[..|p'| - 1] == p;
    } else {
      Joint(p, k);
      assert p'[..k + 1] == p[..k + 1] && p'[k + 1..] == [r] + p[k + 1..];
      Joint(p', k);
      DescentsCons(r, p[k + 1..]);
    }
  }

  lemma DescentsCons(r: Position, p: seq<Position>)
    requires p != []
    ensures Descents([r] + p) == Descent(r, p[0]) + Descents(p)
  {
    var q := [r] + p;
    assert q[..1] == [r] && q[1..] == p;
    Joint(q, 0);
  }

  lemma Joint(p: seq<Position>, k: nat)
    requires k + 1 < |p|
    ensures Descents(p) == Descents(p[..k + 1]) + Descent(p[k], p[k + 1]) + Descents(p[k + 1..])
  {
    var q := p[..k + 2];
    DescentsSplit(p, k + 1);
    assert q[..|q| - 1] == p[..k + 1] && q[|q| - 2] == p[k] && q[|q| - 1] == p[k + 1];
  }

  ghost predicate Distinct(p: seq<Position>) {
    forall i, j :: 0 <= i < j < |p| ==> p[i] != p[j]
  }

  /** r belongs between two neighbours: they stand in order with r strictly between them, or a sweep ends
      with the first and r belongs before the second. */
  predicate StrictPlace(p: seq<Position>, r: Position, k: nat) {
    && k + 1 < |p| && InOrder(r, p[k + 1])
    && (InOrder(p[k], r) || InOrder(p[k + 1], p[k]))
  }

  /** Two requests for one place that r belongs before. */
  predicate EqualPair(p: seq<Position>, r: Position, k: nat) {
    k + 1 < |p| && p[k] == p[k + 1] && InOrder(r, p[k + 1])
  }

  predicate NoPlaceBefore(p: seq<Position>, r: Position, k: nat) {
    forall i :: 1 <= i < k ==> !StrictPlace(p, r, i) && !EqualPair(p, r, i)
  }

  /** Adding r breaks the order: r belongs nowhere behind the current request and before the last one,
      which comes after it; or a pair for one place comes before every strict place. */
  predicate Spoils(p: seq<Position>, r: Position)
    requires |p| >= 2
  {
    || (NoPlaceBefore(p, r, |p| - 1) && InOrder(r, p[|p| - 1]))
    || (exists k :: 1 <= k < |p| - 1 && EqualPair(p, r, k) && NoPlaceBefore(p, r, k))
  }

  /** The loop of add_request stops exactly at the first strict place or pair for one place, so the
      condition on positions says where it spoils the order. */
  lemma SpoilsAtPlace(p: seq<Position>, r: Position)
    requires |p| >= 2
    ensures var j := PlaceFrom(p, r, 1);
      Spoils(p, r) <==> if j + 1 < |p| then p[j] == p[j + 1] else InOrder(r, p[j])
  {
    var j := PlaceFrom(p, r, 1);
    forall k | 1 <= k < |p| - 1 ensures Fits(p, r, k) <==> StrictPlace(p, r, k) || EqualPair(p, r, k) {
      Trichotomy(p[k], p[k + 1]);
    }
    assert NoPlaceBefore(p, r, j);
    if j + 1 < |p| {
      assert p[j] == p[j + 1] ==> EqualPair(p, r, j);
      assert StrictPlace(p, r, j) || EqualPair(p, r, j);
      assert !NoPlaceBefore(p, r, |p| - 1);
    }
  }

  lemma Trichotomy(a: Position, b: Position)
    ensures a == b || InOrder(a, b) || InOrder(b, a)
    ensures !(InOrder(a, b) && InOrder(b, a)) && !InOrder(a, a)
  {
  }

  /** The exact effect on the work behind the current request, whatever the positions. */
  lemma AddedDescents(p: seq<Position>, r: Position)
    requires |p| >= 2
    ensures Descents(Insert(p, Place(p, r), r)[1..]) == Descents(p[1..]) + (if Spoils(p, r) then 1 else 0)
  {
    var j := PlaceFrom(p, r, 1);
    SpoilsAtPlace(p, r);
    DescentsAfterInsert(p[1..], j - 1, r);
    InsertBehindFirst(p, j + 1, r);
  }

  lemma InsertBehindFirst(p: seq<Position>, k: nat, r: Position)
    requires 1 <= k <= |p|
    ensures Insert(p, k, r)[1..] == Insert(p[1..], k - 1, r)
  {
  }

  /** So two sweeps stay two sweeps if and only if there is one sweep or the place is a good one. */
  lemma TwoSweepsExactly(p: seq<Position>, r: Position)
    requires |p| >= 2 && Descents(p[1..]) <= 1
    ensures Descents(Insert(p, Place(p, r), r)[1..]) <= 1 <==> Descents(p[1..]) == 0 || !Spoils(p, r)
  {
    AddedDescents(p, r);
  }

  /** Cylinder c of drive 0, head 0, sector 1. */
  function AtCylinder(c: nat): Position { Position(0, c, 0, 1) }

  /** The current request at cylinder 0, and behind it 5, then 1 and 3. */
  function Crowded(): seq<Position> { [AtCylinder(0), AtCylinder(5), AtCylinder(1), AtCylinder(3)] }

  /** Two requests for one place can cost a third sweep: a second one for cylinder 1 is entered behind
      cylinder 3. */
  lemma SamePlaceCostsASweep()
    ensures Descents(Crowded()[1..]) == 1 && Place(Crowded(), AtCylinder(1)) == 4
    ensures Insert(Crowded(), 4, AtCylinder(1)) == Crowded() + [AtCylinder(1)]
    ensures Descents((Crowded() + [AtCylinder(1)])[1..]) == 2
  {
    var p, c := Crowded(), AtCylinder(1);
    assert PlaceFrom(p, c, 3) == 3 && PlaceFrom(p, c, 2) == 3 && PlaceFrom(p, c, 1) == 3;
    var q := p[1..];
    assert q == [AtCylinder(5), AtCylinder(1), AtCylinder(3)];
    assert q[..2] == [AtCylinder(5), AtCylinder(1)] && q[..2][..1] == [AtCylinder(5)];
    assert (p + [c])[1..] == q + [c] && (q + [c])[..3] == q;
  }

  /** With one descent already there, the last entry comes after r only if r fits somewhere before. */
  lemma {:induction false} FitsInSecondSweep(p: seq<Position>, r: Position, k: nat)
    requires k < |p| && Descents(p[k..]) == 0 && InOrder(p[k], r) && InOrder(r, p[|p| - 1])
    requires Distinct(p) && forall i :: 0 <= i < |p| ==> p[i] != r
    ensures exists i :: k <= i < |p| - 1 && Fits(p, r, i)
    decreases |p| - k
  {
    Joint(p[k..], 0);
    assert p[k..][1..] == p[k + 1..];
    if InOrder(r, p[k + 1]) {
      assert Fits(p, r, k);
    } else {
      FitsInSecondSweep(p, r, k + 1);
    }
  }

  lemma {:induction false} FindDescent(p: seq<Position>, k: nat) returns (d: nat)
    requires k < |p| && Descents(p[k..]) == 1
    ensures k <= d < |p| - 1 && InOrder(p[d + 1], p[d]) && Descents(p[d + 1..]) == 0
    decreases |p| - k
  {
    Joint(p[k..], 0);
    assert p[k..][1..] == p[k + 1..] && p[k..][..1] == [p[k]];
    if InOrder(p[k + 1], p[k]) {
      d := k;
    } else {
      d := FindDescent(p, k + 1);
    }
  }

  /** For requests at different places the work behind the current request is at most two ascending
      sweeps, and adding a request keeps it so. */
  lemma TwoSweepsKept(p: seq<Position>, r: Position)
    requires Distinct(p) && (forall i :: 0 <= i < |p| ==> p[i] != r)
    requires |p| >= 1 ==> Descents(p[1..]) <= 1
    ensures Descents(Insert(p, Place(p, r), r)[1..]) <= 1
  {
    if |p| < 2 {
      assert |Insert(p, Place(p, r), r)[1..]| < 2;
    } else {
      AddedDescents(p, r);
      SpoilsAtPlace(p, r);
      if Descents(p[1..]) == 1 && Spoils(p, r) {
        var d := FindDescent(p, 1);
        if InOrder(r, p[d + 1]) {
          assert Fits(p, r, d);
        } else {
          FitsInSecondSweep(p, r, d + 1);
        }
        assert false;
      }
    }
  }

  // ---------------------------------------------------------------- rw_hd

  datatype Geometry = Geometry(heads: nat, sect: nat)

  /** The two divisions of rw_hd on an absolute sector number. */
  function Locate(g: Geometry, drive: nat, block: nat): Position
    requires g.heads > 0 && g.sect > 0
  {
    Position(drive, block / g.sect / g.heads, block / g.sect % g.heads, block % g.sect + 1)
  }

  function Linear(g: Geometry, p: Position): int {
    (p.cyl * g.heads + p.head) * g.sect + (p.sector - 1)
  }

  predicate OnDisk(g: Geometry, p: Position) { p.head < g.heads && 1 <= p.sector <= g.sect }

  lemma LocateLinear(g: Geometry, drive: nat, block: nat)
    requires g.heads > 0 && g.sect > 0
    ensures OnDisk(g, Locate(g, drive, block)) && Linear(g, Locate(g, drive, block)) == block
    ensures var p := Locate(g, drive, block);
      p.hd == drive && (p.cyl * g.heads + p.head) * g.sect + p.sector == block + 1 && p.head < g.heads
      && 1 <= p.sector <= g.sect
  {
    var track := block / g.sect;
    assert track == (track / g.heads) * g.heads + track % g.heads;
    assert block == track * g.sect + block % g.sect;
  }

  lemma OneMore(a: int, c: int, n: nat)
    requires a < c
    ensures a * n + n <= c * n
  {
    assert (c - a - 1) * n >= 0;
  }

  lemma MixedRadix(a: int, b: int, c: int, d: int, n: int)
    requires n > 0 && 0 <= b < n && 0 <= d < n
    ensures a * n + b < c * n + d <==> a < c || (a == c && b < d)
  {
    if a < c {
      OneMore(a, c, n);
    } else if a > c {
      OneMore(c, a, n);
    }
  }

  /** On one drive IN_ORDER compares the linear sector numbers. */
  lemma OrderIsLinear(g: Geometry, a: Position, b: Position)
    requires OnDisk(g, a) && OnDisk(g, b) && a.hd == b.hd
    ensures InOrder(a, b) <==> Linear(g, a) < Linear(g, b)
  {
    var s, t := a.cyl * g.heads + a.head, b.cyl * g.heads + b.head;
    MixedRadix(a.cyl, a.head, b.cyl, b.head, g.heads);
    MixedRadix(s, a.sector - 1, t, b.sector - 1, g.sect);
    assert s == t ==> a.cyl == b.cyl && a.head == b.head by { MixedRadix(b.cyl, b.head, a.cyl, a.head, g.heads); }
  }

  /** Requests for drive 0 come before those for drive 1. */
  lemma DrivesInOrder(a: Position, b: Position)
    requires a.hd < b.hd
    ensures InOrder(a, b) && !InOrder(b, a)
  {
  }

  // ---------------------------------------------------------------- which requests rw_hd makes

  /** One entry of hd[] */
  datatype Partition = Partition(start: nat, sectors: nat)

  datatype Option<T> = None | Some(value: T)

  /** rw_hd up to the call of rw_abs_hd: b_blocknr has 16 bits. */
  function Request(disks: seq<Geometry>, parts: seq<Partition>, minor: nat, block: nat): Option<Position>
    requires |parts| >= 5 * |disks| && forall d :: 0 <= d < |disks| ==> disks[d].heads > 0 && disks[d].sect > 0
  {
    if minor >= 5 * |disks| || 2 * block + 2 > parts[minor].sectors then None
    else
      Some(Locate(disks[minor / 5], minor / 5, 2 * block + parts[minor].start))
  }

  /** A request is made exactly for the blocks of the partition, the two sectors it transfers lie in
      the partition, and different blocks of one drive get different places. */
  lemma RequestsStayInPartition(disks: seq<Geometry>, parts: seq<Partition>, minor: nat, block: nat)
    requires |parts| >= 5 * |disks| && forall d :: 0 <= d < |disks| ==> disks[d].heads > 0 && disks[d].sect > 0
    ensures Request(disks, parts, minor, block).Some? <==>
      minor < 5 * |disks| && block < parts[minor].sectors / 2
    ensures Request(disks, parts, minor, block).Some? ==>
      var p, g := Request(disks, parts, minor, block).value, disks[minor / 5];
      && p.hd == minor / 5 && OnDisk(g, p)
      && parts[minor].start <= Linear(g, p) && Linear(g, p) + 1 < parts[minor].start + parts[minor].sectors
      && Linear(g, p) == parts[minor].start + 2 * block
  {
    if minor < 5 * |disks| {
      LocateLinear(disks[minor / 5], minor / 5, 2 * block + parts[minor].start);
    }
  }
}
