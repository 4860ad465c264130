/** What follows for every run of the machine: memory is private, what was verified stays verified, and which
    frames are shared decides every failure. */
module PagingLaws {
  import opened PagingState
  import opened TaskFrames
  import opened TaskMemory
  import opened PagingMachine

  // ---------------------------------------------------------------- what every run keeps

  /** Step k of a run, between well-formed states. */
  lemma StepOf(trace: seq<Abs>, ops: seq<Op>, os: seq<Outcome>, k: nat)
    requires IsRun(trace, ops, os) && WellFormed(trace[0]) && k < |ops|
    ensures WellFormed(trace[k]) && WellFormed(trace[k + 1]) && Next(trace[k], ops[k], os[k], trace[k + 1])
  {
    InvAlways(trace, ops, os, k);
    InvAlways(trace, ops, os, k + 1);
    assert Steps(trace[k], ops[k], os[k], trace[k + 1]);
  }

  lemma Prefix(trace: seq<Abs>, ops: seq<Op>, os: seq<Outcome>, n: nat)
    requires IsRun(trace, ops, os) && n <= |ops|
    ensures IsRun(trace[..n + 1], ops[..n], os[..n])
  {
    forall k | 0 <= k < n ensures Steps(trace[..n + 1][k], ops[..n][k], os[..n][k], trace[..n + 1][k + 1]) {
      assert Steps(trace[k], ops[k], os[k], trace[k + 1]);
    }
  }

  /** No operation of the others changes what a task has: its memory stays as it is, page for page. */
  lemma {:induction false} Isolation(trace: seq<Abs>, ops: seq<Op>, os: seq<Outcome>, t: nat)
    requires IsRun(trace, ops, os) && WellFormed(trace[0]) && 1 <= t < NR_TASKS
    requires forall k :: 0 <= k < |ops| ==> Target(ops[k]) != t
    ensures SameMemory(trace[0], trace[|ops|], t)
  {
    if ops != [] {
      var n := |ops| - 1;
      Prefix(trace, ops, os, n);
      Isolation(trace[..n + 1], ops[..n], os[..n], t);
      StepOf(trace, ops, os, n);
      if Enabled(trace[n], ops[n]) { assert SameMemory(trace[n], trace[n + 1], t); }
    }
  }

  /** The word (t, p, i) is w, in a page of t's own. */
  ghost predicate Holds(a: Abs, t: nat, p: nat, i: nat, w: Word)
    requires Sized(a) && t < NR_TASKS && p < PAGES && i < ENTRIES
  {
    a.spaces[t][p].Own? && |a.spaces[t][p].page| == ENTRIES && a.spaces[t][p].page[i] == w
  }

  /** An operation that is not a store of t to this word and does not end or replace t. */
  ghost predicate Spares(op: Op, o: Outcome, t: nat, p: nat, i: nat) {
    match op
    case Fork(_, nr) => nr != t
    case Store(cur, q, j, _) => cur != t || (o.ok && (q != p || j != i))
    case Load(cur, _, _) => cur != t || o.ok
    case Verify(cur, _, _) => cur != t || o.ok
    case Put(cur, q, j, _) => cur != t || (o.ok && (q != p || j != i))
    case Exec(cur, _, _) => cur != t
    case Exit(cur) => cur != t
    case Reap(_) => true
    case Grab => true
    case Fill(_, _, _) => true
    case Drop(_) => true
    case KernelStore(_, _, _) => true
  }

  lemma WordKept(a: Abs, op: Op, o: Outcome, a': Abs, t: nat, p: nat, i: nat, w: Word)
    requires WellFormed(a) && WellFormed(a') && Next(a, op, o, a') && 1 <= t < NR_TASKS && p < PAGES && i < ENTRIES
    requires Holds(a, t, p, i, w) && Spares(op, o, t, p, i)
    ensures Holds(a', t, p, i, w)
  {
    if Enabled(a, op) && Target(op) != t {
      assert SameMemory(a, a', t);
    }
  }

  lemma {:induction false} WordLasts(trace: seq<Abs>, ops: seq<Op>, os: seq<Outcome>, t: nat, p: nat, i: nat, w: Word)
    requires IsRun(trace, ops, os) && WellFormed(trace[0]) && 1 <= t < NR_TASKS && p < PAGES && i < ENTRIES
    requires Holds(trace[0], t, p, i, w)
    requires forall k :: 0 <= k < |ops| ==> Spares(ops[k], os[k], t, p, i)
    ensures Holds(trace[|ops|], t, p, i, w)
  {
    if ops != [] {
      var n := |ops| - 1;
      Prefix(trace, ops, os, n);
      WordLasts(trace[..n + 1], ops[..n], os[..n], t, p, i, w);
      StepOf(trace, ops, os, n);
      WordKept(trace[n], ops[n], os[n], trace[n + 1], t, p, i, w);
    }
  }

  /** The run from step m on. */
  lemma Suffix(trace: seq<Abs>, ops: seq<Op>, os: seq<Outcome>, m: nat)
    requires IsRun(trace, ops, os) && m <= |ops|
    ensures IsRun(trace[m..], ops[m..], os[m..])
  {
    forall k | 0 <= k < |ops[m..]| ensures Steps(trace[m..][k], ops[m..][k], os[m..][k], trace[m..][k + 1]) {
      assert Steps(trace[m + k], ops[m + k], os[m + k], trace[m + k + 1]);
    }
  }

  lemma WordLastsFrom(trace: seq<Abs>, ops: seq<Op>, os: seq<Outcome>, m: nat, n: nat, t: nat, p: nat, i: nat, w: Word)
    requires IsRun(trace, ops, os) && WellFormed(trace[0]) && m <= n <= |ops|
    requires 1 <= t < NR_TASKS && p < PAGES && i < ENTRIES
    requires Holds(trace[m], t, p, i, w)
    requires forall k :: m <= k < n ==> Spares(ops[k], os[k], t, p, i)
    ensures Holds(trace[n], t, p, i, w)
  {
    Prefix(trace, ops, os, n);
    Suffix(trace[..n + 1], ops[..n], os[..n], m);
    InvAlways(trace, ops, os, m);
    WordLasts(trace[..n + 1][m..], ops[..n][m..], os[..n][m..], t, p, i, w);
    assert trace[..n + 1][m..][n - m] == trace[n];
  }

  lemma StoreHolds(a: Abs, op: Op, o: Outcome, a': Abs, t: nat, p: nat, i: nat, w: Word)
    requires WellFormed(a) && WellFormed(a') && Next(a, op, o, a') && 1 <= t < NR_TASKS && Enabled(a, op) && o.ok
    requires op == Store(t, p, i, w) || op == Put(t, p, i, w)
    ensures p < PAGES && i < ENTRIES && Holds(a', t, p, i, w)
  {
  }

  /** In every run a load returns the last word that the task itself stored there, whatever the
      other tasks, its children and the kernel did in between. */
  lemma LoadReturnsLastStore(trace: seq<Abs>, ops: seq<Op>, os: seq<Outcome>, t: nat, p: nat, i: nat, w: Word)
    requires IsRun(trace, ops, os) && WellFormed(trace[0]) && |ops| >= 2 && 1 <= t < NR_TASKS
    requires ops[0] == Store(t, p, i, w) || ops[0] == Put(t, p, i, w)
    requires Enabled(trace[0], ops[0]) && os[0].ok
    requires forall k :: 1 <= k < |ops| - 1 ==> Spares(ops[k], os[k], t, p, i)
    requires ops[|ops| - 1] == Load(t, p, i) && Enabled(trace[|ops| - 1], ops[|ops| - 1]) && os[|ops| - 1].ok
    ensures os[|ops| - 1].word == w
  {
    var n := |ops| - 1;
    StepOf(trace, ops, os, 0);
    StepOf(trace, ops, os, n);
    StoreHolds(trace[0], ops[0], os[0], trace[1], t, p, i, w);
    WordLastsFrom(trace, ops, os, 1, n, t, p, i, w);
  }

  // ---------------------------------------------------------------- a system call that sleeps

  /** Operations that leave a verified page of t verified: everything that other tasks do, but for
      making t anew, and all that t does itself but fork, exec and exit. */
  ghost predicate LeavesVerified(op: Op, o: Outcome, t: nat) {
    match op
    case Fork(cur, nr) => cur != t && nr != t
    case Store(cur, _, _, _) => cur != t || o.ok
    case Load(cur, _, _) => cur != t || o.ok
    case Verify(cur, _, _) => cur != t || o.ok
    case Put(cur, _, _, _) => cur != t || o.ok
    case Exec(cur, _, _) => cur != t
    case Exit(cur) => cur != t
    case Reap(_) => true
    case Grab => true
    case Fill(_, _, _) => true
    case Drop(_) => true
    case KernelStore(_, _, _) => true
  }

  lemma VerifiedKept(a: Abs, op: Op, o: Outcome, a': Abs, t: nat, p: nat)
    requires WellFormed(a) && WellFormed(a') && Next(a, op, o, a') && 1 <= t < NR_TASKS && p < PAGES
    requires a.alive[t] && IsVerified(a, t, p) && LeavesVerified(op, o, t)
    ensures a'.alive[t] && a'.data[t] == a.data[t] && IsVerified(a', t, p)
  {
    if Enabled(a, op) {
      if Target(op) != t { assert SameMemory(a, a', t); } else { OwnVerifiedKept(a, op, o, a', t, p); }
    }
  }

  lemma OwnVerifiedKept(a: Abs, op: Op, o: Outcome, a': Abs, t: nat, p: nat)
    requires WellFormed(a) && WellFormed(a') && Next(a, op, o, a') && 1 <= t < NR_TASKS && p < PAGES
    requires Enabled(a, op) && Target(op) == t && a.alive[t] && IsVerified(a, t, p) && LeavesVerified(op, o, t)
    ensures a'.alive[t] && a'.data[t] == a.data[t] && IsVerified(a', t, p)
  {
  }

  /** No operation of another task, fork, fault, exec, exit and verify_area included, takes the write bit
      from a page of t: what verify_area has done stays done while t sleeps. */
  lemma {:induction false} VerifiedStays(trace: seq<Abs>, ops: seq<Op>, os: seq<Outcome>, t: nat, p: nat)
    requires IsRun(trace, ops, os) && WellFormed(trace[0]) && 1 <= t < NR_TASKS && p < PAGES
    requires trace[0].alive[t] && IsVerified(trace[0], t, p)
    requires forall k :: 0 <= k < |ops| ==> LeavesVerified(ops[k], os[k], t)
    ensures var a := trace[|ops|]; a.alive[t] && a.data[t] == trace[0].data[t] && IsVerified(a, t, p)
  {
    if ops != [] {
      var n := |ops| - 1;
      Prefix(trace, ops, os, n);
      VerifiedStays(trace[..n + 1], ops[..n], os[..n], t, p);
      StepOf(trace, ops, os, n);
      VerifiedKept(trace[n], ops[n], os[n], trace[n + 1], t, p);
    }
  }

  /** So a system call that has verified its area may store to it at any later time, however long it slept
      in between: put_fs finds every page of the area absent or writable. */
  lemma PutAfterVerify(trace: seq<Abs>, ops: seq<Op>, os: seq<Outcome>, t: nat, addr: nat, size: int,
                       p: nat, i: nat, w: Word)
    requires IsRun(trace, ops, os) && WellFormed(trace[0]) && ops != [] && 1 <= t < NR_TASKS
    requires ops[0] == Verify(t, addr, size) && Enabled(trace[0], ops[0]) && os[0].ok
    requires forall k :: 1 <= k < |ops| ==> LeavesVerified(ops[k], os[k], t)
    requires FirstPage(addr) <= p < AreaEnd(addr, size) && p * 4096 + 4096 <= trace[0].data[t] && i < ENTRIES
    ensures Enabled(trace[|ops|], Put(t, p, i, w))
  {
    var n := |ops|;
    StepOf(trace, ops, os, 0);
    InLimit(trace[0].data[t], p);
    Suffix(trace, ops, os, 1);
    VerifiedStays(trace[1..], ops[1..], os[1..], t, p);
    assert trace[1..][n - 1] == trace[n];
  }

  // ---------------------------------------------------------------- fork

  /** Tasks on the same frames have nothing alone. */
  lemma NothingAlone(a: Abs, t: nat, u: nat)
    requires WellFormed(a) && t < NR_TASKS && u < NR_TASKS && t != u && a.frames[t] == a.frames[u]
    ensures AlonePages(a, t) == {} && AlonePages(a, u) == {}
  {
    forall p: nat | p < PAGES ensures !IsAlone(a, t, p) && !IsAlone(a, u, p) {
      assert OnFrame(a, u, p, a.frames[t][p]) && OnFrame(a, t, p, a.frames[u][p]);
    }
  }

  /** After a fork neither the parent nor the child may write to any page, and making a present page of either
      writable takes a frame, whichever of the two comes first. */
  lemma ForkSharesAll(a: Abs, cur: nat, nr: nat, o: Outcome, a': Abs)
    requires WellFormed(a) && Sized(a') && Enabled(a, Fork(cur, nr)) && Next(a, Fork(cur, nr), o, a') && o.ok
    ensures a'.rw[cur] == {} && a'.rw[nr] == {} && AlonePages(a', cur) == {} && AlonePages(a', nr) == {}
    ensures forall p: nat ::
      VerifyCost(a', cur, p) == VerifyCost(a', nr, p) == if PageAt(a', nr, p).Absent? then 0 else 1
  {
    assert SameMemory(a, a', cur);
    NextKeeps(a, Fork(cur, nr), o, a');
    NothingAlone(a', cur, nr);
  }

  /** A child that does nothing costs nothing: once it has ended and its slot is free, so are its frames. */
  lemma ForkUndone(trace: seq<Abs>, os: seq<Outcome>, cur: nat, nr: nat)
    requires IsRun(trace, [Fork(cur, nr), Exit(nr), Reap(nr)], os) && WellFormed(trace[0])
    requires Enabled(trace[0], Fork(cur, nr)) && os[0].ok
    ensures trace[3].free == trace[0].free && SameMemory(trace[0], trace[3], cur)
  {
    var ops := [Fork(cur, nr), Exit(nr), Reap(nr)];
    StepOf(trace, ops, os, 0);
    StepOf(trace, ops, os, 1);
    StepOf(trace, ops, os, 2);
    ForkSharesAll(trace[0], cur, nr, os[0], trace[1]);
    assert SameMemory(trace[0], trace[1], cur) && SameMemory(trace[1], trace[2], cur);
    assert SameMemory(trace[2], trace[3], cur);
  }

  // ---------------------------------------------------------------- stores

  /** A present page that the task may write: the next store there takes no frame and cannot fail. */
  lemma StoreIsFree(a: Abs, t: nat, p: nat, i: nat, w: Word, o: Outcome, a': Abs)
    requires WellFormed(a) && Sized(a') && Enabled(a, Store(t, p, i, w)) && Next(a, Store(t, p, i, w), o, a')
    requires p in a.rw[t]
    ensures o.ok && a'.free == a.free && a'.frames == a.frames
  {
    assert p in AlonePages(a, t) && FrameOk(a, t, p);
    forall u | 0 <= u < NR_TASKS ensures a'.frames[u] == a.frames[u] {
      if u != t { assert SameMemory(a, a', u); }
    }
  }

  /** The page is there, and the task may write it. */
  ghost predicate Owned(a: Abs, t: nat, p: nat)
    requires Sized(a) && 1 <= t < NR_TASKS && p < PAGES
  {
    a.alive[t] && p in a.rw[t]
  }

  lemma OwnedKept(a: Abs, op: Op, o: Outcome, a': Abs, t: nat, p: nat)
    requires WellFormed(a) && WellFormed(a') && Next(a, op, o, a') && 1 <= t < NR_TASKS && p < PAGES
    requires Owned(a, t, p) && LeavesVerified(op, o, t)
    ensures Owned(a', t, p)
  {
    if Enabled(a, op) {
      if Target(op) != t { assert SameMemory(a, a', t); } else { OwnOwnedKept(a, op, o, a', t, p); }
    }
  }

  lemma OwnOwnedKept(a: Abs, op: Op, o: Outcome, a': Abs, t: nat, p: nat)
    requires WellFormed(a) && WellFormed(a') && Next(a, op, o, a') && 1 <= t < NR_TASKS && p < PAGES
    requires Enabled(a, op) && Target(op) == t && Owned(a, t, p) && LeavesVerified(op, o, t)
    ensures Owned(a', t, p)
  {
  }

  lemma {:induction false} OwnedStays(trace: seq<Abs>, ops: seq<Op>, os: seq<Outcome>, t: nat, p: nat)
    requires IsRun(trace, ops, os) && WellFormed(trace[0]) && 1 <= t < NR_TASKS && p < PAGES && Owned(trace[0], t, p)
    requires forall k :: 0 <= k < |ops| ==> LeavesVerified(ops[k], os[k], t)
    ensures Owned(trace[|ops|], t, p)
  {
    if ops != [] {
      var n := |ops| - 1;
      Prefix(trace, ops, os, n);
      OwnedStays(trace[..n + 1], ops[..n], os[..n], t, p);
      StepOf(trace, ops, os, n);
      OwnedKept(trace[n], ops[n], os[n], trace[n + 1], t, p);
    }
  }

  lemma StoreOwns(a: Abs, t: nat, p: nat, i: nat, w: Word, o: Outcome, a': Abs)
    requires WellFormed(a) && Sized(a') && Enabled(a, Store(t, p, i, w)) && Next(a, Store(t, p, i, w), o, a') && o.ok
    ensures p < PAGES && Owned(a', t, p)
  {
  }

  /** In every run: a task that has stored to a page can store there again at any later time, without a frame and
      without fail, however short memory has become, unless it has forked, been made anew or ended since. */
  lemma StoreAgainIsFree(trace: seq<Abs>, ops: seq<Op>, os: seq<Outcome>, t: nat, p: nat, i: nat, w: Word,
                         j: nat, x: Word)
    requires IsRun(trace, ops, os) && WellFormed(trace[0]) && |ops| >= 2 && 1 <= t < NR_TASKS
    requires ops[0] == Store(t, p, i, w) && Enabled(trace[0], ops[0]) && os[0].ok
    requires forall k :: 1 <= k < |ops| - 1 ==> LeavesVerified(ops[k], os[k], t)
    requires ops[|ops| - 1] == Store(t, p, j, x) && Enabled(trace[|ops| - 1], ops[|ops| - 1])
    ensures os[|ops| - 1].ok && trace[|ops|].free == trace[|ops| - 1].free
  {
    var n := |ops| - 1;
    StepOf(trace, ops, os, 0);
    StepOf(trace, ops, os, n);
    StoreOwns(trace[0], t, p, i, w, os[0], trace[1]);
    OwnedFrom(trace, ops, os, n, t, p);
    StoreIsFree(trace[n], t, p, j, x, os[n], trace[n + 1]);
  }

  lemma OwnedFrom(trace: seq<Abs>, ops: seq<Op>, os: seq<Outcome>, n: nat, t: nat, p: nat)
    requires IsRun(trace, ops, os) && WellFormed(trace[0]) && 1 <= n <= |ops|
    requires 1 <= t < NR_TASKS && p < PAGES && Owned(trace[1], t, p)
    requires forall k :: 1 <= k < n ==> LeavesVerified(ops[k], os[k], t)
    ensures Owned(trace[n], t, p)
  {
    Prefix(trace, ops, os, n);
    Suffix(trace[..n + 1], ops[..n], os[..n], 1);
    InvAlways(trace, ops, os, 1);
    OwnedStays(trace[..n + 1][1..], ops[..n][1..], os[..n][1..], t, p);
    assert trace[..n + 1][1..][n - 1] == trace[n];
  }

  // ---------------------------------------------------------------- one outcome only

  /** If page q of task u is one of the pages of task t that moved, it is on a frame that was fresh in a and
      that it has alone; if not, it is on the frame it was on. */
  ghost predicate FrameOf(a: Abs, a': Abs, t: nat, moved: set<nat>, u: nat, q: nat)
    requires Sized(a) && Sized(a') && u < NR_TASKS && q < PAGES
  {
    if u == t && q in moved then Fresh(a, a'.frames[u][q]) && IsAlone(a', u, q)
    else a'.frames[u][q] == a.frames[u][q]
  }

  /** The pages of task t in `moved` got new frames, and no other page of anybody did. */
  ghost predicate Moved(a: Abs, a': Abs, t: nat, moved: set<nat>)
    requires Sized(a) && Sized(a')
  {
    forall u: nat, q: nat :: u < NR_TASKS && q < PAGES ==> FrameOf(a, a', t, moved, u, q)
  }

  /** Which frames were taken does not matter to who shares one. */
  lemma SharingBy(a: Abs, a1: Abs, a2: Abs, t: nat, moved: set<nat>, u: nat, q: nat)
    requires Sized(a) && Sized(a1) && Sized(a2) && Moved(a, a1, t, moved) && Moved(a, a2, t, moved)
    requires u < NR_TASKS && q < PAGES && IsAlone(a1, u, q)
    ensures IsAlone(a2, u, q)
  {
    assert FrameOf(a, a1, t, moved, u, q) && FrameOf(a, a2, t, moved, u, q);
    if u != t || q !in moved {
      var f := a.frames[u][q];
      forall v: nat, r: nat | v < NR_TASKS && r < PAGES && OnFrame(a2, v, r, f) ensures v == u && r == q {
        assert FrameOf(a, a1, t, moved, v, r) && FrameOf(a, a2, t, moved, v, r);
        assert OnFrame(a, u, q, f);
        assert OnFrame(a1, v, r, f);
      }
    }
  }

  lemma SameAlone(a: Abs, a1: Abs, a2: Abs, t: nat, moved: set<nat>)
    requires Sized(a) && Sized(a1) && Sized(a2) && Moved(a, a1, t, moved) && Moved(a, a2, t, moved)
    ensures SameSharing(a1, a2)
  {
    forall u: nat | u < NR_TASKS ensures AlonePages(a1, u) == AlonePages(a2, u) {
      forall q: nat | q < PAGES ensures IsAlone(a1, u, q) <==> IsAlone(a2, u, q) {
        if IsAlone(a1, u, q) { SharingBy(a, a1, a2, t, moved, u, q); }
        if IsAlone(a2, u, q) { SharingBy(a, a2, a1, t, moved, u, q); }
      }
    }
  }

  ghost predicate SameSharing(a1: Abs, a2: Abs)
    requires Sized(a1) && Sized(a2)
  {
    forall u: nat :: u < NR_TASKS ==> AlonePages(a1, u) == AlonePages(a2, u)
  }

  lemma EqualRows(a1: Abs, a2: Abs)
    requires Sized(a1) && Sized(a2) && a1.frames == a2.frames
    ensures SameSharing(a1, a2)
  {
    forall u: nat | u < NR_TASKS ensures AlonePages(a1, u) == AlonePages(a2, u) {
      forall q: nat | q < PAGES ensures IsAlone(a1, u, q) <==> IsAlone(a2, u, q) {
        assert forall v: nat, r: nat, f: int :: v < NR_TASKS && r < PAGES ==>
          (OnFrame(a1, v, r, f) <==> OnFrame(a2, v, r, f));
      }
    }
  }

  lemma MovedBy(a: Abs, a': Abs, t: nat, v: nat, moved: set<nat>)
    requires WellFormed(a) && WellFormed(a') && OthersKept(a, a', t, v) && 1 <= t < NR_TASKS
    requires forall p: nat :: p < PAGES ==> NewFrame(a, a', t, p, p in moved)
    requires moved <= a'.rw[t]
    ensures Moved(a, a', t, moved)
  {
    forall u: nat, q: nat | u < NR_TASKS && q < PAGES ensures FrameOf(a, a', t, moved, u, q) {
      if u != t {
        assert SameMemory(a, a', u);
      } else {
        assert NewFrame(a, a', t, q, q in moved);
      }
    }
  }

  /** What the operation decides: its outcome, the number of free frames, every private memory, who shares which
      page, and, but for a fork that failed, every write bit. */
  ghost predicate Agree(op: Op, o1: Outcome, a1: Abs, o2: Outcome, a2: Abs)
    requires Sized(a1) && Sized(a2)
  {
    && o1.ok == o2.ok && (op.Load? && o1.ok ==> o1.word == o2.word)
    && a1.free == a2.free && a1.spaces == a2.spaces && a1.tables == a2.tables && SameSharing(a1, a2)
    && a1.alive == a2.alive && a1.taken == a2.taken && a1.data == a2.data
    && (!op.Fork? || o1.ok ==> a1.rw == a2.rw)
  }

  /** The same row for the target and a's rows for everybody else. */
  lemma RowsAgree(a: Abs, a1: Abs, a2: Abs, t: nat, v: nat)
    requires WellFormed(a) && WellFormed(a1) && WellFormed(a2) && OthersKept(a, a1, t, v) && OthersKept(a, a2, t, v)
    requires 1 <= t < NR_TASKS && a1.spaces[t] == a2.spaces[t] && a1.tables[t] == a2.tables[t]
    ensures a1.spaces == a2.spaces && a1.tables == a2.tables
    ensures a1.frames[t] == a2.frames[t] ==> a1.frames == a2.frames
    ensures a1.rw[t] == a2.rw[t] && (v == 0 || v >= NR_TASKS || a1.rw[v] == a2.rw[v]) ==> a1.rw == a2.rw
  {
    forall u | 0 <= u < NR_TASKS && u != t
      ensures a1.spaces[u] == a2.spaces[u] && a1.tables[u] == a2.tables[u] && a1.frames[u] == a2.frames[u]
    {
      assert SameMemory(a, a1, u) && SameMemory(a, a2, u);
    }
    forall u | 0 <= u < NR_TASKS && u != t && u != v ensures a1.rw[u] == a2.rw[u] {
      assert a1.rw[u] == a.rw[u] && a2.rw[u] == a.rw[u];
    }
    if v == 0 { assert a1.rw[0] == a.rw[0] && a2.rw[0] == a.rw[0]; }
  }

  lemma AccessAgrees(a: Abs, a1: Abs, a2: Abs, t: nat, p: nat, o1: Outcome, o2: Outcome, v: View,
                     cost: nat, writes: bool)
    requires WellFormed(a) && WellFormed(a1) && WellFormed(a2) && 1 <= t < NR_TASKS && (cost > 0 ==> writes)
    requires OthersKept(a, a1, t, t) && OthersKept(a, a2, t, t)
    requires Access(a, a1, t, p, o1, v, cost, writes) && Access(a, a2, t, p, o2, v, cost, writes)
    ensures o1.ok == o2.ok && a1.free == a2.free && a1.spaces == a2.spaces && a1.tables == a2.tables && a1.rw == a2.rw
    ensures SameSharing(a1, a2) && a1.alive == a2.alive && a1.taken == a2.taken && a1.data == a2.data
  {
    RowsAgree(a, a1, a2, t, t);
    if o1.ok {
      var moved := if cost > 0 then {p} else {};
      MovedBy(a, a1, t, t, moved);
      MovedBy(a, a2, t, t, moved);
      SameAlone(a, a1, a2, t, moved);
    } else {
      EqualRows(a1, a2);
    }
  }

  lemma UserAgrees(a: Abs, op: Op, o1: Outcome, a1: Abs, o2: Outcome, a2: Abs)
    requires WellFormed(a) && WellFormed(a1) && WellFormed(a2) && Enabled(a, op) && (op.Store? || op.Put? || op.Load?)
    requires Next(a, op, o1, a1) && Next(a, op, o2, a2)
    ensures Agree(op, o1, a1, o2, a2)
  {
    var t, p := op.cur, op.p;
    assert p < PAGES && FrameOk(a, t, p);
    match op {
      case Store(t, p, i, w) =>
        AccessAgrees(a, a1, a2, t, p, o1, o2, Stored(PageAt(a, t, p), a.low, i, w),
                     LoadCost(a, t, p) + VerifyCost(a, t, p), true);
      case Put(t, p, i, w) =>
        AccessAgrees(a, a1, a2, t, p, o1, o2, Stored(PageAt(a, t, p), a.low, i, w), LoadCost(a, t, p), true);
      case Load(t, p, i) =>
        AccessAgrees(a, a1, a2, t, p, o1, o2, LoadedView(PageAt(a, t, p)), LoadCost(a, t, p), PageAt(a, t, p).Absent?);
    }
  }

  lemma VerifyAgrees(a: Abs, op: Op, o1: Outcome, a1: Abs, o2: Outcome, a2: Abs)
    requires WellFormed(a) && WellFormed(a1) && WellFormed(a2) && Enabled(a, op) && op.Verify?
    requires Next(a, op, o1, a1) && Next(a, op, o2, a2)
    ensures Agree(op, o1, a1, o2, a2)
  {
    var t, lo, hi := op.cur, FirstPage(op.addr), AreaEnd(op.addr, op.size);
    RowsAgree(a, a1, a2, t, t);
    if o1.ok {
      var moved := NeedyPages(a, t, lo, hi);
      MovedBy(a, a1, t, t, moved);
      MovedBy(a, a2, t, t, moved);
      SameAlone(a, a1, a2, t, moved);
    } else {
      EqualRows(a1, a2);
    }
  }

  /** Operations that leave every row what it was, or make it what they say. */
  lemma OthersAgree(a: Abs, op: Op, o1: Outcome, a1: Abs, o2: Outcome, a2: Abs)
    requires WellFormed(a) && WellFormed(a1) && WellFormed(a2) && Enabled(a, op)
    requires op.Fork? || op.Exec? || op.Exit?
    requires Next(a, op, o1, a1) && Next(a, op, o2, a2)
    ensures Agree(op, o1, a1, o2, a2)
  {
    RowsAgree(a, a1, a2, Target(op), if op.Fork? then op.cur else Target(op));
    EqualRows(a1, a2);
  }

  lemma KernelAgrees(a: Abs, op: Op, o1: Outcome, a1: Abs, o2: Outcome, a2: Abs)
    requires WellFormed(a) && WellFormed(a1) && WellFormed(a2) && Enabled(a, op) && Target(op) == 0
    requires Next(a, op, o1, a1) && Next(a, op, o2, a2)
    ensures Agree(op, o1, a1, o2, a2)
  {
    forall u | 0 <= u < NR_TASKS
      ensures a1.spaces[u] == a2.spaces[u] && a1.tables[u] == a2.tables[u] && a1.frames[u] == a2.frames[u]
      ensures a1.rw[u] == a2.rw[u]
    {
      assert SameMemory(a, a1, u) && SameMemory(a, a2, u) && a1.rw[u] == a.rw[u] && a2.rw[u] == a.rw[u];
    }
    EqualRows(a1, a2);
  }

  /** The run relation leaves nothing open: whatever frames were picked, the same operation in the same state has
      the same outcome, and leaves as many free frames, the same private memories and the same sharing. */
  lemma Determined(a: Abs, op: Op, o1: Outcome, a1: Abs, o2: Outcome, a2: Abs)
    requires WellFormed(a) && Sized(a1) && Sized(a2) && Enabled(a, op)
    requires Next(a, op, o1, a1) && Next(a, op, o2, a2)
    ensures Agree(op, o1, a1, o2, a2)
  {
    NextKeeps(a, op, o1, a1);
    NextKeeps(a, op, o2, a2);
    if op.Store? || op.Put? || op.Load? {
      UserAgrees(a, op, o1, a1, o2, a2);
    } else if op.Verify? {
      VerifyAgrees(a, op, o1, a1, o2, a2);
    } else if op.Fork? || op.Exec? || op.Exit? {
      OthersAgree(a, op, o1, a1, o2, a2);
    } else {
      KernelAgrees(a, op, o1, a1, o2, a2);
    }
  }

  // ---------------------------------------------------------------- memory, word by word

  /** What task t reads at word i of its page q: zero where there is no page yet, the low memory where that is lent. */
  ghost function Reads(a: Abs, t: nat, q: nat, i: nat): Word
    requires WellFormed(a) && t < NR_TASKS && i < ENTRIES
  {
    match PageAt(a, t, q)
    case Absent => Word(0, 0, false, false, false)
    case Low(f) => a.low[f][i]
    case Own(page) => page[i]
  }

  /** Page q is not the one that task 0 has lent of the page directory, which the kernel writes to. */
  ghost predicate NotDirectory(a: Abs, t: nat, q: nat)
    requires WellFormed(a) && t < NR_TASKS
  {
    PageAt(a, t, q) != Low(0)
  }

  lemma LoadReads(a: Abs, t: nat, p: nat, i: nat, o: Outcome, a': Abs)
    requires WellFormed(a) && Sized(a') && Enabled(a, Load(t, p, i)) && Next(a, Load(t, p, i), o, a') && o.ok
    ensures o.word == Reads(a, t, p, i)
  {
  }

  /** A store, by a user or by put_fs, changes this one word of its task. */
  lemma StoreReads(a: Abs, op: Op, t: nat, p: nat, i: nat, w: Word, o: Outcome, a': Abs, q: nat, j: nat)
    requires WellFormed(a) && WellFormed(a') && (op == Store(t, p, i, w) || op == Put(t, p, i, w))
    requires Enabled(a, op) && Next(a, op, o, a') && o.ok && j < ENTRIES && NotDirectory(a, t, q)
    ensures Reads(a', t, q, j) == if q == p && j == i then w else Reads(a, t, q, j)
  {
    var v := PageAt(a, t, p);
    assert a'.spaces[t] == a.spaces[t][p := Stored(v, a.low, i, w)];
  }

  /** A load and verify_area change none. */
  lemma QuietReads(a: Abs, op: Op, o: Outcome, a': Abs, q: nat, j: nat)
    requires WellFormed(a) && WellFormed(a') && (op.Load? || op.Verify?) && Enabled(a, op) && Next(a, op, o, a') && o.ok
    requires j < ENTRIES && NotDirectory(a, op.cur, q)
    ensures Reads(a', op.cur, q, j) == Reads(a, op.cur, q, j)
  {
    if q < PAGES && op.Verify? { assert PageOk(a.spaces[op.cur][q]); }
  }

  /** A child reads what its parent read; the child of task 0 reads the low memory, page for page. */
  lemma ForkReads(a: Abs, cur: nat, nr: nat, o: Outcome, a': Abs, q: nat, j: nat)
    requires WellFormed(a) && WellFormed(a') && Enabled(a, Fork(cur, nr)) && Next(a, Fork(cur, nr), o, a') && o.ok
    requires j < ENTRIES && NotDirectory(a, cur, q)
    ensures Reads(a', nr, q, j) == Reads(a, cur, q, j)
    ensures cur == 0 ==>
      Reads(a', nr, q, j) == if 1 <= q < 160 then a.low[q][j] else Word(0, 0, false, false, false)
  {
    assert PageAt(a', nr, q) == PageAt(a, cur, q);
    if cur == 0 && q < PAGES { assert a.spaces[0][q] == if q < 160 then Low(q) else Absent; }
  }

  /** A new program reads the 32 argument pages at the end of its 64 MB and zeros everywhere else. */
  lemma ExecReads(a: Abs, t: nat, newCode: nat, page: seq<nat>, o: Outcome, a': Abs, q: nat, j: nat)
    requires WellFormed(a) && WellFormed(a') && Enabled(a, Exec(t, newCode, page))
    requires Next(a, Exec(t, newCode, page), o, a') && j < ENTRIES
    ensures forall k :: 0 <= k < 32 && page[k] != 0 ==> page[k] in a.kept
    ensures Reads(a', t, q, j) ==
      if 16352 <= q < 16384 && page[q - 16352] != 0 then a.kept[page[q - 16352]][j] else Word(0, 0, false, false, false)
  {
    assert PageAt(a', t, q) == if q < PAGES then StartSpace(a, page)[q] else Absent;
  }

  /** Whatever one task does, the others read what they read, but for a store of the kernel to a frame of the
      low memory that they have been lent. */
  lemma OthersRead(a: Abs, op: Op, o: Outcome, a': Abs, u: nat, q: nat, j: nat)
    requires WellFormed(a) && WellFormed(a') && Enabled(a, op) && Next(a, op, o, a')
    requires u < NR_TASKS && u != Target(op) && j < ENTRIES && NotDirectory(a, u, q)
    ensures Reads(a', u, q, j) ==
      if op.KernelStore? && PageAt(a, u, q) == Low(op.f) && j == op.i then op.w else Reads(a, u, q, j)
  {
    assert SameMemory(a, a', u);
    assert PageAt(a', u, q) == PageAt(a, u, q) && PageOk(PageAt(a, u, q));
  }

  /** The first fork of every boot: what the first child loads from page q is word i of frame q. */
  lemma FirstChildLoads(trace: seq<Abs>, os: seq<Outcome>, nr: nat, q: nat, i: nat)
    requires IsRun(trace, [Fork(0, nr), Load(nr, q, i)], os) && WellFormed(trace[0]) && 1 <= q < 160
    requires Enabled(trace[0], Fork(0, nr)) && os[0].ok && Enabled(trace[1], Load(nr, q, i)) && os[1].ok
    ensures os[1].word == trace[0].low[q][i]
  {
    var ops := [Fork(0, nr), Load(nr, q, i)];
    StepOf(trace, ops, os, 0);
    StepOf(trace, ops, os, 1);
    assert trace[0].spaces[0][q] == Low(q);
    ForkReads(trace[0], 0, nr, os[0], trace[1], q, i);
    LoadReads(trace[1], nr, q, i, os[1], trace[2]);
  }

  /** verify_area by addresses: after it the kernel may store at every byte of the area. */
  lemma EveryByteVerified(a: Abs, t: nat, addr: nat, size: int, o: Outcome, a': Abs, x: nat)
    requires WellFormed(a) && Sized(a') && Enabled(a, Verify(t, addr, size)) && Next(a, Verify(t, addr, size), o, a')
    requires o.ok && addr <= x < addr + size
    ensures x / 4096 < 16384 && (a'.spaces[t][x / 4096].Absent? || x / 4096 in a'.rw[t])
    ensures FirstPage(addr) <= x / 4096 < AreaEnd(addr, size)
  {
    ByteInArea(addr, size, x, a.data[t]);
  }

  lemma ByteInArea(addr: nat, size: int, x: nat, limit: nat)
    requires InSegment(addr, size, limit) && limit <= 0x4000000 && addr <= x < addr + size
    ensures FirstPage(addr) <= x / 4096 < AreaEnd(addr, size) && x / 4096 < 16384
  {
  }
}
