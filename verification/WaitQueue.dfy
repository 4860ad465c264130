/** sleep_on and wake_up of kernel/sched.c for any number of tasks and queues.  A queue is threaded
    through the local variable `tmp` that every task inside sleep_on keeps on its kernel stack.  A
    task may stop only where sleep_on calls schedule, so a step is the code up to that call, the
    code after it, or wake_up. */
module WaitQueue {
  import opened Counting

  const NULL: int := -1

  datatype TaskState = Running | Interruptible | Uninterruptible | Zombie | Stopped

  /** The stack frame of sleep_on, with its saved `tmp`. */
  datatype Frame = Outside | Inside(tmp: int)

  /** `chains` spells what the links mean: chains[q] for q < |heads| is the queue of heads[q], read
      from the head; every later one is a queue that wake_up detached and that has not run dry. */
  datatype State = State(heads: seq<int>, state: seq<TaskState>, frame: seq<Frame>, chains: seq<seq<int>>)

  function Next(c: seq<int>, k: nat): int
    requires k < |c|
  {
    if k + 1 < |c| then c[k + 1] else NULL
  }

  ghost predicate Member(s: State, i: int, k: int) { 0 <= i < |s.chains| && 0 <= k < |s.chains[i]| }

  ghost predicate Linked(s: State, i: int, k: int)
    requires Member(s, i, k)
  {
    var u := s.chains[i][k];
    && 0 < u < |s.frame| == |s.state| && s.frame[u] == Inside(Next(s.chains[i], k))
    && s.state[u] == if i >= |s.heads| && k == 0 then Running else Uninterruptible
  }

  /** u waits in chain i behind k others. */
  ghost predicate Waits(s: State, u: int, i: int, k: int) { Member(s, i, k) && s.chains[i][k] == u }

  ghost predicate Inv(s: State) {
    && |s.state| == |s.frame| && |s.heads| <= |s.chains|
    && (forall q :: 0 <= q < |s.heads| ==> s.heads[q] == if s.chains[q] == [] then NULL else s.chains[q][0])
    && (forall i, k :: Member(s, i, k) ==> Linked(s, i, k))
    && (forall u, i, k, j, l :: Waits(s, u, i, k) && Waits(s, u, j, l) ==> i == j && k == l)
    && (forall u :: 0 <= u < |s.frame| && s.frame[u].Inside? ==> exists i, k :: Waits(s, u, i, k))
    && (forall u :: 0 <= u < |s.frame| && s.frame[u].Outside? ==> s.state[u] != Uninterruptible)
  }

  // ---------------------------------------------------------------- steps

  /** sleep_on up to schedule(). */
  function Slept(s: State, u: nat, q: nat): State
    requires u < |s.frame| == |s.state| && q < |s.heads| <= |s.chains|
  {
    State(s.heads[q := u], s.state[u := Uninterruptible], s.frame[u := Inside(s.heads[q])],
          s.chains[q := [u] + s.chains[q]])
  }

  lemma SleptStep(s: State, u: nat, q: nat)
    requires Inv(s) && 0 < u < |s.frame| && s.frame[u].Outside? && q < |s.heads|
    ensures Inv(Slept(s, u, q))
  {
    var s' := Slept(s, u, q);
    forall i, k | Member(s', i, k) ensures Linked(s', i, k) {
      if i == q && k > 0 {
        assert Member(s, i, k - 1) && Linked(s, i, k - 1);
      } else if i != q {
        assert Member(s, i, k) && Linked(s, i, k);
      }
    }
    forall v, i, k, j, l | Waits(s', v, i, k) && Waits(s', v, j, l) ensures i == j && k == l {
      if v != u {
        assert Waits(s, v, i, if i == q then k - 1 else k) && Waits(s, v, j, if j == q then l - 1 else l);
      } else {
        assert i != q || k > 0 ==> Linked(s, i, if i == q then k - 1 else k);
        assert j != q || l > 0 ==> Linked(s, j, if j == q then l - 1 else l);
      }
    }
    forall v | 0 <= v < |s'.frame| && s'.frame[v].Inside? ensures exists i, k :: Waits(s', v, i, k) {
      if v == u {
        assert Waits(s', v, q, 0);
      } else {
        var i, k :| Waits(s, v, i, k);
        assert Waits(s', v, i, if i == q then k + 1 else k);
      }
    }
  }

  /** wake_up */
  function Woken(s: State, q: nat): State
    requires q < |s.heads| <= |s.chains| && (s.heads[q] == NULL || 0 <= s.heads[q] < |s.state|)
  {
    if s.heads[q] == NULL then s
    else State(s.heads[q := NULL], s.state[s.heads[q] := Running], s.frame, s.chains[q := []] + [s.chains[q]])
  }

  lemma HeadInRange(s: State, q: nat)
    requires Inv(s) && q < |s.heads|
    ensures s.heads[q] == NULL || (0 < s.heads[q] < |s.state| && s.state[s.heads[q]] == Uninterruptible)
  {
    if s.chains[q] != [] {
      assert Member(s, q, 0) && Linked(s, q, 0);
    }
  }

  lemma WokenStep(s: State, q: nat)
    requires Inv(s) && q < |s.heads|
    ensures s.heads[q] == NULL || 0 <= s.heads[q] < |s.state|
    ensures Inv(Woken(s, q))
  {
    HeadInRange(s, q);
    if s.heads[q] != NULL {
      var s' := Woken(s, q);
      forall i, k | Member(s', i, k) ensures Linked(s', i, k) {
        assert Member(s, Before(s, q, i), k) && Linked(s, Before(s, q, i), k);
        assert s.chains[Before(s, q, i)][k] == s.heads[q] ==>
          Waits(s, s.heads[q], Before(s, q, i), k) && Waits(s, s.heads[q], q, 0);
      }
      forall v, i, k, j, l | Waits(s', v, i, k) && Waits(s', v, j, l) ensures i == j && k == l {
        assert Waits(s, v, Before(s, q, i), k) && Waits(s, v, Before(s, q, j), l);
      }
      forall v | 0 <= v < |s'.frame| && s'.frame[v].Inside? ensures exists i, k :: Waits(s', v, i, k) {
        var i, k :| Waits(s, v, i, k);
        assert Waits(s', v, if i == q then |s.chains| else i, k);
      }
    }
  }

  /** Where chain i of Woken(s, q) was before. */
  function Before(s: State, q: int, i: int): int { if i == |s.chains| then q else i }

  /** sleep_on after schedule(): u leaves, and what it had saved becomes runnable. */
  function Resumed(s: State, u: nat, i: nat): State
    requires u < |s.frame| == |s.state| && s.frame[u].Inside? && i < |s.chains| && s.chains[i] != []
    requires s.frame[u].tmp == NULL || 0 <= s.frame[u].tmp < |s.state|
  {
    var tmp := s.frame[u].tmp;
    State(s.heads, if tmp == NULL then s.state else s.state[tmp := Running], s.frame[u := Outside],
          s.chains[i := s.chains[i][1..]])
  }

  /** A runnable task inside sleep_on is first of a detached queue, and what it saved still sleeps. */
  lemma RunnableIsFirst(s: State, u: nat) returns (i: nat)
    requires Inv(s) && u < |s.frame| && s.frame[u].Inside? && s.state[u] == Running
    ensures |s.heads| <= i < |s.chains| && Waits(s, u, i, 0)
    ensures s.frame[u].tmp == Next(s.chains[i], 0)
    ensures s.frame[u].tmp == NULL || (0 < s.frame[u].tmp < |s.state| && s.state[s.frame[u].tmp] == Uninterruptible)
  {
    var j, k :| Waits(s, u, j, k);
    assert Linked(s, j, k);
    i := j;
    if |s.chains[i]| > 1 {
      assert Member(s, i, 1) && Linked(s, i, 1);
    }
  }

  lemma ResumedStep(s: State, u: nat, i: nat)
    requires Inv(s) && u < |s.frame| && s.frame[u].Inside? && s.state[u] == Running
    requires |s.heads| <= i < |s.chains| && Waits(s, u, i, 0)
    ensures s.frame[u].tmp == NULL || 0 <= s.frame[u].tmp < |s.state|
    ensures Inv(Resumed(s, u, i))
  {
    var j := RunnableIsFirst(s, u);
    var s' := Resumed(s, u, i);
    forall j, k | Member(s', j, k) ensures Linked(s', j, k) {
      var k0 := if j == i then k + 1 else k;
      assert Member(s, j, k0) && Linked(s, j, k0);
      var v := s.chains[j][k0];
      assert Waits(s, v, j, k0);
      assert v != u;
      if |s.chains[i]| > 1 && v == s.chains[i][1] {
        assert Waits(s, v, i, 1);
      }
    }
    forall v, j, k, m, l | Waits(s', v, j, k) && Waits(s', v, m, l) ensures j == m && k == l {
      assert Waits(s, v, j, if j == i then k + 1 else k) && Waits(s, v, m, if m == i then l + 1 else l);
    }
    forall v | 0 <= v < |s'.frame| && s'.frame[v].Inside? ensures exists j, k :: Waits(s', v, j, k) {
      var j, k :| Waits(s, v, j, k);
      assert Waits(s', v, j, if j == i then k - 1 else k);
    }
  }

  /** The rest of the kernel changes the state of tasks that are not inside sleep_on, never to
      uninterruptible sleep. */
  function Changed(s: State, u: nat, st: TaskState): State
    requires u < |s.state|
  {
    s.(state := s.state[u := st])
  }

  lemma ChangedStep(s: State, u: nat, st: TaskState)
    requires Inv(s) && u < |s.frame| && s.frame[u].Outside? && st != Uninterruptible
    ensures Inv(Changed(s, u, st))
  {
    var s' := Changed(s, u, st);
    forall i, k | Member(s', i, k) ensures Linked(s', i, k) {
      assert Member(s, i, k) && Linked(s, i, k);
    }
    forall v, i, k, j, l | Waits(s', v, i, k) && Waits(s', v, j, l) ensures i == j && k == l {
      assert Waits(s, v, i, k) && Waits(s, v, j, l);
    }
    forall v | 0 <= v < |s'.frame| && s'.frame[v].Inside? ensures exists i, k :: Waits(s', v, i, k) {
      var i, k :| Waits(s, v, i, k);
      assert Waits(s', v, i, k);
    }
  }

  // ---------------------------------------------------------------- no sleeper is lost

  ghost function QueuesHeadedBy(s: State, u: int): set<int> {
    set q | 0 <= q < |s.heads| && s.heads[q] == u
  }

  ghost function SavedBy(s: State, u: int): set<int> {
    set v | 0 <= v < |s.frame| && s.frame[v] == Inside(u)
  }

  lemma Heads(s: State, u: nat, i: int, k: int)
    requires Inv(s) && Waits(s, u, i, k)
    ensures QueuesHeadedBy(s, u) == if k == 0 && i < |s.heads| then {i} else {}
  {
    assert Linked(s, i, k);
    forall q | q in QueuesHeadedBy(s, u) ensures q == i && k == 0 {
      assert s.chains[q] != [] && Waits(s, u, q, 0);
    }
  }

  lemma Savers(s: State, u: nat, i: int, k: int)
    requires Inv(s) && Waits(s, u, i, k)
    ensures SavedBy(s, u) == if k == 0 then {} else {s.chains[i][k - 1]}
  {
    assert Linked(s, i, k);
    if k > 0 {
      assert Member(s, i, k - 1) && Linked(s, i, k - 1);
    }
    forall v | v in SavedBy(s, u) ensures k > 0 && v == s.chains[i][k - 1] {
      var j, l :| Waits(s, v, j, l);
      assert Linked(s, j, l) && l + 1 < |s.chains[j]|;
      assert Waits(s, u, j, l + 1);
    }
  }

  /** Whoever sleeps in sleep_on is the head of exactly one queue or the saved tmp of exactly one
      other task inside sleep_on, and whoever has been woken there is neither. */
  lemma OneWakerEach(s: State, u: nat)
    requires Inv(s) && u < |s.frame| && s.frame[u].Inside?
    ensures |QueuesHeadedBy(s, u)| + |SavedBy(s, u)| == One(s.state[u] == Uninterruptible)
    ensures s.state[u] == Uninterruptible || s.state[u] == Running
    ensures u !in SavedBy(s, u)
  {
    var i, k :| Waits(s, u, i, k);
    assert Linked(s, i, k);
    Heads(s, u, i, k);
    Savers(s, u, i, k);
    if k > 0 { assert Waits(s, s.chains[i][k - 1], i, k - 1); }
  }

  // ---------------------------------------------------------------- runs

  datatype Event = Sleep(u: int, q: nat) | Resume(u: int) | Wake(q: nat) | Change(u: int, st: TaskState)

  ghost predicate Moves(s: State, e: Event, s': State)
    requires Inv(s)
  {
    match e
    case Sleep(u, q) => 0 < u < |s.frame| && s.frame[u].Outside? && q < |s.heads| && s' == Slept(s, u, q)
    case Resume(u) =>
      && 0 <= u < |s.frame| && s.frame[u].Inside? && s.state[u] == Running
      && exists i: nat :: ResumedFrom(s, u, i, s')
    case Wake(q) => q < |s.heads| && (s.heads[q] == NULL || 0 <= s.heads[q] < |s.state|) && s' == Woken(s, q)
    case Change(u, st) =>
      0 <= u < |s.frame| && s.frame[u].Outside? && st != Uninterruptible && s' == Changed(s, u, st)
  }

  ghost predicate ResumedFrom(s: State, u: nat, i: nat, s': State)
    requires u < |s.frame| == |s.state| && s.frame[u].Inside?
  {
    && |s.heads| <= i && Waits(s, u, i, 0)
    && (s.frame[u].tmp == NULL || 0 <= s.frame[u].tmp < |s.state|)
    && s' == Resumed(s, u, i)
  }

  lemma MovesKeepInv(s: State, e: Event, s': State)
    requires Inv(s) && Moves(s, e, s')
    ensures Inv(s') && |s'.heads| == |s.heads| && |s'.chains| >= |s.chains|
  {
    match e
    case Sleep(u, q) => SleptStep(s, u, q);
    case Resume(u) =>
      var i: nat :| ResumedFrom(s, u, i, s');
      ResumedStep(s, u, i);
    case Wake(q) => WokenStep(s, q);
    case Change(u, st) => ChangedStep(s, u, st);
  }

  /** A detached queue changes only when its first task resumes, which drops exactly that task. */
  lemma DetachedStep(s: State, e: Event, s': State, i: nat)
    requires Inv(s) && Moves(s, e, s') && |s.heads| <= i < |s.chains|
    ensures i < |s'.chains|
    ensures if s.chains[i] != [] && e == Resume(s.chains[i][0]) then s'.chains[i] == s.chains[i][1..]
            else s'.chains[i] == s.chains[i] && (e.Resume? ==> e.u !in s.chains[i])
  {
    MovesKeepInv(s, e, s');
    if e.Resume? {
      var j: nat :| ResumedFrom(s, e.u, j, s');
      forall k | 0 <= k < |s.chains[i]| && s.chains[i][k] == e.u ensures i == j && k == 0 {
        assert Waits(s, e.u, i, k) && Waits(s, e.u, j, 0);
      }
    }
  }

  /** ss[k + 1] comes from ss[k] by es[k].  Nothing is said of a step from a state without the invariant. */
  ghost predicate IsRun(ss: seq<State>, es: seq<Event>) {
    && |ss| == |es| + 1
    && forall k {:trigger es[k]} :: 0 <= k < |es| && Inv(ss[k]) ==> Moves(ss[k], es[k], ss[k + 1])
  }

  /** The invariant of the first state holds in every state. */
  lemma {:induction false} InvAlways(ss: seq<State>, es: seq<Event>, n: nat)
    requires IsRun(ss, es) && n < |ss| && Inv(ss[0])
    ensures Inv(ss[n])
  {
    if n > 0 {
      InvAlways(ss, es, n - 1);
      MovesKeepInv(ss[n - 1], es[n - 1], ss[n]);
    }
  }

  ghost predicate ResumedWithin(es: seq<Event>, u: int, n: nat) {
    exists m :: 0 <= m < n <= |es| && es[m] == Resume(u)
  }

  /** After n steps a detached queue c has lost a prefix: those who have resumed, each once its turn
      came; nobody of the rest has. */
  lemma {:induction false} ChainDrains(ss: seq<State>, es: seq<Event>, i: nat, n: nat) returns (r: nat)
    requires IsRun(ss, es) && n <= |es| && Inv(ss[0]) && |ss[0].heads| <= i < |ss[0].chains|
    ensures Inv(ss[n]) && |ss[n].heads| == |ss[0].heads| && i < |ss[n].chains|
    ensures r <= |ss[0].chains[i]| && ss[n].chains[i] == ss[0].chains[i][r..]
    ensures forall x :: 0 <= x < |ss[0].chains[i]| ==>
      0 < ss[0].chains[i][x] && (ResumedWithin(es, ss[0].chains[i][x], n) <==> x < r)
  {
    var c := ss[0].chains[i];
    forall x | 0 <= x < |c| ensures 0 < c[x] {
      assert Member(ss[0], i, x) && Linked(ss[0], i, x);
    }
    r := 0;
    if n > 0 {
      var r0 := ChainDrains(ss, es, i, n - 1);
      var s, e, s' := ss[n - 1], es[n - 1], ss[n];
      MovesKeepInv(s, e, s');
      DetachedStep(s, e, s', i);
      r := if r0 < |c| && e == Resume(c[r0]) then r0 + 1 else r0;
      forall x | 0 <= x < |c| ensures ResumedWithin(es, c[x], n) <==> x < r {
        OneMore(es, c[x], n);
        if x >= r0 {
          assert c[r0..][x - r0] == c[x];
          if x > r0 { Distinct(ss[0], i, r0, x); }
        }
      }
    }
  }

  lemma OneMore(es: seq<Event>, u: int, n: nat)
    requires 0 < n <= |es|
    ensures ResumedWithin(es, u, n) <==> ResumedWithin(es, u, n - 1) || es[n - 1] == Resume(u)
  {
  }

  lemma Distinct(s: State, i: int, k: int, l: int)
    requires Inv(s) && Member(s, i, k) && Member(s, i, l) && k != l
    ensures s.chains[i][k] != s.chains[i][l]
  {
    assert Waits(s, s.chains[i][k], i, k);
    assert s.chains[i][l] == s.chains[i][k] ==> Waits(s, s.chains[i][k], i, l);
  }

  /** No lost sleeper: after wake_up(q), a task that slept on q behind k others is runnable as soon as
      each of those k has resumed once, whatever else sleeps, wakes and resumes in between; until then
      one of the k is runnable. */
  lemma WakeUpReachesAll(s: State, q: nat, k: nat, ss: seq<State>, es: seq<Event>)
    requires Inv(s) && q < |s.heads| && k < |s.chains[q]| && HeadOk(s, q)
    requires IsRun(ss, es) && ss[0] == Woken(s, q)
    ensures forall x :: 0 <= x <= k ==> 0 < s.chains[q][x] < |ss[|es|].state|
    ensures (forall x :: 0 <= x < k ==> ResumedWithin(es, s.chains[q][x], |es|)) ==>
      ss[|es|].state[s.chains[q][k]] == Running || ResumedWithin(es, s.chains[q][k], |es|)
    ensures !(forall x :: 0 <= x < k ==> ResumedWithin(es, s.chains[q][x], |es|)) ==>
      exists x :: 0 <= x < k && ss[|es|].state[s.chains[q][x]] == Running
  {
    WokenStep(s, q);
    assert Member(s, q, 0) && Linked(s, q, 0);
    var c, i, n := s.chains[q], |s.chains|, |es|;
    assert ss[0].chains[i] == c;
    var r := ChainDrains(ss, es, i, n);
    SameTasks(ss, es, n);
    forall x | 0 <= x <= k ensures 0 < c[x] < |ss[n].state| {
      assert Member(ss[0], i, x) && Linked(ss[0], i, x);
    }
    if r <= k {
      assert Member(ss[n], i, 0) && Linked(ss[n], i, 0);
    }
  }

  ghost predicate HeadOk(s: State, q: nat)
    requires q < |s.heads|
  {
    |s.heads| <= |s.chains| && (s.heads[q] == NULL || 0 <= s.heads[q] < |s.state|)
  }

  lemma {:induction false} SameTasks(ss: seq<State>, es: seq<Event>, n: nat)
    requires IsRun(ss, es) && n <= |es| && Inv(ss[0])
    ensures |ss[n].state| == |ss[0].state|
  {
    if n > 0 {
      SameTasks(ss, es, n - 1);
      InvAlways(ss, es, n - 1);
      assert Moves(ss[n - 1], es[n - 1], ss[n]);
    }
  }

  // ---------------------------------------------------------------- the code

  class WaitQueues {
    const heads: array<int>
    const state: array<TaskState>
    const frame: array<Frame>
    ghost var chains: seq<seq<int>>

    ghost function S(): State
      reads this, heads, state, frame
    {
      State(heads[..], state[..], frame[..], chains)
    }

    ghost predicate Valid()
      reads this, heads, state, frame
    {
      Inv(S())
    }

    constructor (queues: nat, tasks: nat)
      ensures Valid() && heads.Length == queues && frame.Length == tasks
      ensures forall u :: 0 <= u < tasks ==> frame[u].Outside? && state[u] == Running
    {
      heads := new int[queues](_ => NULL);
      state := new TaskState[tasks](_ => Running);
      frame := new Frame[tasks](_ => Outside);
      chains := seq(queues, _ => []);
    }

    /** sleep_on up to schedule(), called by task u: "task[0] trying to sleep" is the caller's fault. */
    method SleepOn(u: nat, q: nat)
      requires Valid() && 0 < u < frame.Length && frame[u].Outside? && q < heads.Length
      modifies this, heads, state, frame
      ensures Valid() && S() == Slept(old(S()), u, q)
      ensures heads[..] == old(heads[..])[q := u] && state[..] == old(state[..])[u := Uninterruptible]
      ensures frame[..] == old(frame[..])[u := Inside(old(heads[q]))]
    {
      ghost var s := S();
      SleptStep(s, u, q);
      var tmp := heads[q];
      heads[q] := u;
      state[u] := Uninterruptible;
      frame[u] := Inside(tmp);
      chains := chains[q := [u] + chains[q]];
      assert S() == Slept(s, u, q);
    }

    /** sleep_on after schedule(), which runs only runnable tasks: what it had saved still slept. */
    method Resume(u: nat)
      requires Valid() && u < frame.Length && frame[u].Inside? && state[u] == Running
      modifies this, state, frame
      ensures Valid() && Moves(old(S()), Event.Resume(u), S())
      ensures frame[u].Outside? && forall v :: 0 <= v < frame.Length && v != u ==> frame[v] == old(frame[v])
      ensures old(frame[u].tmp) == NULL ==> state[..] == old(state[..])
      ensures old(frame[u].tmp) != NULL ==> 0 <= old(frame[u].tmp) < state.Length
      ensures old(frame[u].tmp) != NULL ==> old(state[frame[u].tmp]) == Uninterruptible
      ensures old(frame[u].tmp) != NULL ==> state[..] == old(state[..])[old(frame[u].tmp) := Running]
    {
      ghost var s := S();
      ghost var i := RunnableIsFirst(s, u);
      ResumedStep(s, u, i);
      var tmp := frame[u].tmp;
      if tmp != NULL {
        state[tmp] := Running;
      }
      frame[u] := Outside;
      chains := chains[i := chains[i][1..]];
      assert S() == Resumed(s, u, i);
      assert ResumedFrom(s, u, i, S());
    }

    method WakeUp(q: nat)
      requires Valid() && q < heads.Length
      modifies this, heads, state
      ensures old(HeadOk(S(), q)) && Valid() && S() == Woken(old(S()), q)
      ensures heads[..] == old(heads[..])[q := -1] && frame[..] == old(frame[..])
      ensures state[..] == if old(heads[q]) == -1 then old(state[..]) else old(state[..])[old(heads[q]) := Running]
    {
      ghost var s := S();
      HeadInRange(s, q);
      WokenStep(s, q);
      if heads[q] != NULL {
        state[heads[q]] := Running;
        heads[q] := NULL;
        chains := chains[q := []] + [chains[q]];
      }
      assert S() == Woken(s, q);
    }
  }
}
