/** schedule, do_timer and sys_nice of kernel/sched.c: an epoch scheduler.  Within an epoch the
    runnable task with the largest counter runs; when all runnable counters are used up every counter
    is halved and the priority added. */
module Scheduler {

  const SIGALRM: nat := 14

  datatype TaskState = Running | Interruptible | Uninterruptible | Zombie | Stopped

  datatype Task = Task(state: TaskState, counter: int, priority: int, alarm: int, signal: set<nat>)

  /** A slot of task[] */
  datatype Slot = Free | Used(t: Task)

  datatype State = State(task: seq<Slot>, current: nat)

  predicate Runnable(task: seq<Slot>, i: nat) { i < |task| && task[i].Used? && task[i].t.state == Running }

  // ---------------------------------------------------------------- schedule

  /** The first loop: alarms become signals, and signals wake interruptible sleepers. */
  function Signal(t: Task, jiffies: int): Task {
    var t1 := if t.alarm != 0 && t.alarm < jiffies then t.(signal := t.signal + {SIGALRM}, alarm := 0) else t;
    if t1.signal != {} && t1.state == Interruptible then t1.(state := Running) else t1
  }

  function Signalled(task: seq<Slot>, jiffies: int): (r: seq<Slot>)
    ensures |r| == |task|
  {
    seq(|task|, i requires 0 <= i < |task| =>
      if i > 0 && task[i].Used? then Used(Signal(task[i].t, jiffies)) else task[i])
  }

  /** The search loop down to slot i: the largest counter and its slot, or -1 and 0. */
  function Best(task: seq<Slot>, i: nat): (r: (int, nat))
    requires 0 < i
    decreases |task| - i
  {
    if i >= |task| then (-1, 0)
    else
      var b := Best(task, i + 1);
      if Runnable(task, i) && task[i].t.counter > b.0 then (task[i].t.counter, i) else b
  }

  function Half(c: int): int { c / 2 }

  /** Every task but task 0 gets half its counter and its priority. */
  function Recharged(task: seq<Slot>): (r: seq<Slot>)
    ensures |r| == |task|
  {
    seq(|task|, i requires 0 <= i < |task| =>
      if i > 0 && task[i].Used?
      then Used(task[i].t.(counter := Half(task[i].t.counter) + task[i].t.priority))
      else task[i])
  }

  function Scheduled(s: State, jiffies: int): State {
    var t1 := Signalled(s.task, jiffies);
    if Best(t1, 1).0 != 0 then State(t1, Best(t1, 1).1)
    else State(Recharged(t1), Best(Recharged(t1), 1).1)
  }

  /** Counters stay below twice the largest priority p. */
  ghost predicate Inv(s: State, p: nat) {
    && 0 < |s.task| && s.current < |s.task| && s.task[s.current].Used?
    && (forall i :: 0 <= i < |s.task| ==> SlotOk(s.task[i], p))
  }

  ghost predicate SlotOk(slot: Slot, p: nat) {
    slot.Used? ==> 0 <= slot.t.counter < 2 * p && 1 <= slot.t.priority <= p
  }

  ghost predicate NoneFrom(task: seq<Slot>, i: nat) { forall j: nat :: i <= j ==> !Runnable(task, j) }

  /** No runnable task from slot i on has more time than task k, and none above k has as much. */
  ghost predicate Beats(task: seq<Slot>, k: nat, i: nat)
    requires Runnable(task, k)
  {
    && (forall j: nat :: i <= j && Runnable(task, j) ==> task[j].t.counter <= task[k].t.counter)
    && (forall j: nat :: k < j && Runnable(task, j) ==> task[j].t.counter < task[k].t.counter)
  }

  lemma {:induction false} BestIs(task: seq<Slot>, i: nat)
    requires 0 < i
    requires forall j :: i <= j < |task| && Runnable(task, j) ==> task[j].t.counter >= 0
    ensures var b := Best(task, i);
      && (b.1 == 0 ==> b.0 == -1 && NoneFrom(task, i))
      && (b.1 != 0 ==> i <= b.1 && Runnable(task, b.1) && b.0 == task[b.1].t.counter && Beats(task, b.1, i))
    decreases |task| - i
  {
    if i < |task| { BestIs(task, i + 1); }
  }

  lemma SignalledKeeps(s: State, jiffies: int, p: nat)
    requires Inv(s, p)
    ensures Inv(State(Signalled(s.task, jiffies), s.current), p)
    ensures forall i: nat :: Runnable(s.task, i) ==> Runnable(Signalled(s.task, jiffies), i)
    ensures forall i :: 0 <= i < |s.task| && s.task[i].Used? ==>
      Signalled(s.task, jiffies)[i].t.counter == s.task[i].t.counter
  {
  }

  lemma RechargedKeeps(s: State, p: nat)
    requires Inv(s, p)
    ensures Inv(State(Recharged(s.task), s.current), p)
    ensures forall i: nat :: Runnable(Recharged(s.task), i) <==> Runnable(s.task, i)
    ensures forall i :: 0 < i < |s.task| && s.task[i].Used? ==> Recharged(s.task)[i].t.counter >= 1
  {
  }

  /** One recharge is always enough: after it the search finds a task with time left. */
  lemma OneRecharge(task: seq<Slot>, p: nat)
    requires |task| > 0 && (forall i :: 0 <= i < |task| ==> SlotOk(task[i], p)) && Best(task, 1).0 == 0
    ensures Best(Recharged(task), 1).0 >= 1
  {
    BestIs(task, 1);
    BestIs(Recharged(task), 1);
    assert Runnable(Recharged(task), Best(task, 1).1);
  }

  /** Somebody is runnable and nobody runnable has time left. */
  ghost predicate UsedUp(task: seq<Slot>) {
    !NoneFrom(task, 1) && forall j: nat :: 0 < j && Runnable(task, j) ==> task[j].t.counter == 0
  }

  /** What schedule promises: it runs a runnable task that nobody beats, task 0 only when no other is
      runnable, and starts a new epoch only when all runnable tasks have used up their time. */
  lemma ScheduleIsFair(s: State, jiffies: int, p: nat)
    requires Inv(s, p) && s.task[0].Used?
    ensures var t1, s' := Signalled(s.task, jiffies), Scheduled(s, jiffies);
      && Inv(s', p)
      && (s'.current == 0 <==> NoneFrom(t1, 1))
      && (s'.current != 0 ==> Runnable(s'.task, s'.current) && Beats(s'.task, s'.current, 1))
      && (s'.current != 0 ==> s'.task[s'.current].t.counter >= 1)
      && s'.task == (if UsedUp(t1) then Recharged(t1) else t1)
  {
    SignalledKeeps(s, jiffies, p);
    var t1 := Signalled(s.task, jiffies);
    BestIs(t1, 1);
    if Best(t1, 1).0 == 0 {
      OneRecharge(t1, p);
      RechargedKeeps(State(t1, s.current), p);
      BestIs(Recharged(t1), 1);
    }
  }

  // ---------------------------------------------------------------- alarms, signals and sleepers, in numbers

  /** An alarm that is due becomes signal 14; a signal wakes an interruptible sleeper and nobody else; nothing else
      changes. */
  ghost predicate Alarmed(t: Task, t': Task, jiffies: int) {
    && t'.counter == t.counter && t'.priority == t.priority
    && (if t.alarm != 0 && t.alarm < jiffies then t'.signal == t.signal + {14} && t'.alarm == 0
        else t'.signal == t.signal && t'.alarm == t.alarm)
    && t'.state == if t.state == Interruptible && t'.signal != {} then Running else t.state
  }

  /** The new counter is the priority and half of what was left, rounded down; nothing else changes. */
  ghost predicate Credited(t: Task, t': Task) {
    && 0 <= t.counter - 2 * (t'.counter - t.priority) <= 1
    && t'.state == t.state && t'.priority == t.priority && t'.alarm == t.alarm && t'.signal == t.signal
  }

  /** Slot k is the one to run: of the runnable slots but 0 it has the most time and, among those with as much, the
      largest number; 0 if none of the others is runnable. */
  ghost predicate Chosen(task: seq<Slot>, k: nat) {
    && (forall j :: 1 <= j < |task| && task[j].Used? && task[j].t.state == Running ==> k != 0 && NotBetter(task, k, j))
    && (k != 0 ==> k < |task| && task[k].Used? && task[k].t.state == Running)
  }

  ghost predicate NotBetter(task: seq<Slot>, k: nat, j: int) {
    0 <= j < |task| && k < |task| && task[j].Used? && task[k].Used? &&
    (task[j].t.counter < task[k].t.counter || (task[j].t.counter == task[k].t.counter && j <= k))
  }

  lemma ChosenIs(task: seq<Slot>)
    requires forall j :: 1 <= j < |task| && Runnable(task, j) ==> task[j].t.counter >= 0
    ensures Chosen(task, Best(task, 1).1)
  {
    BestIs(task, 1);
    var k := Best(task, 1).1;
    forall j | 1 <= j < |task| && task[j].Used? && task[j].t.state == Running
      ensures k != 0 && NotBetter(task, k, j)
    {
      assert Runnable(task, j);
    }
  }

  /** Slot i after the first loop of schedule. */
  ghost predicate AlarmedAt(task: seq<Slot>, task': seq<Slot>, jiffies: int, i: nat)
    requires i < |task| == |task'|
  {
    if i > 0 && task[i].Used? then task'[i].Used? && Alarmed(task[i].t, task'[i].t, jiffies) else task'[i] == task[i]
  }

  /** Slot i after a recharge. */
  ghost predicate CreditedAt(task: seq<Slot>, task': seq<Slot>, i: nat)
    requires i < |task| == |task'|
  {
    if i > 0 && task[i].Used? then task'[i].Used? && Credited(task[i].t, task'[i].t) else task'[i] == task[i]
  }

  lemma SlotIs(task: seq<Slot>, jiffies: int, i: nat)
    requires i < |task|
    ensures AlarmedAt(task, Signalled(task, jiffies), jiffies, i) && CreditedAt(task, Recharged(task), i)
  {
  }

  /** What schedule does to the slots: alarms and signals first, and then a recharge exactly when somebody is
      runnable and all who are have no time left. */
  ghost predicate Rescheduled(task: seq<Slot>, task': seq<Slot>, jiffies: int, mid: seq<Slot>) {
    && |mid| == |task| == |task'|
    && (forall i: nat :: i < |task| ==> AlarmedAt(task, mid, jiffies, i))
    && (if UsedUp(mid) then forall i: nat :: i < |task| ==> CreditedAt(mid, task', i) else task' == mid)
  }

  lemma ScheduledIs(s: State, jiffies: int, p: nat)
    requires Inv(s, p)
    ensures Rescheduled(s.task, Scheduled(s, jiffies).task, jiffies, Signalled(s.task, jiffies))
  {
    var t1 := Signalled(s.task, jiffies);
    SignalledKeeps(s, jiffies, p);
    BestIs(t1, 1);
    forall i: nat | i < |s.task| ensures AlarmedAt(s.task, t1, jiffies, i) && CreditedAt(t1, Recharged(t1), i) {
      SlotIs(s.task, jiffies, i);
      SlotIs(t1, jiffies, i);
    }
  }

  /** The credit of a sleeper: of two tasks with one priority the one with more time left keeps at least as much,
      a task with at least 2 left starts the epoch above its priority, and nobody gets twice his priority. */
  lemma SleepersCredit(a: Task, a': Task, b: Task, b': Task)
    requires Credited(a, a') && Credited(b, b') && a.priority == b.priority && a.counter >= b.counter >= 0
    ensures a'.counter >= b'.counter >= b.priority
    ensures a.counter >= 2 ==> a'.counter > a.priority
    ensures a.counter < 2 * a.priority ==> a'.counter < 2 * a.priority
  {
  }

  lemma ChosenNext(s: State, jiffies: int, p: nat)
    requires Inv(s, p)
    ensures Chosen(Scheduled(s, jiffies).task, Scheduled(s, jiffies).current)
  {
    SignalledKeeps(s, jiffies, p);
    var t1 := Signalled(s.task, jiffies);
    ChosenIs(t1);
    RechargedKeeps(State(t1, s.current), p);
    ChosenIs(Recharged(t1));
  }

  // ---------------------------------------------------------------- do_timer and the rest

  function SetTask(s: State, i: nat, t: Task): State
    requires i < |s.task|
  {
    s.(task := s.task[i := Used(t)])
  }

  /** do_timer: no rescheduling when the tick interrupted the kernel. */
  function Ticked(s: State, user: bool, jiffies: int): State
    requires s.current < |s.task| && s.task[s.current].Used?
  {
    var t := s.task[s.current].t;
    if t.counter - 1 > 0 then SetTask(s, s.current, t.(counter := t.counter - 1))
    else if !user then SetTask(s, s.current, t.(counter := 0))
    else Scheduled(SetTask(s, s.current, t.(counter := 0)), jiffies)
  }

  /** The current task goes to sleep, stops, dies or just yields. */
  function Blocked(s: State, st: TaskState, jiffies: int): State
    requires s.current < |s.task| && s.task[s.current].Used?
  {
    Scheduled(SetTask(s, s.current, s.task[s.current].t.(state := st)), jiffies)
  }

  /** sys_nice: a priority that would not stay positive is kept. */
  function Niced(s: State, increment: int): State
    requires s.current < |s.task| && s.task[s.current].Used?
  {
    var t := s.task[s.current].t;
    if t.priority - increment > 0 then SetTask(s, s.current, t.(priority := t.priority - increment)) else s
  }

  lemma SetTaskKeeps(s: State, i: nat, t: Task, p: nat)
    requires Inv(s, p) && i < |s.task| && SlotOk(Used(t), p)
    ensures Inv(SetTask(s, i, t), p)
  {
  }

  /** A tick takes one from the time of the current task, never below 0; in kernel mode, or while time is left,
      that is all. */
  lemma TickIs(s: State, user: bool, jiffies: int, p: nat)
    requires Inv(s, p)
    ensures var t, s' := s.task[s.current].t, Ticked(s, user, jiffies);
      var c := if t.counter > 1 then t.counter - 1 else 0;
      var s1 := State(s.task[s.current := Used(Task(t.state, c, t.priority, t.alarm, t.signal))], s.current);
      s' == if t.counter > 1 || !user then s1 else Scheduled(s1, jiffies)
  {
    assert SlotOk(s.task[s.current], p);
  }

  // ---------------------------------------------------------------- how long a runnable task may wait

  function Counter(slot: Slot): int { if slot.Used? then slot.t.counter else 0 }

  function Sum(task: seq<Slot>): int {
    if task == [] then 0 else Sum(task[..|task| - 1]) + Counter(task[|task| - 1])
  }

  lemma {:induction false} SumUpdate(task: seq<Slot>, i: nat, slot: Slot)
    requires i < |task|
    ensures Sum(task[i := slot]) == Sum(task) - Counter(task[i]) + Counter(slot)
  {
    var n := |task| - 1;
    if i == n {
      assert task[i := slot][..n] == task[..n];
    } else {
      assert task[i := slot][..n] == task[..n][i := slot];
      SumUpdate(task[..n], i, slot);
    }
  }

  lemma {:induction false} SumSame(a: seq<Slot>, b: seq<Slot>)
    requires |a| == |b| && forall i :: 0 <= i < |a| ==> Counter(a[i]) == Counter(b[i])
    ensures Sum(a) == Sum(b)
  {
    if a != [] { SumSame(a[..|a| - 1], b[..|b| - 1]); }
  }

  /** 2 * p for each of n tasks */
  function Ceiling(p: nat, n: nat): nat { if n == 0 then 0 else Ceiling(p, n - 1) + 2 * p }

  lemma {:induction false} CeilingIs(p: nat, n: nat)
    ensures Ceiling(p, n) == 2 * p * n
  {
    if n > 0 {
      CeilingIs(p, n - 1);
      assert 2 * p * n == 2 * p * (n - 1) + 2 * p;
    }
  }

  lemma {:induction false} SumBound(task: seq<Slot>, p: nat)
    requires p > 0 && forall i :: 0 <= i < |task| ==> SlotOk(task[i], p)
    ensures 0 <= Sum(task) <= Ceiling(p, |task|) - |task|
  {
    if task != [] {
      SumBound(task[..|task| - 1], p);
      assert SlotOk(task[|task| - 1], p);
    }
  }

  /** User-mode ticks that may pass before runnable task u is chosen. */
  ghost function Budget(s: State, u: nat, p: nat): int
    requires u < |s.task| && s.current < |s.task|
  {
    2 * Sum(s.task) + (if Counter(s.task[s.current]) == 0 then 1 else 0)
    + (if Counter(s.task[u]) == 0 then 2 * Ceiling(p, |s.task|) else 0)
  }

  lemma BudgetBound(s: State, u: nat, p: nat)
    requires Inv(s, p) && u < |s.task|
    ensures 0 <= Budget(s, u, p) <= 4 * Ceiling(p, |s.task|)
  {
    SlotPositive(s, p);
    SumBound(s.task, p);
  }

  lemma SlotPositive(s: State, p: nat)
    requires Inv(s, p)
    ensures p > 0
  {
    assert SlotOk(s.task[s.current], p);
  }

  /** schedule costs nothing while u waits, and gains if the task before had no time left. */
  lemma ScheduledBudget(s: State, jiffies: int, u: nat, p: nat)
    requires Inv(s, p) && s.task[0].Used? && u > 0 && Runnable(s.task, u) && Scheduled(s, jiffies).current != u
    ensures Inv(Scheduled(s, jiffies), p) && |Scheduled(s, jiffies).task| == |s.task|
    ensures Budget(Scheduled(s, jiffies), u, p) <= Budget(s, u, p) - (if Counter(s.task[s.current]) == 0 then 1 else 0)
    ensures Runnable(Scheduled(s, jiffies).task, u)
  {
    ScheduleIsFair(s, jiffies, p);
    SignalledKeeps(s, jiffies, p);
    SlotPositive(s, p);
    var t1, s' := Signalled(s.task, jiffies), Scheduled(s, jiffies);
    SumSame(s.task, t1);
    assert Runnable(t1, u);
    if UsedUp(t1) {
      RechargedKeeps(State(t1, s.current), p);
      SumBound(s'.task, p);
      SumBound(s.task, p);
    }
  }

  lemma TickedBudget(s: State, user: bool, jiffies: int, u: nat, p: nat)
    requires Inv(s, p) && s.task[0].Used? && u > 0 && Runnable(s.task, u) && s.current != u
    requires Ticked(s, user, jiffies).current != u
    ensures Inv(Ticked(s, user, jiffies), p) && |Ticked(s, user, jiffies).task| == |s.task|
    ensures Budget(Ticked(s, user, jiffies), u, p) <= Budget(s, u, p) - (if user then 1 else 0)
  {
    var t := s.task[s.current].t;
    var c := if t.counter - 1 > 0 then t.counter - 1 else 0;
    assert SlotOk(s.task[s.current], p);
    var s1 := SetTask(s, s.current, t.(counter := c));
    SumUpdate(s.task, s.current, Used(t.(counter := c)));
    SetTaskKeeps(s, s.current, t.(counter := c), p);
    if c == 0 && user {
      ScheduledBudget(s1, jiffies, u, p);
    }
  }

  lemma BlockedBudget(s: State, st: TaskState, jiffies: int, u: nat, p: nat)
    requires Inv(s, p) && s.task[0].Used? && u > 0 && Runnable(s.task, u) && s.current != u
    requires Blocked(s, st, jiffies).current != u
    ensures Inv(Blocked(s, st, jiffies), p) && |Blocked(s, st, jiffies).task| == |s.task|
    ensures Budget(Blocked(s, st, jiffies), u, p) <= Budget(s, u, p)
  {
    var t := s.task[s.current].t.(state := st);
    assert SlotOk(s.task[s.current], p);
    SumUpdate(s.task, s.current, Used(t));
    SetTaskKeeps(s, s.current, t, p);
    ScheduledBudget(SetTask(s, s.current, t), jiffies, u, p);
  }

  // ---------------------------------------------------------------- runs

  datatype Event =
    | Tick(user: bool, jiffies: int)
    | Block(st: TaskState, jiffies: int)      // the current task calls schedule
    | Touch(i: nat, t: Task)                  // wake_up, signals, alarms: anything but counter and priority
    | Nice(increment: int)
    | Fork(nr: nat)
    | Reap(i: nat)

  /** copy_process: a full share of its own time for the child. */
  function Forked(s: State, nr: nat): State
    requires nr < |s.task| && s.current < |s.task| && s.task[s.current].Used?
  {
    var t := s.task[s.current].t;
    SetTask(s, nr, t.(state := Running, counter := t.priority, signal := {}, alarm := 0))
  }

  /** A child starts with as much time as its parent's priority gives, without signals and alarm, and costs nobody
      any time: the next schedule starts no new epoch. */
  lemma ChildStarts(s: State, nr: nat, jiffies: int, p: nat, i: nat)
    requires Inv(s, p) && 0 < nr < |s.task| && s.task[nr].Free? && i < |s.task|
    ensures var s', t := Forked(s, nr), s.task[s.current].t;
      && |s'.task| == |s.task| && s'.current == s.current
      && s'.task[i] == (if i == nr then Used(Task(Running, t.priority, t.priority, 0, {})) else s.task[i])
      && |Scheduled(s', jiffies).task| == |s.task|
      && (s'.task[i].Used? ==>
            Scheduled(s', jiffies).task[i].Used? && Scheduled(s', jiffies).task[i].t.counter == s'.task[i].t.counter)
  {
    var s' := Forked(s, nr);
    SignalledKeeps(s', jiffies, p);
    var t1 := Signalled(s'.task, jiffies);
    assert Runnable(s'.task, nr);
    BestIs(t1, 1);
    assert Runnable(t1, nr) && t1[nr].t.counter >= 1;
  }

  /** The counters and priorities are in order, and task 0 is there. */
  ghost predicate Sound(s: State, p: nat) { Inv(s, p) && s.task[0].Used? }

  /** A step of the kernel while priorities stay within p. */
  ghost predicate Moves(s: State, e: Event, s': State, p: nat)
    requires Sound(s, p)
  {
    match e
    case Tick(user, jiffies) => s' == Ticked(s, user, jiffies)
    case Block(st, jiffies) => s' == Blocked(s, st, jiffies)
    case Touch(i, t) =>
      && i < |s.task| && s.task[i].Used?
      && t.counter == s.task[i].t.counter && t.priority == s.task[i].t.priority
      && s' == SetTask(s, i, t)
    case Nice(increment) => s.task[s.current].t.priority - increment <= p && s' == Niced(s, increment)
    case Fork(nr) => 0 < nr < |s.task| && s.task[nr].Free? && s' == Forked(s, nr)
    case Reap(i) => 0 < i < |s.task| && i != s.current && s' == s.(task := s.task[i := Free])
  }

  ghost predicate Waiting(s: State, u: nat) { 0 < u && Runnable(s.task, u) && s.current != u }

  lemma StepBudget(s: State, e: Event, s': State, u: nat, p: nat)
    requires Sound(s, p) && Moves(s, e, s', p) && Waiting(s, u) && Waiting(s', u)
    ensures |s'.task| == |s.task| && s'.current < |s'.task|
    ensures Budget(s', u, p) <= Budget(s, u, p) - (if e.Tick? && e.user then 1 else 0) + (if e.Fork? then 2 * p else 0)
  {
    match e
    case Tick(user, jiffies) => TickedBudget(s, user, jiffies, u, p);
    case Block(st, jiffies) => BlockedBudget(s, st, jiffies, u, p);
    case Touch(i, t) => SumUpdate(s.task, i, Used(t));
    case Nice(increment) =>
      var t := s.task[s.current].t;
      SumUpdate(s.task, s.current, Used(t.(priority := t.priority - increment)));
    case Fork(nr) =>
      assert SlotOk(s.task[s.current], p);
      SumUpdate(s.task, nr, s'.task[nr]);
    case Reap(i) =>
      assert SlotOk(s.task[i], p);
      SumUpdate(s.task, i, Free);
  }

  /** ss[k + 1] comes from ss[k] by es[k].  Nothing is said of a step from a state that is not sound. */
  ghost predicate IsRun(ss: seq<State>, es: seq<Event>, p: nat) {
    && |ss| == |es| + 1
    && forall k {:trigger es[k]} :: 0 <= k < |es| && Sound(ss[k], p) ==> Moves(ss[k], es[k], ss[k + 1], p)
  }

  function UserTicks(es: seq<Event>): nat {
    if es == [] then 0
    else UserTicks(es[..|es| - 1]) + (if es[|es| - 1].Tick? && es[|es| - 1].user then 1 else 0)
  }

  function Forks(es: seq<Event>): nat {
    if es == [] then 0 else Forks(es[..|es| - 1]) + (if es[|es| - 1].Fork? then 1 else 0)
  }

  lemma {:induction false} Telescope(b: seq<int>, es: seq<Event>, p: nat)
    requires |b| == |es| + 1
    requires forall k {:trigger es[k]} :: 0 <= k < |es| ==>
      b[k + 1] <= b[k] - (if es[k].Tick? && es[k].user then 1 else 0) + (if es[k].Fork? then 2 * p else 0)
    ensures UserTicks(es) + b[|es|] <= b[0] + Ceiling(p, Forks(es))
  {
    if es != [] {
      var n := |es| - 1;
      assert forall k :: 0 <= k < n ==> es[..n][k] == es[k];
      Telescope(b[..n + 1], es[..n], p);
      assert b[n + 1] <= b[n] - (if es[n].Tick? && es[n].user then 1 else 0) + (if es[n].Fork? then 2 * p else 0);
    }
  }

  lemma StepKeepsInv(s: State, e: Event, s': State, p: nat)
    requires Sound(s, p) && Moves(s, e, s', p)
    ensures Sound(s', p)
  {
    assert SlotOk(s.task[s.current], p);
    match e
    case Tick(user, jiffies) =>
      var t := s.task[s.current].t;
      var s1 := SetTask(s, s.current, t.(counter := if t.counter - 1 > 0 then t.counter - 1 else 0));
      SetTaskKeeps(s, s.current, s1.task[s.current].t, p);
      if t.counter - 1 <= 0 && user { ScheduleIsFair(s1, jiffies, p); }
    case Block(st, jiffies) =>
      var t := s.task[s.current].t.(state := st);
      SetTaskKeeps(s, s.current, t, p);
      ScheduleIsFair(SetTask(s, s.current, t), jiffies, p);
    case Touch(i, t) =>
      assert SlotOk(s.task[i], p);
    case Nice(_) =>
    case Fork(_) =>
    case Reap(_) =>
  }

  /** 0 <= counter < 2 * p and 1 <= priority <= p in every state of a run that starts so. */
  lemma {:induction false} InvAlways(ss: seq<State>, es: seq<Event>, p: nat, n: nat)
    requires IsRun(ss, es, p) && n < |ss| && Sound(ss[0], p)
    ensures Sound(ss[n], p)
  {
    if n > 0 {
      InvAlways(ss, es, p, n - 1);
      StepKeepsInv(ss[n - 1], es[n - 1], ss[n], p);
    }
  }

  ghost predicate WaitsThrough(ss: seq<State>, u: nat) {
    forall k :: 0 <= k < |ss| ==> Waiting(ss[k], u)
  }

  ghost predicate Passed(s: State, u: nat, p: nat) { Sound(s, p) && Waiting(s, u) }

  /** No starvation: a task that is runnable and passed over all along a run sees no more user-mode ticks
      than what the counters add up to, however the others block, wake, fork and exit. */
  lemma WaitIsBounded(ss: seq<State>, es: seq<Event>, u: nat, p: nat)
    requires IsRun(ss, es, p) && WaitsThrough(ss, u) && Passed(ss[0], u, p)
    ensures UserTicks(es) <= Budget(ss[0], u, p) + Ceiling(p, Forks(es))
  {
    var n := |es|;
    forall k | 0 <= k < |ss| ensures Passed(ss[k], u, p) {
      InvAlways(ss, es, p, k);
    }
    var b := seq(|ss|, k requires 0 <= k < |ss| && Passed(ss[k], u, p) => Budget(ss[k], u, p));
    forall k | 0 <= k < n
      ensures b[k + 1] <= b[k] - (if es[k].Tick? && es[k].user then 1 else 0) + (if es[k].Fork? then 2 * p else 0)
    {
      assert Passed(ss[k], u, p) && Passed(ss[k + 1], u, p);
      StepBudget(ss[k], es[k], ss[k + 1], u, p);
    }
    Telescope(b, es, p);
    BudgetBound(ss[n], u, p);
  }

  /** In numbers: four times the largest counter for each task slot, and once for each fork. */
  lemma WaitInTicks(ss: seq<State>, es: seq<Event>, u: nat, p: nat)
    requires IsRun(ss, es, p) && WaitsThrough(ss, u) && Sound(ss[0], p)
    ensures UserTicks(es) <= 4 * (2 * p * |ss[0].task|) + 2 * p * Forks(es)
  {
    assert Passed(ss[0], u, p);
    WaitIsBounded(ss, es, u, p);
    BudgetBound(ss[0], u, p);
    CeilingIs(p, |ss[0].task|);
    CeilingIs(p, Forks(es));
  }

  // ---------------------------------------------------------------- the code

  class Tasks {
    const task: array<Slot>
    var current: nat

    ghost function S(): State
      reads this, task
    {
      State(task[..], current)
    }

    /** sched_init: task 0 with the counter and priority of INIT_TASK. */
    constructor (n: nat)
      requires n > 0
      ensures task.Length == n && current == 0 && Inv(S(), 15)
      ensures task[0] == Used(Task(Running, 15, 15, 0, {})) && forall i :: 0 < i < n ==> task[i] == Free
    {
      task := new Slot[n](i => if i == 0 then Used(Task(Running, 15, 15, 0, {})) else Free);
      current := 0;
    }

    /** schedule: the search is repeated at most once. */
    method Schedule(jiffies: int, ghost p: nat)
      requires Inv(S(), p)
      modifies this, task
      ensures S() == Scheduled(old(S()), jiffies)
      ensures exists mid :: Rescheduled(old(task[..]), task[..], jiffies, mid)
      ensures Chosen(task[..], current)
    {
      ghost var s := S();
      var i := task.Length - 1;
      while i > 0
        invariant 0 <= i < task.Length
        invariant forall j :: i < j < task.Length ==> task[j] == Signalled(s.task, jiffies)[j]
        invariant forall j :: 0 <= j <= i ==> task[j] == s.task[j]
      {
        if task[i].Used? {
          task[i] := Used(Signal(task[i].t, jiffies));
        }
        i := i - 1;
      }
      assert task[..] == Signalled(s.task, jiffies);
      SignalledKeeps(s, jiffies, p);
      var c, next := Search();
      if c == 0 {
        OneRecharge(task[..], p);
        Recharge();
        c, next := Search();
        assert c != 0;
      }
      ScheduledIs(s, jiffies, p);
      ChosenNext(s, jiffies, p);
      current := next;
    }

    method Search() returns (c: int, next: nat)
      requires task.Length > 0
      ensures (c, next) == Best(task[..], 1)
      ensures (forall j :: 1 <= j < task.Length && Runnable(task[..], j) ==> task[j].t.counter >= 0) ==>
        Chosen(task[..], next)
    {
      c, next := -1, 0;
      var i := task.Length;
      while i > 1
        invariant 1 <= i <= task.Length && (c, next) == Best(task[..], i)
      {
        i := i - 1;
        if task[i].Used? && task[i].t.state == Running && task[i].t.counter > c {
          c, next := task[i].t.counter, i;
        }
      }
      if forall j :: 1 <= j < task.Length && Runnable(task[..], j) ==> task[j].t.counter >= 0 {
        ChosenIs(task[..]);
      }
    }

    method Recharge()
      requires task.Length > 0
      modifies task
      ensures task[..] == Recharged(old(task[..]))
      ensures forall i: nat :: i < task.Length ==> CreditedAt(old(task[..]), task[..], i)
    {
      ghost var t := task[..];
      var i := task.Length - 1;
      while i > 0
        invariant 0 <= i < task.Length
        invariant forall j :: i < j < task.Length ==> task[j] == Recharged(t)[j]
        invariant forall j :: 0 <= j <= i ==> task[j] == t[j]
      {
        if task[i].Used? {
          task[i] := Used(task[i].t.(counter := Half(task[i].t.counter) + task[i].t.priority));
        }
        i := i - 1;
      }
      forall i: nat | i < task.Length ensures CreditedAt(t, task[..], i) { SlotIs(t, 0, i); }
    }

    method DoTimer(user: bool, jiffies: int, ghost p: nat)
      requires Inv(S(), p)
      modifies this, task
      ensures S() == Ticked(old(S()), user, jiffies)
    {
      ghost var s := S();
      assert SlotOk(s.task[s.current], p);
      var t := task[current].t;
      var c := t.counter - 1;
      task[current] := Used(t.(counter := if c > 0 then c else 0));
      SetTaskKeeps(s, s.current, task[current].t, p);
      assert S() == SetTask(s, s.current, t.(counter := if c > 0 then c else 0));
      if c > 0 || !user { return; }
      Schedule(jiffies, p);
    }

    method SysNice(increment: int)
      requires current < task.Length && task[current].Used?
      modifies task
      ensures S() == Niced(old(S()), increment)
      ensures old(task[current].t.priority) > 0 ==> task[current].Used? && task[current].t.priority > 0
      ensures old(task[current].t.priority) - increment > 0 ==>
        task[current].t.priority == old(task[current].t.priority) - increment
      ensures old(task[current].t.priority) - increment <= 0 ==> task[..] == old(task[..])
      ensures task[current].Used? && task[..] == old(task[..])[current := task[current]]
      ensures task[current].t == old(task[current].t).(priority := task[current].t.priority)
    {
      ghost var s := S();
      var t := task[current].t;
      if t.priority - increment > 0 {
        task[current] := Used(t.(priority := t.priority - increment));
      }
      assert task[..] == Niced(s, increment).task;
    }
  }
}
