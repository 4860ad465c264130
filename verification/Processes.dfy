/** find_empty_process of kernel/fork.c: a process number that no task has, even after last_pid has
    wrapped around. */
module Processes {
  const MAX_PID: int := 0x7fff_ffff
  const EAGAIN: int := 11

  /** A slot of task[] */
  datatype Slot = Free | Task(pid: int)

  predicate Live(task: seq<Slot>, i: int, pid: int) { 0 <= i < |task| && task[i] == Task(pid) }

  ghost predicate InUse(task: seq<Slot>, pid: int) { exists i :: Live(task, i, pid) }

  ghost predicate DistinctPids(task: seq<Slot>) {
    forall i, j, pid :: Live(task, i, pid) && Live(task, j, pid) ==> i == j
  }

  /** The next number to try: last_pid wraps from the largest long to 1. */
  function Next(pid: int): int { if pid == MAX_PID then 1 else pid + 1 }

  /** The number tried in round j. */
  function Tried(start: int, j: int): int { if start + j <= MAX_PID then start + j else start + j - MAX_PID }

  ghost function AllTried(start: int, k: nat): set<int> { set j | 1 <= j <= k :: Tried(start, j) }

  lemma {:induction false} TriedAreMany(start: int, k: nat)
    requires 0 <= start <= MAX_PID && k <= MAX_PID
    ensures |AllTried(start, k)| == k
  {
    if k == 0 {
      assert AllTried(start, k) == {};
    } else {
      TriedAreMany(start, k - 1);
      var x := Tried(start, k);
      forall j | 1 <= j < k ensures Tried(start, j) != x {
      }
      assert x !in AllTried(start, k - 1);
      assert AllTried(start, k) == AllTried(start, k - 1) + {x};
    }
  }

  ghost function Pids(task: seq<Slot>): set<int> { set i | 0 <= i < |task| && task[i].Task? :: task[i].pid }

  lemma {:induction false} PidsAreFew(task: seq<Slot>)
    ensures |Pids(task)| <= |task|
  {
    if task == [] {
      assert Pids(task) == {};
    } else {
      var n := |task| - 1;
      PidsAreFew(task[..n]);
      if task[n].Task? {
        assert Pids(task) == Pids(task[..n]) + {task[n].pid};
      } else {
        assert Pids(task) == Pids(task[..n]);
      }
    }
  }

  lemma {:induction false} SubsetCard(a: set<int>, b: set<int>)
    requires a <= b
    ensures |a| <= |b|
  {
    if !exists x :: x in a {
      assert a == {};
    } else {
      var x :| x in a;
      SubsetCard(a - {x}, b - {x});
      assert b == (b - {x}) + {x};
      assert |b| == |b - {x}| + 1;
      assert |a| == |a - {x}| + 1;
    }
  }

  /** Pigeonhole: k different numbers cannot all be taken by fewer than k tasks. */
  lemma RoundsBound(task: seq<Slot>, start: int, k: nat)
    requires 0 <= start <= MAX_PID && k <= MAX_PID
    requires forall j :: 1 <= j <= k ==> InUse(task, Tried(start, j))
    ensures k <= |task|
  {
    TriedAreMany(start, k);
    PidsAreFew(task);
    forall x | x in AllTried(start, k) ensures x in Pids(task) {
      assert InUse(task, x);
      var i :| Live(task, i, x);
    }
    SubsetCard(AllTried(start, k), Pids(task));
  }

  /** pid is the number of round k, and those of all earlier rounds are taken. */
  ghost predicate FirstUnused(task: seq<Slot>, start: int, k: int, pid: int) {
    pid == Tried(start, k) && !InUse(task, pid) && forall j :: 1 <= j < k ==> InUse(task, Tried(start, j))
  }

  /** In numbers: the first number above `start` that is not taken; if there is none, the first from 1 on. */
  ghost predicate NextUnused(task: seq<Slot>, start: int, pid: int) {
    && 1 <= pid <= 0x7fff_ffff && !InUse(task, pid)
    && (pid > start ==> forall p :: start < p < pid ==> InUse(task, p))
    && (pid <= start ==> (forall p :: start < p <= 0x7fff_ffff ==> InUse(task, p))
                         && forall p :: 1 <= p < pid ==> InUse(task, p))
  }

  lemma FirstIsNext(task: seq<Slot>, start: int, k: int, pid: int)
    requires 0 <= start <= MAX_PID && 1 <= k <= MAX_PID && FirstUnused(task, start, k, pid)
    ensures NextUnused(task, start, pid)
  {
    forall p | start < p <= MAX_PID && (pid > start ==> p < pid) ensures InUse(task, p) {
      assert Tried(start, p - start) == p;
    }
    if pid <= start {
      forall p | 1 <= p < pid ensures InUse(task, p) {
        assert Tried(start, p + MAX_PID - start) == p;
      }
    }
  }

  lemma PidAdded(task: seq<Slot>, nr: nat, pid: int)
    requires DistinctPids(task) && nr < |task| && !InUse(task, pid)
    ensures DistinctPids(task[nr := Task(pid)])
  {
    var task' := task[nr := Task(pid)];
    forall i, j, p | Live(task', i, p) && Live(task', j, p) ensures i == j {
      assert i == nr || Live(task, i, p);
      assert j == nr || Live(task, j, p);
    }
  }

  class ProcessTable {
    const task: array<Slot>
    var lastPid: int

    ghost predicate Valid()
      reads this, task
    {
      0 < task.Length < MAX_PID && 0 <= lastPid <= MAX_PID && DistinctPids(task[..])
    }

    /** sched_init: task 0 with pid 0. */
    constructor (n: nat)
      requires 0 < n < MAX_PID
      ensures Valid() && task.Length == n && task[0] == Task(0) && lastPid == 0
    {
      task := new Slot[n](i => if i == 0 then Task(0) else Free);
      lastPid := 0;
    }

    method PidTaken(pid: int) returns (taken: bool)
      ensures taken <==> InUse(task[..], pid)
    {
      var i := 0;
      while i < task.Length
        invariant 0 <= i <= task.Length && forall j :: 0 <= j < i ==> task[j] != Task(pid)
      {
        if task[i] == Task(pid) {
          assert Live(task[..], i, pid);
          return true;
        }
        i := i + 1;
      }
      taken := false;
    }

    /** The search takes at most one round more than there are tasks. */
    method FindEmptyProcess() returns (r: int)
      requires Valid()
      modifies this`lastPid
      ensures Valid() && 1 <= lastPid <= MAX_PID && !InUse(task[..], lastPid)
      ensures exists k :: 1 <= k <= task.Length + 1 && FirstUnused(task[..], old(lastPid), k, lastPid)
      ensures NextUnused(task[..], old(lastPid), lastPid)
      ensures r == -EAGAIN <==> forall i :: 1 <= i < task.Length ==> task[i] != Free
      ensures r != -EAGAIN ==> 1 <= r < task.Length && task[r] == Free && forall i :: 1 <= i < r ==> task[i] != Free
    {
      ghost var start := lastPid;
      ghost var k := 0;
      RoundsBound(task[..], start, 0);
      var taken := true;
      while taken
        invariant 0 <= k <= task.Length + 1 && lastPid == (if k == 0 then start else Tried(start, k))
        invariant forall j :: 1 <= j <= k && (j < k || taken) ==> InUse(task[..], Tried(start, j))
        invariant taken ==> k <= task.Length
        invariant !taken ==> k >= 1 && !InUse(task[..], lastPid)
        decreases task.Length + 1 - k
      {
        lastPid := Next(lastPid);
        k := k + 1;
        taken := PidTaken(lastPid);
        if taken {
          RoundsBound(task[..], start, k);
        }
      }
      assert FirstUnused(task[..], start, k, lastPid);
      FirstIsNext(task[..], start, k, lastPid);
      r := FreeSlot();
    }

    method FreeSlot() returns (r: int)
      requires task.Length > 0
      ensures r == -EAGAIN <==> forall i :: 1 <= i < task.Length ==> task[i] != Free
      ensures r != -EAGAIN ==> 1 <= r < task.Length && task[r] == Free && forall i :: 1 <= i < r ==> task[i] != Free
    {
      var i := 1;
      while i < task.Length
        invariant 1 <= i <= task.Length && forall j :: 1 <= j < i ==> task[j] != Free
      {
        if task[i] == Free {
          return i;
        }
        i := i + 1;
      }
      r := -EAGAIN;
    }

    /** fork as far as process numbers go: live tasks keep different ones. */
    method Fork() returns (r: int)
      requires Valid()
      modifies this, task
      ensures Valid()
      ensures r == -EAGAIN ==> task[..] == old(task[..])
      ensures r != -EAGAIN ==> r == lastPid && NextUnused(old(task[..]), old(lastPid), r)
      ensures r != -EAGAIN ==>
        exists nr :: 1 <= nr < task.Length && old(task[nr]) == Free && task[..] == old(task[..])[nr := Task(r)]
    {
      ghost var t := task[..];
      var nr := FindEmptyProcess();
      if nr == -EAGAIN {
        return nr;
      }
      task[nr] := Task(lastPid);
      assert task[..] == t[nr := Task(lastPid)];
      PidAdded(t, nr, lastPid);
      return lastPid;
    }

    /** release */
    method Exit(nr: nat)
      requires Valid() && 0 < nr < task.Length
      modifies task
      ensures Valid() && task[..] == old(task[..])[nr := Free]
    {
      ghost var t := task[..];
      task[nr] := Free;
      assert task[..] == t[nr := Free];
      forall i, j, pid | Live(task[..], i, pid) && Live(task[..], j, pid) ensures i == j {
        assert Live(t, i, pid) && Live(t, j, pid);
      }
    }
  }
}
