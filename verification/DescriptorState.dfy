/** The file table and every task's descriptors as a value: f_count counts the descriptors that point
    at a file. */
module DescriptorState {

  const NR_OPEN: nat := 20
  const NR_FILE: nat := 64
  const NULL: int := -1

  /** filp[] and close_on_exec of a task; a free task slot has none. */
  datatype Files = Free | Live(filp: seq<int>, cloexec: set<nat>)

  datatype State = State(count: seq<nat>, task: seq<Files>)

  ghost predicate FilesOk(x: Files) {
    x.Live? ==>
      && |x.filp| == NR_OPEN && (forall fd :: 0 <= fd < NR_OPEN ==> -1 <= x.filp[fd] < NR_FILE)
      && forall fd :: fd in x.cloexec ==> fd < NR_OPEN && x.filp[fd] != NULL
  }

  function RefsIn(filp: seq<int>, f: int): nat {
    if filp == [] then 0 else RefsIn(filp[..|filp| - 1], f) + (if filp[|filp| - 1] == f then 1 else 0)
  }

  /** The descriptors that point at file f. */
  ghost function DescriptorsOf(filp: seq<int>, f: int): set<int> { set fd | 0 <= fd < |filp| && filp[fd] == f }

  lemma {:induction false} RefsInIs(filp: seq<int>, f: int)
    ensures RefsIn(filp, f) == |DescriptorsOf(filp, f)|
  {
    if filp == [] {
      assert DescriptorsOf(filp, f) == {};
    } else {
      var n := |filp| - 1;
      RefsInIs(filp[..n], f);
      assert DescriptorsOf(filp, f) == DescriptorsOf(filp[..n], f) + (if filp[n] == f then {n} else {});
    }
  }

  function RefsOf(x: Files, f: int): nat { if x.Live? then RefsIn(x.filp, f) else 0 }

  /** The descriptors of all tasks that point at file f. */
  function Refs(task: seq<Files>, f: int): nat {
    if task == [] then 0 else Refs(task[..|task| - 1], f) + RefsOf(task[|task| - 1], f)
  }

  ghost predicate Counted(s: State, f: int)
    requires 0 <= f < |s.count|
  {
    s.count[f] == Refs(s.task, f)
  }

  ghost predicate Inv(s: State) {
    && |s.count| == NR_FILE
    && (forall t :: 0 <= t < |s.task| ==> FilesOk(s.task[t]))
    && (forall f :: 0 <= f < NR_FILE ==> Counted(s, f))
  }

  lemma {:induction false} RefsInUpdate(filp: seq<int>, fd: nat, v: int, f: int)
    requires fd < |filp|
    ensures RefsIn(filp[fd := v], f) + (if filp[fd] == f then 1 else 0) == RefsIn(filp, f) + (if v == f then 1 else 0)
  {
    var n := |filp| - 1;
    if fd == n {
      assert filp[fd := v][..n] == filp[..n];
    } else {
      assert filp[fd := v][..n] == filp[..n][fd := v];
      RefsInUpdate(filp[..n], fd, v, f);
    }
  }

  lemma {:induction false} RefsUpdate(task: seq<Files>, t: nat, x: Files, f: int)
    requires t < |task|
    ensures Refs(task[t := x], f) + RefsOf(task[t], f) == Refs(task, f) + RefsOf(x, f)
  {
    var n := |task| - 1;
    if t == n {
      assert task[t := x][..n] == task[..n];
    } else {
      assert task[t := x][..n] == task[..n][t := x];
      RefsUpdate(task[..n], t, x, f);
    }
  }

  lemma {:induction false} RefsInSome(filp: seq<int>, fd: nat)
    requires fd < |filp|
    ensures RefsIn(filp, filp[fd]) >= 1
  {
    if fd < |filp| - 1 { RefsInSome(filp[..|filp| - 1], fd); }
  }

  lemma {:induction false} RefsAtLeast(task: seq<Files>, t: nat, f: int)
    requires t < |task|
    ensures Refs(task, f) >= RefsOf(task[t], f)
  {
    if t < |task| - 1 { RefsAtLeast(task[..|task| - 1], t, f); }
  }

  /** A file with a descriptor has a positive count: "Close: file count is 0" cannot happen. */
  lemma OpenIsCounted(s: State, t: nat, fd: nat)
    requires Inv(s) && t < |s.task| && s.task[t].Live? && fd < NR_OPEN && s.task[t].filp[fd] != NULL
    ensures 0 <= s.task[t].filp[fd] < NR_FILE && s.count[s.task[t].filp[fd]] >= 1
  {
    assert FilesOk(s.task[t]);
    var f := s.task[t].filp[fd];
    RefsInSome(s.task[t].filp, fd);
    RefsAtLeast(s.task, t, f);
    assert Counted(s, f);
  }

  /** A file that no count mentions has no descriptor. */
  lemma UncountedIsClosed(s: State, f: nat, t: nat, fd: nat)
    requires Inv(s) && f < NR_FILE && s.count[f] == 0 && t < |s.task| && s.task[t].Live? && fd < NR_OPEN
    ensures |s.task[t].filp| == NR_OPEN && s.task[t].filp[fd] != f
  {
    assert FilesOk(s.task[t]);
    if s.task[t].filp[fd] == f { OpenIsCounted(s, t, fd); }
  }

  lemma {:induction false} RefsInBound(filp: seq<int>, f: int)
    ensures RefsIn(filp, f) <= |filp|
  {
    if filp != [] { RefsInBound(filp[..|filp| - 1], f); }
  }

  /** A count never exceeds 20 for each task, so an unsigned short holds it. */
  lemma {:induction false} CountBound(task: seq<Files>, f: int)
    requires forall t :: 0 <= t < |task| ==> FilesOk(task[t])
    ensures Refs(task, f) <= NR_OPEN * |task|
  {
    if task != [] {
      var x := task[|task| - 1];
      assert FilesOk(x);
      if x.Live? { RefsInBound(x.filp, f); }
      CountBound(task[..|task| - 1], f);
    }
  }

  // ---------------------------------------------------------------- steps

  function SetFilp(s: State, t: nat, fd: nat, v: int, cloexec: set<nat>): State
    requires t < |s.task| && s.task[t].Live? && fd < |s.task[t].filp|
  {
    s.(task := s.task[t := Live(s.task[t].filp[fd := v], cloexec)])
  }

  /** Descriptor fd comes to point at f. */
  function Opened(s: State, t: nat, fd: nat, f: nat): State
    requires t < |s.task| && s.task[t].Live? && fd < |s.task[t].filp| && f < |s.count|
  {
    SetFilp(s, t, fd, f, s.task[t].cloexec - {fd}).(count := s.count[f := s.count[f] + 1])
  }

  lemma OpenedStep(s: State, t: nat, fd: nat, f: nat)
    requires Inv(s) && t < |s.task| && s.task[t].Live? && fd < NR_OPEN && f < NR_FILE
    requires |s.task[t].filp| == NR_OPEN && s.task[t].filp[fd] == NULL
    ensures Inv(Opened(s, t, fd, f))
  {
    var s' := Opened(s, t, fd, f);
    assert FilesOk(s.task[t]);
    forall g | 0 <= g < NR_FILE ensures Counted(s', g) {
      assert Counted(s, g);
      RefsUpdate(s.task, t, s'.task[t], g);
      RefsInUpdate(s.task[t].filp, fd, f, g);
    }
  }

  /** Descriptor fd is closed. */
  function Closed(s: State, t: nat, fd: nat): State
    requires t < |s.task| && s.task[t].Live? && fd < |s.task[t].filp| && -1 <= s.task[t].filp[fd] < |s.count|
    requires s.task[t].filp[fd] != NULL ==> s.count[s.task[t].filp[fd]] > 0
  {
    var f := s.task[t].filp[fd];
    var s1 := SetFilp(s, t, fd, NULL, s.task[t].cloexec - {fd});
    if f == NULL then s1 else s1.(count := s.count[f := s.count[f] - 1])
  }

  lemma ClosedStep(s: State, t: nat, fd: nat)
    requires Inv(s) && t < |s.task| && s.task[t].Live? && fd < NR_OPEN
    ensures |s.task[t].filp| == NR_OPEN && -1 <= s.task[t].filp[fd] < NR_FILE
    ensures s.task[t].filp[fd] != NULL ==> s.count[s.task[t].filp[fd]] > 0
    ensures Inv(Closed(s, t, fd))
  {
    assert FilesOk(s.task[t]);
    if s.task[t].filp[fd] != NULL { OpenIsCounted(s, t, fd); }
    var s' := Closed(s, t, fd);
    forall g | 0 <= g < NR_FILE ensures Counted(s', g) {
      assert Counted(s, g);
      RefsUpdate(s.task, t, s'.task[t], g);
      RefsInUpdate(s.task[t].filp, fd, NULL, g);
    }
  }

  /** fork: the child has the parent's descriptors. */
  function Forked(s: State, t: nat, nr: nat): State
    requires t < |s.task| && s.task[t].Live? && nr < |s.task| && |s.count| == NR_FILE
  {
    State(seq(NR_FILE, f requires 0 <= f < NR_FILE && |s.count| == NR_FILE => s.count[f] + RefsIn(s.task[t].filp, f)),
          s.task[nr := s.task[t]])
  }

  lemma ForkedStep(s: State, t: nat, nr: nat)
    requires Inv(s) && t < |s.task| && s.task[t].Live? && nr < |s.task| && s.task[nr].Free?
    ensures Inv(Forked(s, t, nr))
  {
    var s' := Forked(s, t, nr);
    forall g | 0 <= g < NR_FILE ensures Counted(s', g) {
      assert Counted(s, g);
      RefsUpdate(s.task, nr, s.task[t], g);
    }
  }

  function AllClosed(x: Files): bool { x.Live? ==> forall fd :: 0 <= fd < |x.filp| ==> x.filp[fd] == NULL }

  lemma {:induction false} NoRefs(filp: seq<int>, f: int)
    requires (forall fd :: 0 <= fd < |filp| ==> filp[fd] == NULL) && f != NULL
    ensures RefsIn(filp, f) == 0
  {
    if filp != [] { NoRefs(filp[..|filp| - 1], f); }
  }

  lemma ReleasedStep(s: State, t: nat)
    requires Inv(s) && t < |s.task| && AllClosed(s.task[t])
    ensures Inv(s.(task := s.task[t := Free]))
  {
    var s' := s.(task := s.task[t := Free]);
    forall g | 0 <= g < NR_FILE ensures Counted(s', g) {
      assert Counted(s, g);
      RefsUpdate(s.task, t, Free, g);
      if s.task[t].Live? { NoRefs(s.task[t].filp, g); }
    }
  }
}
