/** open, close, dup, dup2, fcntl, pipe, fork, exec and exit as far as descriptors go: fs/open.c,
    fs/fcntl.c, fs/pipe.c (sys_pipe), kernel/fork.c, fs/exec.c and kernel/exit.c.  Every call is one
    step, since no other task uses the caller's descriptors while the caller sleeps inside it. */
module Descriptors {
  import opened DescriptorState

  const EBADF: int := 9
  const EINVAL: int := 22
  const EMFILE: int := 24

  ghost predicate LowestFree(filp: seq<int>, fd: nat) {
    fd < |filp| && filp[fd] == NULL && forall i :: 0 <= i < fd ==> filp[i] != NULL
  }

  ghost predicate NoneFree(filp: seq<int>) { forall i :: 0 <= i < |filp| ==> filp[i] != NULL }

  ghost predicate LowestUnused(count: seq<nat>, f: nat) {
    f < |count| && count[f] == 0 && forall i :: 0 <= i < f ==> count[i] != 0
  }

  ghost predicate NoneUnused(count: seq<nat>) { forall i :: 0 <= i < |count| ==> count[i] != 0 }

  /** The lowest free descriptor from arg on. */
  ghost predicate LowestFrom(filp: seq<int>, arg: nat, fd: nat) {
    arg <= fd < |filp| && filp[fd] == NULL && forall i :: arg <= i < fd ==> filp[i] != NULL
  }

  ghost predicate TwoUnused(count: seq<nat>) {
    exists f, g :: 0 <= f < g < |count| && count[f] == 0 && count[g] == 0
  }

  ghost predicate TwoFree(filp: seq<int>) {
    exists fd, ge :: 0 <= fd < ge < |filp| && filp[fd] == NULL && filp[ge] == NULL
  }

  /** Descriptor fd of task t points at file f, and is not marked close-on-exec; no other descriptor has changed. */
  ghost predicate Pointed(task: seq<Files>, task': seq<Files>, t: nat, fd: nat, f: int) {
    && t < |task| && task[t].Live? && fd < |task[t].filp|
    && task' == task[t := Live(task[t].filp[fd := f], task[t].cloexec - {fd})]
  }

  /** A system call of task t, with what the file system answers. */
  datatype Call =
    | Open(t: nat, error: int)
    | Close(t: nat, fd: nat)
    | Dup(t: nat, fd: nat)
    | DupFrom(t: nat, fd: nat, arg: nat)      // fcntl with F_DUPFD
    | Dup2(t: nat, fd: nat, newfd: nat)
    | CloseOnExec(t: nat, fd: nat, on: bool)
    | Pipe(t: nat, gotInode: bool)
    | ForkTo(t: nat, nr: nat)
    | Exec(t: nat)
    | Exit(t: nat)

  class FileTable {
    const count: array<nat>
    const task: array<Files>

    ghost function S(): State
      reads count, task
    {
      State(count[..], task[..])
    }

    ghost predicate Valid()
      reads count, task
    {
      Inv(S())
    }

    ghost predicate Runs(t: nat)
      reads count, task
    {
      Valid() && t < task.Length && task[t].Live? && FilesOk(task[t])
    }

    /** An empty file table, and task 0 without descriptors. */
    constructor (tasks: nat)
      requires tasks > 0
      ensures Valid() && task.Length == tasks && task[0] == Live(seq(NR_OPEN, _ => NULL), {})
    {
      count := new nat[NR_FILE](_ => 0);
      task := new Files[tasks](i => if i == 0 then Live(seq(NR_OPEN, _ => NULL), {}) else Free);
      new;
      forall f | 0 <= f < NR_FILE ensures Counted(S(), f) {
        NothingOpen(task[..], f);
      }
    }

    method SetFilp(t: nat, fd: nat, v: int, cloexec: set<nat>)
      requires t < task.Length && task[t].Live? && fd < |task[t].filp|
      modifies task
      ensures S() == DescriptorState.SetFilp(old(S()), t, fd, v, cloexec)
    {
      task[t] := Live(task[t].filp[fd := v], cloexec);
    }

    method SysClose(t: nat, fd: nat) returns (r: int, last: bool)
      requires Runs(t)
      modifies count, task
      ensures Runs(t) && (r == if fd >= NR_OPEN || old(task[t].filp[fd]) == NULL then -EINVAL else 0)
      ensures r != 0 ==> S() == old(S()) && !last
      ensures r == 0 ==> 0 <= old(task[t].filp[fd]) < NR_FILE && old(count[task[t].filp[fd]]) > 0
      ensures r == 0 ==> S() == Closed(old(S()), t, fd)
      ensures r == 0 ==> task[..] == old(task[..])[t := Live(old(task[t].filp)[fd := -1], old(task[t].cloexec) - {fd})]
      ensures r == 0 ==> var f := old(task[t].filp[fd]); count[..] == old(count[..])[f := old(count[f]) - 1]
      ensures r == 0 ==> (last <==> count[old(task[t].filp[fd])] == 0)
    {
      last := false;
      if fd >= NR_OPEN {
        return -EINVAL, false;
      }
      ghost var s := S();
      ClosedStep(s, t, fd);
      var f := task[t].filp[fd];
      if f == NULL {
        SameFiles(task[t], fd);
        SetFilp(t, fd, NULL, task[t].cloexec - {fd});
        assert task[..] == s.task;
        return -EINVAL, false;
      }
      SetFilp(t, fd, NULL, task[t].cloexec - {fd});
      assert count[f] != 0;
      count[f] := count[f] - 1;
      assert S() == Closed(s, t, fd);
      return 0, count[f] == 0;
    }

    method FindFd(t: nat, arg: nat) returns (fd: nat)
      requires Runs(t) && arg <= NR_OPEN
      ensures if fd < NR_OPEN then LowestFrom(task[t].filp, arg, fd)
              else fd == NR_OPEN && forall i :: arg <= i < NR_OPEN ==> task[t].filp[i] != NULL
    {
      fd := arg;
      while fd < NR_OPEN && task[t].filp[fd] != NULL
        invariant arg <= fd <= NR_OPEN && forall i :: arg <= i < fd ==> task[t].filp[i] != NULL
      {
        fd := fd + 1;
      }
    }

    method FindFile() returns (f: nat)
      requires Valid()
      ensures if f < NR_FILE then LowestUnused(count[..], f) else f == NR_FILE && NoneUnused(count[..])
    {
      f := 0;
      while f < NR_FILE && count[f] != 0
        invariant f <= NR_FILE && forall i :: 0 <= i < f ==> count[i] != 0
      {
        f := f + 1;
      }
    }

    /** sys_open; `error` is what open_namei and the terminal check say, 0 for success. */
    method SysOpen(t: nat, error: int) returns (r: int)
      requires Runs(t) && error <= 0
      modifies count, task
      ensures Runs(t)
      ensures r < 0 ==> S() == old(S())
      ensures r < 0 <==> NoneFree(old(task[t].filp)) || NoneUnused(old(count[..])) || error < 0
      ensures r >= 0 ==> LowestFree(old(task[t].filp), r)
      ensures r >= 0 ==>
        exists f :: 0 <= f < NR_FILE && LowestUnused(old(count[..]), f) && S() == Opened(old(S()), t, r, f)
      ensures r >= 0 ==> 0 <= task[t].filp[r] < 64 && LowestUnused(old(count[..]), task[t].filp[r])
      ensures r >= 0 ==> count[..] == old(count[..])[task[t].filp[r] := 1]
      ensures r >= 0 ==> Pointed(old(task[..]), task[..], t, r, task[t].filp[r])
    {
      ghost var s := S();
      var fd := FindFd(t, 0);
      if fd >= NR_OPEN {
        return -EINVAL;
      }
      SameFiles(task[t], fd);
      SetFilp(t, fd, NULL, task[t].cloexec - {fd});
      assert task[..] == s.task;
      var f := FindFile();
      if f >= NR_FILE {
        return -EINVAL;
      }
      SetFilp(t, fd, f, task[t].cloexec);
      count[f] := count[f] + 1;
      if error < 0 {
        SetFilp(t, fd, NULL, task[t].cloexec);
        count[f] := 0;
        assert task[t].filp == s.task[t].filp && task[t] == s.task[t];
        assert count[..] == s.count && task[..] == s.task;
        return error;
      }
      count[f] := 1;
      assert s.task[t].cloexec - {fd} == s.task[t].cloexec;
      OpenedStep(s, t, fd, f);
      assert S() == Opened(s, t, fd, f);
      return fd;
    }

    method DupFd(t: nat, fd: nat, arg: nat) returns (r: int)
      requires Runs(t)
      modifies count, task
      ensures Runs(t)
      ensures r < 0 ==> S() == old(S())
      ensures r == -EBADF <==> fd >= NR_OPEN || old(task[t].filp[fd]) == NULL
      ensures r == -EINVAL <==> r != -EBADF && arg >= NR_OPEN
      ensures r < 0 ==> r == -EBADF || r == -EINVAL || r == -EMFILE
      ensures r == -EMFILE ==> forall i :: arg <= i < NR_OPEN ==> old(task[t].filp[i]) != NULL
      ensures r >= 0 ==> fd < NR_OPEN && LowestFrom(old(task[t].filp), arg, r) && 0 <= old(task[t].filp[fd]) < NR_FILE
      ensures r >= 0 ==> S() == Opened(old(S()), t, r, old(task[t].filp[fd]))
      ensures r >= 0 ==> Pointed(old(task[..]), task[..], t, r, old(task[t].filp[fd]))
      ensures r >= 0 ==> var f := old(task[t].filp[fd]); count[..] == old(count[..])[f := old(count[f]) + 1]
    {
      if fd >= NR_OPEN || task[t].filp[fd] == NULL {
        return -EBADF;
      }
      if arg >= NR_OPEN {
        return -EINVAL;
      }
      var new_fd := FindFd(t, arg);
      if new_fd >= NR_OPEN {
        return -EMFILE;
      }
      ghost var s := S();
      var f := task[t].filp[fd];
      OpenedStep(s, t, new_fd, f);
      SetFilp(t, new_fd, f, task[t].cloexec - {new_fd});
      count[f] := count[f] + 1;
      assert S() == Opened(s, t, new_fd, f);
      return new_fd;
    }

    method SysDup(t: nat, fd: nat) returns (r: int)
      requires Runs(t)
      modifies count, task
      ensures Runs(t) && (r < 0 ==> S() == old(S()))
      ensures r == -EBADF <==> fd >= NR_OPEN || old(task[t].filp[fd]) == NULL
      ensures r < 0 && r != -EBADF ==> NoneFree(old(task[t].filp))
      ensures r >= 0 ==> LowestFree(old(task[t].filp), r) && fd < NR_OPEN && 0 <= old(task[t].filp[fd]) < NR_FILE
      ensures r >= 0 ==> S() == Opened(old(S()), t, r, old(task[t].filp[fd]))
      ensures r >= 0 ==> Pointed(old(task[..]), task[..], t, r, old(task[t].filp[fd]))
      ensures r >= 0 ==> var f := old(task[t].filp[fd]); count[..] == old(count[..])[f := old(count[f]) + 1]
    {
      r := DupFd(t, fd, 0);
    }

    /** The new descriptor is closed first, whatever the old one is; duplicating one onto itself closes it. */
    method SysDup2(t: nat, oldfd: nat, newfd: nat) returns (r: int)
      requires Runs(t)
      modifies count, task
      ensures Runs(t)
      ensures oldfd >= NR_OPEN || old(task[t].filp[oldfd]) == NULL || oldfd == newfd <==> r == -EBADF
      ensures oldfd < NR_OPEN && old(task[t].filp[oldfd]) != NULL && newfd >= NR_OPEN ==>
        r == -EINVAL && S() == old(S())
      ensures oldfd < NR_OPEN && old(task[t].filp[oldfd]) != NULL && newfd < NR_OPEN && oldfd != newfd ==>
        r == newfd && task[t].filp == old(task[t].filp)[newfd := old(task[t].filp[oldfd])] && newfd !in task[t].cloexec
      ensures r == -EBADF && newfd < NR_OPEN ==> task[t].filp == old(task[t].filp)[newfd := NULL]
      ensures r == -EBADF && newfd >= NR_OPEN ==> S() == old(S())
      ensures forall fd :: fd != newfd ==> (fd in task[t].cloexec <==> fd in old(task[t].cloexec))
      ensures forall u :: 0 <= u < task.Length && u != t ==> task[u] == old(task[u])
    {
      ghost var filp := task[t].filp;
      var c, last := SysClose(t, newfd);
      ghost var filp1 := task[t].filp;
      assert newfd < NR_OPEN ==> filp1 == filp[newfd := NULL] && filp1[newfd] == NULL;
      ghost var s1 := S();
      r := DupFd(t, oldfd, newfd);
      assert S().task[t] == task[t] && s1.task[t].filp == filp1;
      assert newfd < NR_OPEN && r != -EBADF ==> r == newfd;
      assert r >= 0 ==> filp[newfd := NULL][newfd := filp1[oldfd]] == filp[newfd := filp1[oldfd]];
    }

    method SetCloseOnExec(t: nat, fd: nat, on: bool) returns (r: int)
      requires Runs(t)
      modifies task
      ensures Runs(t) && (r == if fd >= NR_OPEN || old(task[t].filp[fd]) == NULL then -EBADF else 0)
      ensures r < 0 ==> S() == old(S())
      ensures r == 0 ==>
        task[..] == old(task[..])[t := Live(old(task[t].filp), old(task[t].cloexec) - {fd} + (if on then {fd} else {}))]
    {
      if fd >= NR_OPEN || task[t].filp[fd] == NULL {
        return -EBADF;
      }
      ghost var s := S();
      var c := task[t].cloexec - {fd} + (if on then {fd} else {});
      task[t] := Live(task[t].filp, c);
      forall f | 0 <= f < NR_FILE ensures Counted(S(), f) {
        assert Counted(s, f);
        RefsUpdate(s.task, t, task[t], f);
      }
      return 0;
    }

    /** The first loop of sys_pipe: up to two unused files get a reference. */
    method TakeFiles() returns (j: nat, f0: nat, f1: nat)
      requires count.Length == NR_FILE
      modifies count
      ensures j <= 2 && f0 < NR_FILE && f1 < NR_FILE
      ensures j >= 1 ==> LowestUnused(old(count[..]), f0)
      ensures j == 2 ==> old(count[f1]) == 0 && f0 < f1 && forall i :: f0 < i < f1 ==> old(count[i]) != 0
      ensures j == 2 <==> TwoUnused(old(count[..]))
      ensures j == 0 <==> NoneUnused(old(count[..]))
      ensures count[..] == Taken(old(count[..]), j, f0, f1)
    {
      ghost var c := count[..];
      j, f0, f1 := 0, 0, 0;
      var i := 0;
      while j < 2 && i < NR_FILE
        invariant 0 <= i <= NR_FILE && j <= 2 && f0 < NR_FILE && f1 < NR_FILE
        invariant j >= 1 ==> f0 < i && LowestUnused(c, f0)
        invariant j == 2 ==> f0 < f1 < i && c[f1] == 0
        invariant forall k :: 0 <= k < i && !(j >= 1 && k == f0) && !(j == 2 && k == f1) ==> c[k] != 0
        invariant count[..] == Taken(c, j, f0, f1)
      {
        if count[i] == 0 {
          count[i] := count[i] + 1;
          if j == 0 { f0 := i; } else { f1 := i; }
          j := j + 1;
        }
        i := i + 1;
      }
    }

    /** The second loop: up to two free descriptors get the files. */
    method TakeFds(t: nat, f0: nat, f1: nat) returns (j: nat, fd0: nat, fd1: nat)
      requires t < task.Length && task[t].Live? && FilesOk(task[t])
      modifies task
      ensures j <= 2 && fd0 < NR_OPEN && fd1 < NR_OPEN
      ensures j >= 1 ==> LowestFree(old(task[t].filp), fd0)
      ensures j == 2 ==> LowestFrom(old(task[t].filp), fd0 + 1, fd1)
      ensures j == 2 <==> TwoFree(old(task[t].filp))
      ensures j == 0 <==> NoneFree(old(task[t].filp))
      ensures task[..] == old(task[..])[t := Live(Placed(old(task[t].filp), j, fd0, fd1, f0, f1), old(task[t].cloexec))]
    {
      ghost var x, all := task[t], task[..];
      j, fd0, fd1 := 0, 0, 0;
      var i := 0;
      assert all[t := Live(Placed(x.filp, 0, 0, 0, f0, f1), x.cloexec)] == all;
      while j < 2 && i < NR_OPEN
        invariant 0 <= i <= NR_OPEN && j <= 2 && fd0 < NR_OPEN && fd1 < NR_OPEN
        invariant j >= 1 ==> fd0 < i && LowestFree(x.filp, fd0)
        invariant j == 2 ==> fd1 < i && LowestFrom(x.filp, fd0 + 1, fd1)
        invariant forall k :: 0 <= k < i && !(j >= 1 && k == fd0) && !(j == 2 && k == fd1) ==> x.filp[k] != NULL
        invariant task[..] == all[t := Live(Placed(x.filp, j, fd0, fd1, f0, f1), x.cloexec)]
      {
        assert task[t] == task[..][t];
        if task[t].filp[i] == NULL {
          task[t] := Live(task[t].filp[i := if j == 0 then f0 else f1], task[t].cloexec);
          if j == 0 { fd0 := i; } else { fd1 := i; }
          j := j + 1;
        }
        i := i + 1;
      }
    }

    /** sys_pipe; `gotInode` is what get_pipe_inode returns.  Without two files, two descriptors and an
        inode everything is given back. */
    method SysPipe(t: nat, gotInode: bool) returns (r: int, fd0: nat, fd1: nat)
      requires Runs(t)
      modifies count, task
      ensures Runs(t) && (r == 0 || r == -1)
      ensures r == -1 ==> S() == old(S())
      ensures r == 0 <==> TwoUnused(old(count[..])) && TwoFree(old(task[t].filp)) && gotInode
      ensures r == 0 ==> LowestFree(old(task[t].filp), fd0) && LowestFrom(old(task[t].filp), fd0 + 1, fd1)
      ensures r == 0 ==> exists f0: nat, f1: nat ::
        f0 < f1 < NR_FILE && old(count[f0]) == 0 && old(count[f1]) == 0 && TwoOpened(old(S()), S(), t, fd0, f0, fd1, f1)
        && count[..] == old(count[..])[f0 := 1][f1 := 1]
        && task[..] == old(task[..])[t := Live(old(task[t].filp)[fd0 := f0][fd1 := f1], old(task[t].cloexec))]
    {
      ghost var s := S();
      var j, f0, f1 := TakeFiles();
      fd0, fd1 := 0, 0;
      if j == 1 {
        count[f0] := 0;
      }
      if j < 2 {
        assert count[..] == s.count;
        return -1, 0, 0;
      }
      j, fd0, fd1 := TakeFds(t, f0, f1);
      assert task[t] == task[..][t];
      if j == 1 {
        SetFilp(t, fd0, NULL, task[t].cloexec);
      }
      if j < 2 {
        count[f0], count[f1] := 0, 0;
        PlacedUndone(s.task[t].filp, j, fd0, fd1, f0, f1);
        assert count[..] == s.count && task[..] == s.task;
        return -1, 0, 0;
      }
      if !gotInode {
        SetFilp(t, fd0, NULL, task[t].cloexec);
        assert task[t] == task[..][t];
        SetFilp(t, fd1, NULL, task[t].cloexec);
        count[f0], count[f1] := 0, 0;
        PlacedUndone(s.task[t].filp, j, fd0, fd1, f0, f1);
        assert count[..] == s.count && task[..] == s.task;
        return -1, 0, 0;
      }
      TwoOpenedStep(s, S(), t, fd0, f0, fd1, f1);
      return 0, fd0, fd1;
    }

    /** fork: every open file gets one more reference for each of the parent's descriptors. */
    method Fork(t: nat, nr: nat)
      requires Runs(t) && nr < task.Length && task[nr].Free?
      modifies count, task
      ensures Valid() && S() == Forked(old(S()), t, nr)
      ensures task[..] == old(task[..])[nr := old(task[t])] && old(|task[t].filp|) == 20
      ensures forall f :: 0 <= f < 64 ==> count[f] == old(count[f]) + |DescriptorsOf(old(task[t].filp), f)|
    {
      ghost var s := S();
      ForkedStep(s, t, nr);
      var i := 0;
      while i < NR_OPEN
        modifies count
        invariant 0 <= i <= NR_OPEN && task[..] == s.task && FilesOk(task[t])
        invariant forall f :: 0 <= f < NR_FILE ==> count[f] == s.count[f] + RefsIn(s.task[t].filp[..i], f)
      {
        var f := task[t].filp[i];
        assert s.task[t].filp[..i + 1][..i] == s.task[t].filp[..i];
        if f != NULL {
          count[f] := count[f] + 1;
        }
        i := i + 1;
      }
      assert s.task[t].filp[..NR_OPEN] == s.task[t].filp;
      task[nr] := task[t];
      assert S() == Forked(s, t, nr);
      forall f | 0 <= f < NR_FILE ensures RefsIn(s.task[t].filp, f) == |DescriptorsOf(s.task[t].filp, f)| {
        RefsInIs(s.task[t].filp, f);
      }
    }

    /** The close-on-exec loop of do_execve. */
    method ExecClose(t: nat)
      requires Runs(t)
      modifies count, task
      ensures Runs(t) && task[t].cloexec == {}
      ensures forall fd :: 0 <= fd < NR_OPEN ==>
        task[t].filp[fd] == if fd in old(task[t].cloexec) then NULL else old(task[t].filp[fd])
      ensures forall u :: 0 <= u < task.Length && u != t ==> task[u] == old(task[u])
    {
      ghost var x := task[t];
      var i := 0;
      while i < NR_OPEN
        invariant 0 <= i <= NR_OPEN && Runs(t) && |task[t].filp| == NR_OPEN
        invariant forall fd :: 0 <= fd < NR_OPEN ==>
          task[t].filp[fd] == if fd < i && fd in x.cloexec then NULL else x.filp[fd]
        invariant forall fd :: fd in task[t].cloexec <==> fd in x.cloexec && fd >= i
        invariant forall u :: 0 <= u < task.Length && u != t ==> task[u] == old(task[u])
      {
        if i in task[t].cloexec {
          var r, last := SysClose(t, i);
        }
        i := i + 1;
      }
      assert forall fd :: fd in task[t].cloexec ==> fd < NR_OPEN;
    }

    /** The descriptor loop of do_exit. */
    method ExitClose(t: nat)
      requires Runs(t)
      modifies count, task
      ensures Runs(t) && AllClosed(task[t])
      ensures forall u :: 0 <= u < task.Length && u != t ==> task[u] == old(task[u])
    {
      var i := 0;
      while i < NR_OPEN
        invariant 0 <= i <= NR_OPEN && Runs(t)
        invariant forall fd :: 0 <= fd < i ==> task[t].filp[fd] == NULL
        invariant forall u :: 0 <= u < task.Length && u != t ==> task[u] == old(task[u])
      {
        if task[t].filp[i] != NULL {
          var r, last := SysClose(t, i);
        }
        i := i + 1;
      }
    }

    /** release of the task slot, when do_exit has closed everything. */
    method Release(t: nat)
      requires Runs(t) && AllClosed(task[t])
      modifies task
      ensures Valid() && task[..] == old(task[..])[t := Free] && count[..] == old(count[..])
    {
      ReleasedStep(S(), t);
      ghost var s := S();
      task[t] := Free;
      assert S() == s.(task := s.task[t := Free]);
    }

    method Perform(c: Call)
      requires Valid()
      modifies count, task
      ensures Valid()
    {
      if c.t >= task.Length || task[c.t].Free? {
        return;
      }
      assert FilesOk(S().task[c.t]);
      match c {
        case Open(t, error) => var r := SysOpen(t, if error < 0 then error else 0);
        case Close(t, fd) => var r, last := SysClose(t, fd);
        case Dup(t, fd) => var r := SysDup(t, fd);
        case DupFrom(t, fd, arg) => var r := DupFd(t, fd, arg);
        case Dup2(t, fd, newfd) => var r := SysDup2(t, fd, newfd);
        case CloseOnExec(t, fd, on) => var r := SetCloseOnExec(t, fd, on);
        case Pipe(t, gotInode) => var r, fd0, fd1 := SysPipe(t, gotInode);
        case ForkTo(t, nr) => if nr < task.Length && task[nr].Free? { Fork(t, nr); }
        case Exec(t) => ExecClose(t);
        case Exit(t) => ExitClose(t); Release(t);
      }
    }

    /** After any run of calls by any tasks every count is the number of descriptors that point at the
        file, and only open descriptors are marked close-on-exec. */
    method Run(calls: seq<Call>)
      requires Valid()
      modifies count, task
      ensures forall f :: 0 <= f < NR_FILE ==> Counted(S(), f)
      ensures forall t :: 0 <= t < task.Length ==> FilesOk(task[t])
      ensures Valid()
    {
      for i := 0 to |calls|
        invariant Valid()
      {
        Perform(calls[i]);
      }
      forall t | 0 <= t < task.Length ensures FilesOk(task[t]) {
        assert FilesOk(S().task[t]);
      }
    }
  }

  function Taken(c: seq<nat>, j: nat, f0: nat, f1: nat): seq<nat>
    requires f0 < |c| && f1 < |c|
  {
    if j == 0 then c else if j == 1 then c[f0 := 1] else c[f0 := 1][f1 := 1]
  }

  function Placed(filp: seq<int>, j: nat, fd0: nat, fd1: nat, f0: nat, f1: nat): seq<int>
    requires fd0 < |filp| && fd1 < |filp|
  {
    if j == 0 then filp else if j == 1 then filp[fd0 := f0] else filp[fd0 := f0][fd1 := f1]
  }

  lemma PlacedUndone(filp: seq<int>, j: nat, fd0: nat, fd1: nat, f0: nat, f1: nat)
    requires fd0 < |filp| && fd1 < |filp| && j <= 2 && (j >= 1 ==> filp[fd0] == NULL) && (j == 2 ==> filp[fd1] == NULL)
    ensures j == 0 ==> Placed(filp, j, fd0, fd1, f0, f1) == filp
    ensures j == 1 ==> Placed(filp, j, fd0, fd1, f0, f1)[fd0 := NULL] == filp
    ensures j == 2 ==> Placed(filp, j, fd0, fd1, f0, f1)[fd0 := NULL][fd1 := NULL] == filp
  {
  }

  /** The read end is fd0 on f0, the write end fd1 on f1. */
  ghost predicate TwoOpened(s: State, s': State, t: nat, fd0: nat, f0: nat, fd1: nat, f1: nat) {
    && t < |s.task| && s.task[t].Live? && fd0 < |s.task[t].filp| && fd1 < |s.task[t].filp|
    && f0 < |s.count| && f1 < |s.count|
    && s' == Opened(Opened(s, t, fd0, f0), t, fd1, f1)
  }

  lemma TwoOpenedStep(s: State, s': State, t: nat, fd0: nat, f0: nat, fd1: nat, f1: nat)
    requires Inv(s) && t < |s.task| && s.task[t].Live? && FilesOk(s.task[t]) && fd0 < fd1 < NR_OPEN && f0 < f1 < NR_FILE
    requires s.task[t].filp[fd0] == NULL && s.task[t].filp[fd1] == NULL && s.count[f0] == 0 && s.count[f1] == 0
    requires s'.count == s.count[f0 := 1][f1 := 1]
    requires s'.task == s.task[t := Live(s.task[t].filp[fd0 := f0][fd1 := f1], s.task[t].cloexec)]
    ensures TwoOpened(s, s', t, fd0, f0, fd1, f1) && Inv(s')
  {
    OpenedStep(s, t, fd0, f0);
    var s1 := Opened(s, t, fd0, f0);
    OpenedStep(s1, t, fd1, f1);
    assert s.task[t].cloexec - {fd0} - {fd1} == s.task[t].cloexec;
    assert s1.task[t := Opened(s1, t, fd1, f1).task[t]] == s.task[t := Opened(s1, t, fd1, f1).task[t]];
  }

  /** Closing what is closed changes nothing. */
  lemma SameFiles(x: Files, fd: nat)
    requires FilesOk(x) && x.Live? && fd < NR_OPEN && x.filp[fd] == NULL
    ensures Live(x.filp[fd := NULL], x.cloexec - {fd}) == x
  {
    assert x.filp[fd := NULL] == x.filp && x.cloexec - {fd} == x.cloexec;
  }

  lemma {:induction false} NothingOpen(task: seq<Files>, f: nat)
    requires forall t :: 0 <= t < |task| ==> AllClosed(task[t])
    ensures Refs(task, f) == 0
  {
    if task != [] {
      var x := task[|task| - 1];
      if x.Live? { NoRefs(x.filp, f); }
      NothingOpen(task[..|task| - 1], f);
    }
  }
}
