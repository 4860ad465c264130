/** The request queue and the interrupt state machine of kernel/hd.c.  add_request and every
    interrupt handler are one step each; `ok` is what win_result finds in the status register and
    `drq` whether the controller asks for the first sector of a write. */
module HardDisk {
  import opened DiskOrder

  const NULL: int := -1
  const MAX_ERRORS: nat := 5

  datatype Command = Read | Write

  /** What do_hd points at. */
  datatype Handler = Nothing | ReadIntr | WriteIntr | DoRequest

  datatype Slot = Slot(hd: int, nsector: nat, sector: nat, head: nat, cyl: nat, cmd: Command, errors: nat, bh: int,
                       next: int)

  /** A buffer whose request has left the queue, and the b_uptodate it was left with. */
  datatype Done = Done(bh: int, uptodate: bool)

  /** `queue` is what the next links spell from this_request on. */
  datatype State = State(request: seq<Slot>, current: int, handler: Handler, queue: seq<int>, done: seq<Done>)

  function After(q: seq<int>, k: nat): int
    requires k < |q|
  {
    if k + 1 < |q| then q[k + 1] else NULL
  }

  function First(q: seq<int>): int { if q == [] then NULL else q[0] }

  ghost predicate Queued(s: State, k: int)
    requires 0 <= k < |s.queue| && 0 <= s.queue[k] < |s.request|
  {
    && var r := s.request[s.queue[k]];
       && r.next == After(s.queue, k)
       && 0 <= r.hd < 2 && r.head <= 15
       && (if k == 0 then 1 <= r.nsector <= 2 && r.errors <= MAX_ERRORS else r.nsector == 2 && r.errors == 0)
  }

  ghost predicate Distinct(q: seq<int>) {
    forall i, j :: 0 <= i < j < |q| ==> q[i] != q[j]
  }

  /** While there is work, a handler that fits the current request is armed. */
  ghost predicate Armed(s: State) {
    && (s.queue != [] ==> s.handler != Nothing)
    && (s.handler == ReadIntr ==> s.queue != [] && 0 <= s.queue[0] < |s.request| && s.request[s.queue[0]].cmd == Read)
    && (s.handler == WriteIntr ==> s.queue != [] && 0 <= s.queue[0] < |s.request| && s.request[s.queue[0]].cmd == Write)
  }

  ghost predicate Structured(s: State) {
    && Distinct(s.queue) && s.current == First(s.queue)
    && (forall k :: 0 <= k < |s.queue| ==> 0 <= s.queue[k] < |s.request|)
    && (forall k :: 0 <= k < |s.queue| ==> Queued(s, k))
    && (forall i :: 0 <= i < |s.request| ==> Taken(s, i))
  }

  ghost predicate Inv(s: State) { Structured(s) && Armed(s) }

  /** The slots in the queue are those with a drive number. */
  ghost predicate Taken(s: State, i: int)
    requires 0 <= i < |s.request|
  {
    i in s.queue <==> s.request[i].hd >= 0
  }

  // ---------------------------------------------------------------- steps

  /** The end of a request: its slot is free, its buffer unlocked. */
  function Finished(s: State, uptodate: bool): State
    requires s.queue != [] && 0 <= s.queue[0] < |s.request|
  {
    var i := s.queue[0];
    State(s.request[i := s.request[i].(hd := -1)], s.request[i].next, s.handler, s.queue[1..],
          s.done + [Done(s.request[i].bh, uptodate)])
  }

  /** do_request */
  function Started(s: State, drq: bool): State
    requires s.queue != [] ==> 0 <= s.queue[0] < |s.request|
  {
    s.(handler := if s.queue == [] then Nothing
                  else if s.request[s.queue[0]].cmd == Read then ReadIntr
                  else if drq then WriteIntr else DoRequest)
  }

  /** bad_rw_intr */
  function Failed(s: State): State
    requires s.queue != [] && 0 <= s.queue[0] < |s.request|
  {
    var i := s.queue[0];
    var s1 := s.(request := s.request[i := s.request[i].(errors := s.request[i].errors + 1)]);
    (if s.request[i].errors >= MAX_ERRORS then Finished(s1, false) else s1).(handler := DoRequest)
  }

  /** read_intr and write_intr */
  function Transferred(s: State, ok: bool, drq: bool): State
    requires s.queue != [] && 0 <= s.queue[0] < |s.request| && s.request[s.queue[0]].nsector > 0
    requires |s.queue| > 1 ==> 0 <= s.queue[1] < |s.request|
  {
    var i := s.queue[0];
    var r := s.request[i];
    if !ok then Failed(s)
    else
      var r1 := r.(nsector := r.nsector - 1, errors := if r.cmd == Read then 0 else r.errors);
      var s1 := s.(request := s.request[i := r1]);
      if r.nsector > 1 then s1 else Started(Finished(s1, true), drq)
  }

  function Interrupted(s: State, ok: bool, drq: bool): State
    requires s.queue != [] ==> 0 <= s.queue[0] < |s.request|
    requires |s.queue| > 1 ==> 0 <= s.queue[1] < |s.request|
    requires s.handler == ReadIntr || s.handler == WriteIntr ==> s.queue != [] && s.request[s.queue[0]].nsector > 0
  {
    match s.handler
    case Nothing => s
    case DoRequest => Started(s, drq)
    case _ => Transferred(s, ok, drq)
  }

  lemma FinishedStep(s: State, s1: State, uptodate: bool)
    requires Inv(s) && s.queue != [] && |s1.request| == |s.request| && s1 == s.(request := s1.request)
    requires forall i :: 0 <= i < |s.request| && i != s.queue[0] ==> s1.request[i] == s.request[i]
    requires s1.request[s.queue[0]].next == s.request[s.queue[0]].next
    ensures Structured(Finished(s1, uptodate))
  {
    var s' := Finished(s1, uptodate);
    assert Queued(s, 0);
    forall k | 0 <= k < |s'.queue| ensures Queued(s', k) {
      assert Queued(s, k + 1) && s.queue[k + 1] != s.queue[0];
    }
    forall i | 0 <= i < |s.request| ensures Taken(s', i) {
      assert Taken(s, i);
      HeadLeaves(s.queue, i);
    }
  }

  lemma HeadLeaves(q: seq<int>, x: int)
    requires Distinct(q) && q != []
    ensures x in q[1..] <==> x in q && x != q[0]
  {
    assert x in q && x != q[0] ==> x in q[1..] by { assert q == [q[0]] + q[1..]; }
  }

  lemma SameQueueStep(s: State, r: Slot, h: Handler)
    requires Inv(s) && s.queue != [] && r.hd == s.request[s.queue[0]].hd && r.head == s.request[s.queue[0]].head
    requires r.next == s.request[s.queue[0]].next && r.cmd == s.request[s.queue[0]].cmd
    requires 1 <= r.nsector <= 2 && r.errors <= MAX_ERRORS
    requires h == DoRequest || h == (if r.cmd == Read then ReadIntr else WriteIntr)
    ensures Inv(s.(request := s.request[s.queue[0] := r], handler := h))
  {
    var s' := s.(request := s.request[s.queue[0] := r], handler := h);
    forall k | 0 <= k < |s'.queue| ensures Queued(s', k) {
      assert Queued(s, k);
    }
    forall i | 0 <= i < |s'.request| ensures Taken(s', i) {
      assert Taken(s, i);
    }
  }

  lemma Ready(s: State)
    requires Inv(s)
    ensures s.queue != [] ==> 0 <= s.queue[0] < |s.request| && 1 <= s.request[s.queue[0]].nsector <= 2
    ensures |s.queue| > 1 ==> 0 <= s.queue[1] < |s.request|
  {
    if s.queue != [] { assert Queued(s, 0); }
    if |s.queue| > 1 { assert Queued(s, 1); }
  }

  lemma HandlerSet(s: State, h: Handler)
    requires Structured(s)
    ensures Structured(s.(handler := h))
  {
    var s' := s.(handler := h);
    forall k | 0 <= k < |s'.queue| ensures Queued(s', k) {
      assert Queued(s, k);
    }
    forall i | 0 <= i < |s'.request| ensures Taken(s', i) {
      assert Taken(s, i);
    }
  }

  lemma StartedStep(s: State, drq: bool)
    requires Structured(s)
    ensures (s.queue != [] ==> 0 <= s.queue[0] < |s.request|) && Inv(Started(s, drq))
  {
    HandlerSet(s, Started(s, drq).handler);
  }

  lemma FailedStep(s: State)
    requires Inv(s) && s.queue != [] && 0 <= s.queue[0] < |s.request|
    ensures Inv(Failed(s))
  {
    Ready(s);
    assert Queued(s, 0);
    var i := s.queue[0];
    var r := s.request[i].(errors := s.request[i].errors + 1);
    if s.request[i].errors >= MAX_ERRORS {
      var s1 := s.(request := s.request[i := r]);
      FinishedStep(s, s1, false);
      HandlerSet(Finished(s1, false), DoRequest);
    } else {
      SameQueueStep(s, r, DoRequest);
    }
  }

  lemma InterruptedStep(s: State, ok: bool, drq: bool)
    requires Inv(s)
    ensures s.queue != [] ==> 0 <= s.queue[0] < |s.request| && s.request[s.queue[0]].nsector > 0
    ensures |s.queue| > 1 ==> 0 <= s.queue[1] < |s.request|
    ensures Inv(Interrupted(s, ok, drq))
  {
    Ready(s);
    if s.handler == DoRequest {
      StartedStep(s, drq);
    } else if s.handler != Nothing {
      if !ok {
        FailedStep(s);
      } else {
        assert Queued(s, 0);
        var i := s.queue[0];
        var r := s.request[i];
        var r1 := r.(nsector := r.nsector - 1, errors := if r.cmd == Read then 0 else r.errors);
        var s1 := s.(request := s.request[i := r1]);
        if r.nsector > 1 {
          SameQueueStep(s, r1, s.handler);
        } else {
          FinishedStep(s, s1, true);
          StartedStep(Finished(s1, true), drq);
        }
      }
    }
  }

  // ---------------------------------------------------------------- add_request

  function Where(r: Slot): Position
    requires r.hd >= 0
  {
    Position(r.hd, r.cyl, r.head, r.sector)
  }

  ghost predicate Located(request: seq<Slot>, queue: seq<int>) {
    forall k :: 0 <= k < |queue| ==> 0 <= queue[k] < |request| && request[queue[k]].hd >= 0
  }

  ghost function Positions(request: seq<Slot>, queue: seq<int>): (p: seq<Position>)
    requires Located(request, queue)
    ensures |p| == |queue| && forall k :: 0 <= k < |queue| ==> p[k] == Where(request[queue[k]])
  {
    seq(|queue|, k requires 0 <= k < |queue| && Located(request, queue) => Where(request[queue[k]]))
  }

  ghost predicate New(s: State, i: int, r: Slot) {
    && 0 <= i < |s.request| && s.request[i].hd < 0
    && 0 <= r.hd < 2 && r.head <= 15 && r.nsector == 2 && r.errors == 0 && r.next == NULL
  }

  /** Slot i, filled with r, joins the queue behind its first n entries. */
  ghost function Linked(s: State, i: int, r: Slot, n: nat): State
    requires New(s, i, r) && n <= |s.queue| && forall k :: 0 <= k < |s.queue| ==> 0 <= s.queue[k] < |s.request|
  {
    var r' := s.request[i := r.(next := if n < |s.queue| then s.queue[n] else NULL)];
    s.(request := if n == 0 then r' else r'[s.queue[n - 1] := r'[s.queue[n - 1]].(next := i)],
       current := if n == 0 then i else s.current,
       queue := Insert(s.queue, n, i))
  }

  lemma InvLocates(s: State)
    requires Inv(s)
    ensures Located(s.request, s.queue)
  {
    forall k | 0 <= k < |s.queue| ensures s.request[s.queue[k]].hd >= 0 {
      assert Queued(s, k);
    }
  }

  ghost function Added(s: State, i: int, r: Slot, drq: bool): (s': State)
    requires Inv(s) && New(s, i, r)
    ensures Inv(s')
  {
    InvLocates(s);
    var n := Place(Positions(s.request, s.queue), Where(r));
    AddedStep(s, i, r, n, drq);
    var s1 := Linked(s, i, r, n);
    if s.handler == Nothing then Started(s1, drq) else s1
  }

  lemma InsertKeepsDistinct(q: seq<int>, n: nat, x: int)
    requires Distinct(q) && n <= |q| && forall k :: 0 <= k < |q| ==> q[k] != x
    ensures Distinct(Insert(q, n, x))
  {
  }

  lemma LinkedQueue(s: State, i: int, r: Slot, n: nat)
    requires Inv(s) && New(s, i, r) && n <= |s.queue| && (n == 0 ==> s.queue == [])
    ensures var s' := Linked(s, i, r, n);
      && Distinct(s'.queue) && (forall k :: 0 <= k < |s'.queue| ==> 0 <= s'.queue[k] < |s'.request|)
      && (forall k :: 0 <= k < |s'.queue| ==> Queued(s', k))
  {
    var s' := Linked(s, i, r, n);
    forall k | 0 <= k < |s.queue| ensures s.queue[k] != i {
      assert Queued(s, k);
    }
    InsertKeepsDistinct(s.queue, n, i);
    forall k | 0 <= k < |s'.queue| ensures Queued(s', k) {
      if k < n {
        assert Queued(s, k) && s'.queue[k] == s.queue[k];
      } else if k > n {
        assert Queued(s, k - 1) && s'.queue[k] == s.queue[k - 1];
      }
    }
  }

  lemma AddedStep(s: State, i: int, r: Slot, n: nat, drq: bool)
    requires Inv(s) && New(s, i, r) && n <= |s.queue| && (n == 0 ==> s.queue == [])
    ensures var s1 := Linked(s, i, r, n);
      && s1.queue != [] && 0 <= s1.queue[0] < |s1.request| && Structured(s1)
      && Inv(if s.handler == Nothing then Started(s1, drq) else s1)
  {
    LinkedQueue(s, i, r, n);
    var s1 := Linked(s, i, r, n);
    assert n > 0 ==> s1.queue[0] == s.queue[0];
    InsertMembers(s.queue, n, i);
    forall j | 0 <= j < |s1.request| ensures Taken(s1, j) {
      assert Taken(s, j) && (j in s.queue ==> j != i) && Taken(s, i);
    }
    if s.handler == Nothing {
      StartedStep(s1, drq);
    } else {
      assert s.queue != [] ==> Queued(s, 0) && s.queue[0] != i;
      assert Armed(s1) && Inv(s1);
    }
  }

  lemma InsertMembers(q: seq<int>, n: nat, x: int)
    requires n <= |q|
    ensures forall y :: y in Insert(q, n, x) <==> y in q || y == x
  {
    forall y | y in q ensures y in Insert(q, n, x) {
      var k :| 0 <= k < |q| && q[k] == y;
      assert Insert(q, n, x)[if k < n then k else k + 1] == y;
    }
    assert Insert(q, n, x)[n] == x;
  }

  // ---------------------------------------------------------------- what is done, and in which order

  ghost function Pending(s: State): (q: seq<int>)
    requires forall k :: 0 <= k < |s.queue| ==> 0 <= s.queue[k] < |s.request|
    ensures |q| == |s.queue| && forall k :: 0 <= k < |q| ==> q[k] == s.request[s.queue[k]].bh
  {
    seq(|s.queue|, k requires 0 <= k < |s.queue| && 0 <= s.queue[k] < |s.request| => s.request[s.queue[k]].bh)
  }

  ghost function Reported(s: State): (q: seq<int>)
    ensures |q| == |s.done| && forall k :: 0 <= k < |q| ==> q[k] == s.done[k].bh
  {
    seq(|s.done|, k requires 0 <= k < |s.done| => s.done[k].bh)
  }

  /** The first request of the queue is the last one reported. */
  ghost predicate FirstReported(s: State, s': State)
    requires s.queue != [] && 0 <= s.queue[0] < |s.request|
  {
    && |s'.done| == |s.done| + 1 && s'.done[..|s.done|] == s.done
    && s'.done[|s.done|].bh == s.request[s.queue[0]].bh
  }

  /** What an interrupt does to the queue: nothing, or its first request is over. */
  lemma QueueAfterInterrupt(s: State, ok: bool, drq: bool) returns (over: nat)
    requires Inv(s)
    ensures s.queue != [] ==> 0 <= s.queue[0] < |s.request| && s.request[s.queue[0]].nsector > 0
    ensures |s.queue| > 1 ==> 0 <= s.queue[1] < |s.request|
    ensures var s' := Interrupted(s, ok, drq);
      && over <= 1 && over <= |s.queue| && s'.queue == s.queue[over..] && |s'.request| == |s.request|
      && (forall k :: over <= k < |s.queue| ==>
            s'.request[s.queue[k]].bh == s.request[s.queue[k]].bh
            && s'.request[s.queue[k]].(nsector := 0, errors := 0) == s.request[s.queue[k]].(nsector := 0, errors := 0))
      && (if over == 0 then s'.done == s.done else FirstReported(s, s'))
  {
    Ready(s);
    over := |s.queue| - |Interrupted(s, ok, drq).queue|;
  }

  /** Interrupts lose no request and serve them in queue order: what has been reported followed by
      what is pending stays the same list. */
  lemma ServedInOrder(s: State, ok: bool, drq: bool)
    requires Inv(s)
    ensures s.queue != [] ==> 0 <= s.queue[0] < |s.request| && s.request[s.queue[0]].nsector > 0
    ensures |s.queue| > 1 ==> 0 <= s.queue[1] < |s.request|
    ensures Inv(Interrupted(s, ok, drq))
    ensures var s' := Interrupted(s, ok, drq); Reported(s') + Pending(s') == Reported(s) + Pending(s)
  {
    var over := QueueAfterInterrupt(s, ok, drq);
    InterruptedStep(s, ok, drq);
    SameList(s, Interrupted(s, ok, drq), over);
  }

  lemma SameList(s: State, s': State, over: nat)
    requires forall k :: 0 <= k < |s.queue| ==> 0 <= s.queue[k] < |s.request|
    requires over <= 1 && over <= |s.queue| && s'.queue == s.queue[over..] && |s'.request| == |s.request|
    requires forall k :: over <= k < |s.queue| ==> s'.request[s.queue[k]].bh == s.request[s.queue[k]].bh
    requires if over == 0 then s'.done == s.done else FirstReported(s, s')
    requires forall k :: 0 <= k < |s'.queue| ==> 0 <= s'.queue[k] < |s'.request|
    ensures Reported(s') + Pending(s') == Reported(s) + Pending(s)
  {
    if over == 0 {
      PendingSame(s, s');
    } else {
      PendingTail(s, s');
      ReportedMore(s, s');
      Assoc(Reported(s), [s.request[s.queue[0]].bh], Pending(s'));
    }
  }

  lemma Assoc<T>(a: seq<T>, b: seq<T>, c: seq<T>)
    ensures (a + b) + c == a + (b + c)
  {
  }

  lemma PendingSame(s: State, s': State)
    requires forall k :: 0 <= k < |s.queue| ==> 0 <= s.queue[k] < |s.request|
    requires s'.queue == s.queue && |s'.request| == |s.request| && s'.done == s.done
    requires forall k :: 0 <= k < |s.queue| ==> s'.request[s.queue[k]].bh == s.request[s.queue[k]].bh
    ensures Pending(s') == Pending(s) && Reported(s') == Reported(s)
  {
  }

  lemma PendingTail(s: State, s': State)
    requires forall k :: 0 <= k < |s.queue| ==> 0 <= s.queue[k] < |s.request|
    requires s.queue != [] && s'.queue == s.queue[1..] && |s'.request| == |s.request|
    requires forall k :: 1 <= k < |s.queue| ==> s'.request[s.queue[k]].bh == s.request[s.queue[k]].bh
    ensures forall k :: 0 <= k < |s'.queue| ==> 0 <= s'.queue[k] < |s'.request|
    ensures Pending(s) == [s.request[s.queue[0]].bh] + Pending(s')
  {
    forall k | 0 <= k < |s'.queue| ensures 0 <= s'.queue[k] < |s'.request| {
      assert s'.queue[k] == s.queue[k + 1];
    }
    var a, t := Pending(s), Pending(s');
    forall k | 0 <= k < |t| ensures t[k] == a[k + 1] {
      assert s'.queue[k] == s.queue[k + 1];
    }
    HeadAndTail(a, t);
  }

  lemma HeadAndTail(a: seq<int>, t: seq<int>)
    requires |a| == |t| + 1 && forall k :: 0 <= k < |t| ==> t[k] == a[k + 1]
    ensures a == [a[0]] + t
  {
  }

  lemma ReportedMore(s: State, s': State)
    requires |s'.done| == |s.done| + 1 && s'.done[..|s.done|] == s.done
    ensures Reported(s') == Reported(s) + [s'.done[|s.done|].bh]
  {
    assert forall k :: 0 <= k < |s.done| ==> s'.done[k] == s'.done[..|s.done|][k];
  }

  /** add_request adds one request, behind at least the first two. */
  lemma AddedOnce(s: State, i: int, r: Slot, drq: bool)
    requires Inv(s) && New(s, i, r) && Located(s.request, s.queue)
    ensures var s', n := Added(s, i, r, drq), Place(Positions(s.request, s.queue), Where(r));
      && Pending(s') == Insert(Pending(s), n, r.bh) && Reported(s') == Reported(s)
      && Located(s'.request, s'.queue)
      && Positions(s'.request, s'.queue) == Insert(Positions(s.request, s.queue), n, Where(r))
      && (|s.queue| >= 1 ==> s'.queue[0] == s.queue[0]) && (|s.queue| >= 2 ==> s'.queue[1] == s.queue[1])
  {
    var s', n := Added(s, i, r, drq), Place(Positions(s.request, s.queue), Where(r));
    LinkedEntries(s, i, r, n);
    OneInserted(s, s', i, n);
    FrontStays(s.queue, n, i);
  }

  /** Linking a request in touches no place and no buffer of the others. */
  lemma LinkedEntries(s: State, i: int, r: Slot, n: nat)
    requires Inv(s) && New(s, i, r) && n <= |s.queue| && Located(s.request, s.queue)
    ensures var s' := Linked(s, i, r, n);
      && |s'.request| == |s.request| && s'.queue == Insert(s.queue, n, i) && s'.done == s.done
      && s'.request[i].hd >= 0 && s'.request[i].bh == r.bh && Where(s'.request[i]) == Where(r)
      && forall k :: 0 <= k < |s.queue| ==> SamePlace(s.request[s.queue[k]], s'.request[s.queue[k]])
  {
    forall k | 0 <= k < |s.queue| ensures s.queue[k] != i {
      assert Queued(s, k);
    }
  }

  lemma FrontStays(q: seq<int>, n: nat, x: int)
    requires n <= |q|
    ensures 1 <= n ==> Insert(q, n, x)[0] == q[0]
    ensures 2 <= n ==> Insert(q, n, x)[1] == q[1]
  {
  }

  lemma OneInserted(s: State, s': State, i: int, n: nat)
    requires Located(s.request, s.queue) && n <= |s.queue| && s'.queue == Insert(s.queue, n, i)
    requires |s'.request| == |s.request| && 0 <= i < |s.request| && s'.request[i].hd >= 0 && s'.done == s.done
    requires forall k :: 0 <= k < |s.queue| ==> SamePlace(s.request[s.queue[k]], s'.request[s.queue[k]])
    ensures Located(s'.request, s'.queue)
    ensures Pending(s') == Insert(Pending(s), n, s'.request[i].bh) && Reported(s') == Reported(s)
    ensures Positions(s'.request, s'.queue) == Insert(Positions(s.request, s.queue), n, Where(s'.request[i]))
  {
    InsertedEntries(s, s', i, n);
    PendingInserted(s, s', i, n);
    PositionsInserted(s, s', i, n);
  }

  /** Entry k of the new queue was entry k or k - 1 of the old one, with the same place and buffer. */
  ghost predicate EntryKept(s: State, s': State, n: nat, k: nat)
    requires |s'.queue| == |s.queue| + 1 && n <= |s.queue| && k < |s'.queue| && k != n
  {
    var x := s.queue[if k < n then k else k - 1];
    s'.queue[k] == x && 0 <= x < |s.request| == |s'.request| && s.request[x].hd >= 0
    && SamePlace(s.request[x], s'.request[x])
  }

  ghost predicate EntriesKept(s: State, s': State, i: int, n: nat) {
    && |s'.queue| == |s.queue| + 1 && n <= |s.queue| && s'.queue[n] == i && s'.done == s.done
    && 0 <= i < |s'.request| && s'.request[i].hd >= 0
    && (forall k: nat :: k < |s'.queue| && k != n ==> EntryKept(s, s', n, k))
  }

  lemma InsertedEntries(s: State, s': State, i: int, n: nat)
    requires Located(s.request, s.queue) && n <= |s.queue| && s'.queue == Insert(s.queue, n, i)
    requires |s'.request| == |s.request| && 0 <= i < |s.request| && s'.request[i].hd >= 0 && s'.done == s.done
    requires forall k :: 0 <= k < |s.queue| ==> SamePlace(s.request[s.queue[k]], s'.request[s.queue[k]])
    ensures EntriesKept(s, s', i, n) && Located(s'.request, s'.queue)
  {
    forall k: nat | k < |s'.queue| && k != n ensures EntryKept(s, s', n, k) {
      var l := if k < n then k else k - 1;
      assert s'.queue[k] == s.queue[l];
    }
    forall k: nat | k < |s'.queue| ensures 0 <= s'.queue[k] < |s'.request| && s'.request[s'.queue[k]].hd >= 0 {
      if k != n { assert EntryKept(s, s', n, k); }
    }
  }

  lemma PendingInserted(s: State, s': State, i: int, n: nat)
    requires Located(s.request, s.queue) && Located(s'.request, s'.queue) && EntriesKept(s, s', i, n)
    ensures Pending(s') == Insert(Pending(s), n, s'.request[i].bh) && Reported(s') == Reported(s)
  {
    var a, b := Pending(s), Pending(s');
    forall k: nat | k < |b| && k != n ensures b[k] == a[if k < n then k else k - 1] {
      assert EntryKept(s, s', n, k);
    }
    InsertIs(a, b, n, s'.request[i].bh);
  }

  lemma PositionsInserted(s: State, s': State, i: int, n: nat)
    requires Located(s.request, s.queue) && Located(s'.request, s'.queue) && EntriesKept(s, s', i, n)
    ensures Positions(s'.request, s'.queue) == Insert(Positions(s.request, s.queue), n, Where(s'.request[i]))
  {
    var a, b := Positions(s.request, s.queue), Positions(s'.request, s'.queue);
    forall k: nat | k < |b| && k != n ensures b[k] == a[if k < n then k else k - 1] {
      assert EntryKept(s, s', n, k);
    }
    InsertIs(a, b, n, Where(s'.request[i]));
  }

  lemma InsertIs<T>(a: seq<T>, b: seq<T>, n: nat, x: T)
    requires n <= |a| && |b| == |a| + 1 && b[n] == x
    requires forall k :: 0 <= k < n ==> b[k] == a[k]
    requires forall k :: n < k < |b| ==> b[k] == a[k - 1]
    ensures b == Insert(a, n, x)
  {
  }

  ghost predicate SamePlace(a: Slot, b: Slot) {
    a.hd == b.hd && a.cyl == b.cyl && a.head == b.head && a.sector == b.sector && a.bh == b.bh
  }

  // ---------------------------------------------------------------- progress

  /** Interrupts that the requests in the queue may still take when DRQ is always raised: each sector
      may fail MAX_ERRORS times, with a reset after every failure, before it is read or given up. */
  ghost function Cost(s: State): nat
    requires Inv(s)
  {
    Ready(s);
    (if s.queue == [] then 0
     else
       assert Queued(s, 0);
       26 * (|s.queue| - 1) + 13 * s.request[s.queue[0]].nsector - 2 * s.request[s.queue[0]].errors)
    + (if s.handler == DoRequest then 1 else 0)
  }

  lemma InterruptCosts(s: State, ok: bool)
    requires Inv(s) && s.handler != Nothing
    ensures s.queue != [] ==> 0 <= s.queue[0] < |s.request| && s.request[s.queue[0]].nsector > 0
    ensures |s.queue| > 1 ==> 0 <= s.queue[1] < |s.request|
    ensures Inv(Interrupted(s, ok, true)) && Cost(Interrupted(s, ok, true)) < Cost(s)
  {
    InterruptedStep(s, ok, true);
    if s.queue != [] { assert Queued(s, 0); }
    if |s.queue| > 1 { assert Queued(s, 1); }
  }

  lemma AddCosts(s: State, i: int, r: Slot)
    requires Inv(s) && New(s, i, r)
    ensures Cost(Added(s, i, r, true)) == Cost(s) + 26
  {
    InvLocates(s);
    AddedOnce(s, i, r, true);
    forall k | 0 <= k < |s.queue| ensures s.queue[k] != i {
      assert Queued(s, k);
    }
  }

  /** Nothing is left to do exactly when no interrupt is expected. */
  lemma IdleIsFree(s: State)
    requires Inv(s)
    ensures Cost(s) == 0 <==> s.handler == Nothing
    ensures s.handler == Nothing ==> s.queue == []
  {
    if s.queue != [] { assert Queued(s, 0); }
  }

  // ---------------------------------------------------------------- runs

  datatype Event = Irq(ok: bool, drq: bool) | Submit(i: int, r: Slot, drq: bool)

  ghost function AfterIrq(s: State, ok: bool, drq: bool): (s': State)
    requires Inv(s)
    ensures Inv(s')
  {
    InterruptedStep(s, ok, drq);
    Interrupted(s, ok, drq)
  }

  ghost predicate Moves(s: State, e: Event, s': State)
    requires Inv(s)
  {
    match e
    case Irq(ok, drq) => s.handler != Nothing && s' == AfterIrq(s, ok, drq)
    case Submit(i, r, drq) => New(s, i, r) && s' == Added(s, i, r, drq)
  }

  /** ss[k + 1] comes from ss[k] by es[k].  Nothing is said of a step from a state without the invariant. */
  ghost predicate IsRun(ss: seq<State>, es: seq<Event>) {
    && |ss| == |es| + 1
    && forall k {:trigger es[k]} :: 0 <= k < |es| && Inv(ss[k]) ==> Moves(ss[k], es[k], ss[k + 1])
  }

  function Irqs(es: seq<Event>, n: nat): nat
    requires n <= |es|
  {
    if n == 0 then 0 else Irqs(es, n - 1) + (if es[n - 1].Irq? then 1 else 0)
  }

  function Submits(es: seq<Event>, n: nat): nat
    requires n <= |es|
  {
    if n == 0 then 0 else Submits(es, n - 1) + (if es[n - 1].Submit? then 1 else 0)
  }

  lemma StepCosts(s: State, e: Event, s': State)
    requires Inv(s) && Moves(s, e, s') && Inv(s') && e.drq
    ensures if e.Irq? then Cost(s') < Cost(s) else Cost(s') == Cost(s) + 26
  {
    match e
    case Irq(ok, _) => InterruptCosts(s, ok);
    case Submit(i, r, _) => AddCosts(s, i, r);
  }

  lemma InvAfter(s: State, e: Event, s': State)
    requires Inv(s) && Moves(s, e, s')
    ensures Inv(s')
  {
  }

  /** The invariant holds all along a run that starts with it. */
  lemma {:induction false} InvAlways(ss: seq<State>, es: seq<Event>, n: nat)
    requires IsRun(ss, es) && n < |ss| && Inv(ss[0])
    ensures Inv(ss[n])
  {
    if n > 0 {
      InvAlways(ss, es, n - 1);
      InvAfter(ss[n - 1], es[n - 1], ss[n]);
    }
  }

  lemma {:induction false} Telescope(costs: seq<nat>, es: seq<Event>, n: nat)
    requires |costs| == |es| + 1 && n <= |es|
    requires forall k {:trigger es[k]} :: 0 <= k < |es| ==>
      if es[k].Irq? then costs[k + 1] < costs[k] else costs[k + 1] == costs[k] + 26
    ensures Irqs(es, n) + costs[n] <= costs[0] + 26 * Submits(es, n)
  {
    if n > 0 {
      Telescope(costs, es, n - 1);
      assert es[n - 1].Irq? ==> costs[n] < costs[n - 1];
    }
  }

  /** However the errors fall and whenever requests arrive, a run takes at most 26 interrupts for every
      request and what was left at the start: no request is retried for ever. */
  lemma InterruptsAreBounded(ss: seq<State>, es: seq<Event>)
    requires IsRun(ss, es) && Inv(ss[0])
    requires forall k :: 0 <= k < |es| ==> es[k].drq
    ensures Inv(ss[|es|]) && Irqs(es, |es|) + Cost(ss[|es|]) <= Cost(ss[0]) + 26 * Submits(es, |es|)
  {
    forall k | 0 <= k < |ss| ensures Inv(ss[k]) {
      InvAlways(ss, es, k);
    }
    var costs := seq(|ss|, k requires 0 <= k < |ss| && Inv(ss[k]) => Cost(ss[k]));
    forall k | 0 <= k < |es|
      ensures if es[k].Irq? then costs[k + 1] < costs[k] else costs[k + 1] == costs[k] + 26
    {
      StepCosts(ss[k], es[k], ss[k + 1]);
    }
    Telescope(costs, es, |es|);
  }

  /** The buffers whose requests are in the queue or have been reported. */
  ghost function Accepted(s: State): multiset<int>
    requires Inv(s)
  {
    multiset(Reported(s)) + multiset(Pending(s))
  }

  /** The buffers that the first n events submit. */
  function Submitted(es: seq<Event>, n: nat): multiset<int>
    requires n <= |es|
  {
    if n == 0 then multiset{}
    else Submitted(es, n - 1) + (if es[n - 1].Submit? then multiset{es[n - 1].r.bh} else multiset{})
  }

  lemma InsertOnce(q: seq<int>, n: nat, x: int)
    requires n <= |q|
    ensures multiset(Insert(q, n, x)) == multiset(q) + multiset{x}
  {
    assert q == q[..n] + q[n..];
  }

  lemma IrqAccepts(s: State, ok: bool, drq: bool)
    requires Inv(s)
    ensures Accepted(AfterIrq(s, ok, drq)) == Accepted(s)
  {
    ServedInOrder(s, ok, drq);
    var s' := AfterIrq(s, ok, drq);
    assert multiset(Reported(s') + Pending(s')) == multiset(Reported(s) + Pending(s));
  }

  lemma IrqReports(s: State, ok: bool, drq: bool)
    requires Inv(s)
    ensures Reported(s) <= Reported(AfterIrq(s, ok, drq))
  {
    var s' := AfterIrq(s, ok, drq);
    var over := QueueAfterInterrupt(s, ok, drq);
    if over == 1 { ReportedMore(s, s'); }
  }

  lemma SubmitAccepts(s: State, i: int, r: Slot, drq: bool)
    requires Inv(s) && New(s, i, r)
    ensures Accepted(Added(s, i, r, drq)) == Accepted(s) + multiset{r.bh}
    ensures Reported(Added(s, i, r, drq)) == Reported(s)
  {
    InvLocates(s);
    AddedOnce(s, i, r, drq);
    var s', n := Added(s, i, r, drq), Place(Positions(s.request, s.queue), Where(r));
    InsertOnce(Pending(s), n, r.bh);
    assert multiset(Pending(s')) == multiset(Pending(s)) + multiset{r.bh};
  }

  lemma StepAccepts(s: State, e: Event, s': State)
    requires Inv(s) && Moves(s, e, s') && Inv(s')
    ensures Accepted(s') == Accepted(s) + (if e.Submit? then multiset{e.r.bh} else multiset{})
    ensures Reported(s) <= Reported(s')
  {
    match e
    case Irq(ok, drq) =>
      IrqAccepts(s, ok, drq);
      IrqReports(s, ok, drq);
    case Submit(i, r, drq) =>
      SubmitAccepts(s, i, r, drq);
  }

  ghost predicate Kept(s0: State, s: State, more: multiset<int>)
    requires Inv(s0)
  {
    Inv(s) && Accepted(s) == Accepted(s0) + more && Reported(s0) <= Reported(s)
  }

  lemma KeptStep(s0: State, s: State, e: Event, s': State, more: multiset<int>)
    requires Inv(s0) && Kept(s0, s, more) && Moves(s, e, s')
    ensures Kept(s0, s', more + (if e.Submit? then multiset{e.r.bh} else multiset{}))
  {
    InvAfter(s, e, s');
    StepAccepts(s, e, s');
    var one := if e.Submit? then multiset{e.r.bh} else multiset{};
    Regrouped(Accepted(s0), more, one);
    StillPrefix(Reported(s0), Reported(s), Reported(s'));
  }

  lemma Regrouped(a: multiset<int>, b: multiset<int>, c: multiset<int>)
    ensures (a + b) + c == a + (b + c)
  {
  }

  lemma StillPrefix(a: seq<int>, b: seq<int>, c: seq<int>)
    requires a <= b <= c
    ensures a <= c
  {
  }

  lemma {:induction false} RequestsAreKept(ss: seq<State>, es: seq<Event>, n: nat)
    requires IsRun(ss, es) && n <= |es| && Inv(ss[0])
    ensures Kept(ss[0], ss[n], Submitted(es, n))
  {
    if n > 0 {
      RequestsAreKept(ss, es, n - 1);
      KeptStep(ss[0], ss[n - 1], es[n - 1], ss[n], Submitted(es, n - 1));
    }
  }

  /** The requests that were queued or added are, one by one, those that are pending or have been
      reported; no report is taken back; and once no interrupt is expected any more, every request that
      was ever accepted has been reported. */
  lemma EveryRequestEnds(ss: seq<State>, es: seq<Event>)
    requires IsRun(ss, es) && Inv(ss[0])
    ensures var s := ss[|es|];
      && Inv(s) && Accepted(s) == Accepted(ss[0]) + Submitted(es, |es|)
      && Reported(ss[0]) <= Reported(s)
      && (s.handler == Nothing ==> multiset(Reported(s)) == Accepted(ss[0]) + Submitted(es, |es|))
  {
    RequestsAreKept(ss, es, |es|);
    IdleIsFree(ss[|es|]);
  }

  // ---------------------------------------------------------------- what is reported of a request

  /** A request that has reached the controller: an interrupt ends one of its sectors. */
  ghost predicate Transferring(s: State) { s.handler == ReadIntr || s.handler == WriteIntr }

  /** What an interrupt does to the current request, in numbers: a sector is done, or the request is over and
      its buffer up to date; an error is counted, or the sixth in a row ends the request, the buffer not up to date. */
  ghost predicate Answered(s: State, s': State, ok: bool)
    requires s.queue != [] && 0 <= s.queue[0] < |s.request|
  {
    var i, r := s.queue[0], s.request[s.queue[0]];
    && |s'.request| == |s.request| && s'.request[i].bh == r.bh
    && (forall k :: 0 <= k < |s.request| && k != i ==> s'.request[k] == s.request[k])
    && (if ok && r.nsector == 2 then
          s'.queue == s.queue && s'.done == s.done && s'.handler == s.handler
          && s'.request[i] == r.(nsector := 1, errors := if r.cmd == Read then 0 else r.errors)
        else if ok then
          s'.queue == s.queue[1..] && s'.done == s.done + [Done(r.bh, true)] && s'.request[i].hd == -1
        else if r.errors < 5 then
          s'.queue == s.queue && s'.done == s.done && s'.handler == DoRequest
          && s'.request[i] == r.(errors := r.errors + 1)
        else
          s'.queue == s.queue[1..] && s'.done == s.done + [Done(r.bh, false)] && s'.request[i].hd == -1
          && s'.handler == DoRequest)
  }

  lemma FailureIs(s: State)
    requires Inv(s) && s.queue != []
    ensures 0 <= s.queue[0] < |s.request| && Answered(s, Failed(s), false)
  {
    Ready(s);
  }

  lemma InterruptIs(s: State, ok: bool, drq: bool)
    requires Inv(s) && Transferring(s)
    ensures s.queue != [] && 0 <= s.queue[0] < |s.request| && Answered(s, AfterIrq(s, ok, drq), ok)
  {
    Ready(s);
    assert Queued(s, 0);
  }

  /** do_request sends the command of the current request and waits for its interrupt; a write that the controller
      does not take is sent again after a reset. */
  lemma RequestSent(s: State, ok: bool, drq: bool)
    requires Inv(s) && (s.handler == DoRequest || (Transferring(s) && ok && s.request[s.queue[0]].nsector == 1))
    ensures var s' := AfterIrq(s, ok, drq);
      && (s.handler == DoRequest ==> s'.queue == s.queue && s'.request == s.request && s'.done == s.done)
      && (forall k :: 0 <= k < |s'.queue| ==> 0 <= s'.queue[k] < |s'.request|)
      && (s'.queue == [] ==> s'.handler == Nothing)
      && (s'.queue != [] && s'.request[s'.queue[0]].cmd == Read ==> s'.handler == ReadIntr)
      && (s'.queue != [] && s'.request[s'.queue[0]].cmd == Write ==> s'.handler == if drq then WriteIntr else DoRequest)
  {
    Ready(s);
    if s.queue != [] { assert Queued(s, 0); }
    if |s.queue| > 1 { assert Queued(s, 1) && s.queue[1] != s.queue[0]; }
  }

  /** A report says of the buffer what its last interrupt said of the transfer. */
  lemma ReportIsTrue(s: State, ok: bool, drq: bool)
    requires Inv(s)
    ensures var s' := AfterIrq(s, ok, drq);
      && (s'.done == s.done || (s.queue != [] && 0 <= s.queue[0] < |s.request|
                                && s'.done == s.done + [Done(s.request[s.queue[0]].bh, ok)]))
  {
    if Transferring(s) { InterruptIs(s, ok, drq); }
  }

  lemma LinkedKeeps(s: State, i: int, r: Slot, n: nat, k: nat)
    requires New(s, i, r) && n <= |s.queue| && forall k :: 0 <= k < |s.queue| ==> 0 <= s.queue[k] < |s.request|
    requires k < |s.request|
    ensures |Linked(s, i, r, n).request| == |s.request|
    ensures Linked(s, i, r, n).request[k].(next := NULL) == (if k == i then r else s.request[k]).(next := NULL)
  {
  }

  /** Adding a request reports nothing and changes no request but for the links. */
  lemma AddedKeeps(s: State, i: int, r: Slot, drq: bool)
    requires Inv(s) && New(s, i, r)
    ensures var s' := Added(s, i, r, drq);
      && s'.done == s.done && |s'.request| == |s.request| && s'.request[i].(next := NULL) == r
      && (forall k :: 0 <= k < |s.request| && k != i ==> s'.request[k].(next := NULL) == s.request[k].(next := NULL))
      && s'.queue != [] && s'.queue[0] == if s.queue == [] then i else s.queue[0]
  {
    InvLocates(s);
    AddedOnce(s, i, r, drq);
    var n := Place(Positions(s.request, s.queue), Where(r));
    forall k: nat | k < |s.request|
      ensures Linked(s, i, r, n).request[k].(next := NULL) == (if k == i then r else s.request[k]).(next := NULL)
    {
      LinkedKeeps(s, i, r, n, k);
    }
  }

  /** An interrupt that reports an error for the j-th report to come. */
  ghost predicate FailsAt(s: State, e: Event, j: nat) { e.Irq? && !e.ok && Transferring(s) && |s.done| == j }

  /** How many of the first n interrupts were errors of the request that is reported j-th. */
  ghost function Failures(ss: seq<State>, es: seq<Event>, n: nat, j: nat): nat
    requires n <= |es| && |ss| == |es| + 1
  {
    if n == 0 then 0 else Failures(ss, es, n - 1, j) + (if FailsAt(ss[n - 1], es[n - 1], j) then 1 else 0)
  }

  /** Errors that the current request has counted. */
  ghost function Errors(s: State): nat {
    if s.queue != [] && 0 <= s.queue[0] < |s.request| then s.request[s.queue[0]].errors else 0
  }

  /** Errors that it had counted before the run began. */
  ghost function Before(s: State, j: nat): nat { if |s.done| == j then Errors(s) else 0 }

  /** One step counts no more errors than it makes, and reports a failure only after six. */
  lemma StepErrors(s: State, e: Event, s': State)
    requires Inv(s) && Moves(s, e, s')
    ensures |s'.done| == |s.done| ==> Errors(s') <= Errors(s) + (if FailsAt(s, e, |s.done|) then 1 else 0)
    ensures |s'.done| != |s.done| ==> |s'.done| == |s.done| + 1 && Errors(s') == 0 && e.Irq?
    ensures |s'.done| != |s.done| ==> s'.done == s.done + [Done(s'.done[|s.done|].bh, e.ok)]
    ensures |s'.done| != |s.done| && !e.ok ==> Errors(s) == 5 && FailsAt(s, e, |s.done|)
  {
    match e
    case Irq(ok, drq) =>
      ReportIsTrue(s, ok, drq);
      if Transferring(s) {
        InterruptIs(s, ok, drq);
        if |s.queue| > 1 { assert Queued(s, 1) && s.queue[1] != s.queue[0]; }
        assert Queued(s, 0);
      }
    case Submit(i, r, drq) =>
      AddedKeeps(s, i, r, drq);
      if s.queue != [] { assert Queued(s, 0); }
  }

  lemma {:induction false} ErrorsAreFailures(ss: seq<State>, es: seq<Event>, n: nat)
    requires IsRun(ss, es) && n <= |es| && Inv(ss[0])
    ensures Inv(ss[n]) && |ss[0].done| <= |ss[n].done|
    ensures Errors(ss[n]) <= Failures(ss, es, n, |ss[n].done|) + Before(ss[0], |ss[n].done|)
  {
    if n > 0 {
      ErrorsAreFailures(ss, es, n - 1);
      InvAfter(ss[n - 1], es[n - 1], ss[n]);
      StepErrors(ss[n - 1], es[n - 1], ss[n]);
    }
  }

  /** Step k makes report j, and what it says of the buffer is what the interrupt said of the transfer; if that
      failed, there were six failures since the request began. */
  ghost predicate ReportedBy(ss: seq<State>, es: seq<Event>, k: nat, j: nat, d: Done)
    requires |ss| == |es| + 1
  {
    && k < |es| && es[k].Irq? && |ss[k].done| == j && ss[k + 1].done == ss[k].done + [d]
    && d.uptodate == es[k].ok
    && (!d.uptodate ==> Failures(ss, es, k + 1, j) + Before(ss[0], j) >= 6)
  }

  /** Over every run a buffer is reported up to date exactly when the interrupt that ended its request found
      no error, and not up to date only after six errors. */
  lemma {:induction false} ReportsAreTrue(ss: seq<State>, es: seq<Event>, n: nat, j: nat)
    requires IsRun(ss, es) && n <= |es| && Inv(ss[0]) && |ss[0].done| <= j < |ss[n].done|
    ensures exists k: nat :: k < n && ReportedBy(ss, es, k, j, ss[n].done[j])
  {
    ErrorsAreFailures(ss, es, n - 1);
    StepErrors(ss[n - 1], es[n - 1], ss[n]);
    if j < |ss[n - 1].done| {
      ReportsAreTrue(ss, es, n - 1, j);
      DoneStays(ss[n - 1], es[n - 1], ss[n]);
      var k: nat :| k < n - 1 && ReportedBy(ss, es, k, j, ss[n - 1].done[j]);
      assert ReportedBy(ss, es, k, j, ss[n].done[j]);
    } else {
      assert ReportedBy(ss, es, n - 1, j, ss[n].done[j]);
    }
  }

  lemma DoneStays(s: State, e: Event, s': State)
    requires Inv(s) && Moves(s, e, s')
    ensures s.done <= s'.done
  {
    match e
    case Irq(ok, drq) => ReportIsTrue(s, ok, drq);
    case Submit(i, r, drq) => AddedKeeps(s, i, r, drq);
  }

  /** Requests for different places, at most two sweeps behind the current one. */
  ghost predicate TwoSweeps(s: State)
    requires Inv(s)
  {
    InvLocates(s);
    var p := Positions(s.request, s.queue);
    DiskOrder.Distinct(p) && (p != [] ==> Descents(p[1..]) <= 1)
  }

  ghost predicate NewPlace(s: State, e: Event)
    requires Inv(s)
  {
    InvLocates(s);
    e.Submit? && e.r.hd >= 0 ==> Where(e.r) !in Positions(s.request, s.queue)
  }

  lemma InsertDistinct(p: seq<Position>, n: nat, r: Position)
    requires DiskOrder.Distinct(p) && r !in p && n <= |p|
    ensures DiskOrder.Distinct(Insert(p, n, r))
  {
  }

  lemma PositionsAfterIrq(s: State, ok: bool, drq: bool) returns (over: nat)
    requires Inv(s) && Located(s.request, s.queue)
    ensures over <= 1 && over <= |s.queue| && Located(AfterIrq(s, ok, drq).request, AfterIrq(s, ok, drq).queue)
    ensures Positions(AfterIrq(s, ok, drq).request, AfterIrq(s, ok, drq).queue) == Positions(s.request, s.queue)[over..]
  {
    var s' := AfterIrq(s, ok, drq);
    over := QueueAfterInterrupt(s, ok, drq);
    PositionsTail(s, s', over);
  }

  lemma PositionsTail(s: State, s': State, over: nat)
    requires Located(s.request, s.queue) && over <= |s.queue|
    requires s'.queue == s.queue[over..] && |s'.request| == |s.request|
    requires forall k :: over <= k < |s.queue| ==>
      s'.request[s.queue[k]].(nsector := 0, errors := 0) == s.request[s.queue[k]].(nsector := 0, errors := 0)
    ensures Located(s'.request, s'.queue)
    ensures Positions(s'.request, s'.queue) == Positions(s.request, s.queue)[over..]
  {
    forall k | 0 <= k < |s'.queue|
      ensures 0 <= s'.queue[k] < |s'.request| && s'.request[s'.queue[k]].hd >= 0
      ensures Where(s'.request[s'.queue[k]]) == Positions(s.request, s.queue)[over + k]
    {
      assert s'.queue[k] == s.queue[over + k];
    }
  }

  lemma SuffixSweeps(p: seq<Position>)
    requires |p| > 0 && DiskOrder.Distinct(p) && Descents(p[1..]) <= 1
    ensures DiskOrder.Distinct(p[1..]) && (|p| > 1 ==> Descents(p[1..][1..]) <= 1)
  {
    if |p| > 1 { Joined(p[1..]); }
  }

  lemma Joined(p: seq<Position>)
    requires |p| > 0
    ensures Descents(p[1..]) <= Descents(p)
  {
    if |p| > 1 { DescentsSplit(p, 1); }
  }

  lemma SweepsAfterIrq(s: State, ok: bool, drq: bool)
    requires Inv(s) && TwoSweeps(s)
    ensures TwoSweeps(AfterIrq(s, ok, drq))
  {
    InvLocates(s);
    var over := PositionsAfterIrq(s, ok, drq);
    var p := Positions(s.request, s.queue);
    assert p[0..] == p;
    if over == 1 { SuffixSweeps(p); }
  }

  lemma SweepsAfterAdd(s: State, i: int, r: Slot, drq: bool)
    requires Inv(s) && TwoSweeps(s) && New(s, i, r) && NewPlace(s, Submit(i, r, drq))
    ensures TwoSweeps(Added(s, i, r, drq))
  {
    InvLocates(s);
    AddedOnce(s, i, r, drq);
    var p := Positions(s.request, s.queue);
    TwoSweepsKept(p, Where(r));
    InsertDistinct(p, Place(p, Where(r)), Where(r));
  }

  lemma SweepsStep(s: State, e: Event, s': State)
    requires Inv(s) && Moves(s, e, s') && Inv(s') && TwoSweeps(s) && NewPlace(s, e)
    ensures TwoSweeps(s')
  {
    match e
    case Irq(ok, drq) => SweepsAfterIrq(s, ok, drq);
    case Submit(i, r, drq) => SweepsAfterAdd(s, i, r, drq);
  }

  ghost predicate Calm(s: State) { Inv(s) && TwoSweeps(s) }

  lemma CalmStep(s: State, e: Event, s': State)
    requires Calm(s) && Moves(s, e, s') && NewPlace(s, e)
    ensures Calm(s')
  {
    InvAfter(s, e, s');
    SweepsStep(s, e, s');
  }

  /** As long as requests are for different places, the disk never has more than two sweeps before it
      behind the current request. */
  lemma {:induction false} AlwaysTwoSweeps(ss: seq<State>, es: seq<Event>, n: nat)
    requires IsRun(ss, es) && n <= |es| && Inv(ss[0]) && TwoSweeps(ss[0])
    requires forall k {:trigger es[k]} :: 0 <= k < |es| && Inv(ss[k]) ==> NewPlace(ss[k], es[k])
    ensures Inv(ss[n]) && TwoSweeps(ss[n])
  {
    if n > 0 {
      AlwaysTwoSweeps(ss, es, n - 1);
      assert Moves(ss[n - 1], es[n - 1], ss[n]) && NewPlace(ss[n - 1], es[n - 1]);
      CalmStep(ss[n - 1], es[n - 1], ss[n]);
    }
  }

  // ---------------------------------------------------------------- a third sweep is reached

  /** A fresh read request for a place. */
  function ReadAt(p: Position, bh: int): Slot { Slot(p.hd, 2, p.sector, p.head, p.cyl, Read, 0, bh, NULL) }

  ghost predicate Holds(s: State, p: seq<Position>) {
    Inv(s) && Located(s.request, s.queue) && Positions(s.request, s.queue) == p
  }

  /** The first n slots are the ones in use. */
  ghost predicate Filled(s: State, n: nat) {
    n <= |s.request| && forall i :: n <= i < |s.request| ==> s.request[i].hd < 0
  }

  lemma SubmitNext(s: State, p: seq<Position>, n: nat, r: Position, bh: int, drq: bool)
    requires Holds(s, p) && Filled(s, n) && n < |s.request| && r.hd < 2 && r.head <= 15
    ensures New(s, n, ReadAt(r, bh))
    ensures Moves(s, Submit(n, ReadAt(r, bh), drq), Added(s, n, ReadAt(r, bh), drq))
    ensures Holds(Added(s, n, ReadAt(r, bh), drq), Insert(p, Place(p, r), r))
    ensures Filled(Added(s, n, ReadAt(r, bh), drq), n + 1)
    ensures |Added(s, n, ReadAt(r, bh), drq).request| == |s.request|
  {
    var s' := Added(s, n, ReadAt(r, bh), drq);
    AddedOnce(s, n, ReadAt(r, bh), drq);
    InsertMembers(s.queue, Place(p, r), n);
    forall i | n + 1 <= i < |s.request| ensures s'.request[i].hd < 0 {
      assert Taken(s, i) && Taken(s', i);
    }
  }

  /** A run followed by one more event. */
  lemma RunGrows(ss: seq<State>, es: seq<Event>, e: Event, s': State)
    requires IsRun(ss, es) && Inv(ss[|es|]) && Moves(ss[|es|], e, s')
    ensures IsRun(ss + [s'], es + [e])
  {
    forall k | 0 <= k < |es + [e]| && Inv((ss + [s'])[k])
      ensures Moves((ss + [s'])[k], (es + [e])[k], (ss + [s'])[k + 1])
    {
      if k < |es| { assert Moves(ss[k], es[k], ss[k + 1]); }
    }
  }

  /** Requests for the cylinders `at`, in slots 0 and up, one after the other, each with its own buffer. */
  function Submission(at: seq<nat>, bhs: seq<int>): (es: seq<Event>)
    requires |bhs| == |at|
    ensures |es| == |at|
  {
    seq(|at|, k requires 0 <= k < |at| => Submit(k, ReadAt(AtCylinder(at[k]), bhs[k]), true))
  }

  /** The queue that they make. */
  function Entered(at: seq<nat>): seq<Position> {
    if at == [] then []
    else
      var p, r := Entered(at[..|at| - 1]), AtCylinder(at[|at| - 1]);
      Insert(p, Place(p, r), r)
  }

  /** One more request for cylinder c at the end of such a run. */
  lemma SubmitOne(ss: seq<State>, at: seq<nat>, bhs: seq<int>, c: nat, bh: int) returns (s': State)
    requires |bhs| == |at| && IsRun(ss, Submission(at, bhs)) && |at| < |ss[|at|].request|
    requires Holds(ss[|at|], Entered(at)) && Filled(ss[|at|], |at|)
    ensures IsRun(ss + [s'], Submission(at + [c], bhs + [bh])) && |s'.request| == |ss[|at|].request|
    ensures Holds(s', Entered(at + [c])) && Filled(s', |at| + 1)
  {
    var n := |at|;
    assert (at + [c])[..n] == at;
    SubmitNext(ss[n], Entered(at), n, AtCylinder(c), bh, true);
    var e := Submit(n, ReadAt(AtCylinder(c), bh), true);
    s' := Added(ss[n], n, ReadAt(AtCylinder(c), bh), true);
    RunGrows(ss, Submission(at, bhs), e, s');
    assert Submission(at, bhs) + [e] == Submission(at + [c], bhs + [bh]);
  }

  lemma {:induction false} SubmitAll(s: State, at: seq<nat>, bhs: seq<int>) returns (ss: seq<State>)
    requires Inv(s) && s.queue == [] && Filled(s, 0) && |at| <= |s.request| && |bhs| == |at|
    ensures IsRun(ss, Submission(at, bhs)) && ss[0] == s && |ss[|at|].request| == |s.request|
    ensures Holds(ss[|at|], Entered(at)) && Filled(ss[|at|], |at|)
  {
    if at == [] {
      ss := [s];
    } else {
      var n := |at| - 1;
      ss := SubmitAll(s, at[..n], bhs[..n]);
      assert at[..n] + [at[n]] == at && bhs[..n] + [bhs[n]] == bhs;
      var s' := SubmitOne(ss, at[..n], bhs[..n], at[n], bhs[n]);
      ss := ss + [s'];
    }
  }

  lemma CrowdedSweeps(s: State)
    requires Holds(s, Crowded())
    ensures TwoSweeps(s)
  {
    SamePlaceCostsASweep();
  }

  lemma CrowdedIsEntered()
    ensures Entered([0, 5, 1, 3]) == Crowded()
    ensures Entered([0, 5, 1, 3, 1]) == Crowded() + [AtCylinder(1)]
  {
    var a, b, c, x := AtCylinder(0), AtCylinder(5), AtCylinder(1), AtCylinder(3);
    assert [0, 5, 1, 3, 1][..4] == [0, 5, 1, 3] && [0, 5, 1, 3][..3] == [0, 5, 1];
    assert [0, 5, 1][..2] == [0, 5] && [0, 5][..1] == [0] && [0][..0] == [];
    assert Entered([0]) == [a];
    assert Entered([0, 5]) == [a, b];
    assert Entered([0, 5, 1]) == [a, b, c];
    assert PlaceFrom([a, b, c], x, 2) == 2 && PlaceFrom([a, b, c], x, 1) == 2;
    SamePlaceCostsASweep();
  }

  /** On an idle disk five requests are enough: for cylinders 0, 5, 1, 3 and 1 again, with five different
      buffers, as rw_abs_hd keeps the buffer of a pending request locked.  Two buffers for one place are a block
      of a partition and the block of the whole disk that covers it, since buffers are found by minor number. */
  lemma ThirdSweepIsReached(s: State, bhs: seq<int>) returns (ss: seq<State>)
    requires Inv(s) && s.queue == [] && Filled(s, 0) && |s.request| >= 5 && |bhs| == 5 && Distinct(bhs)
    ensures IsRun(ss, Submission([0, 5, 1, 3, 1], bhs)) && ss[0] == s
    ensures Holds(ss[4], Crowded()) && TwoSweeps(ss[4])
    ensures Holds(ss[5], Crowded() + [AtCylinder(1)]) && Descents(Positions(ss[5].request, ss[5].queue)[1..]) == 2
  {
    var quiet := SubmitAll(s, [0, 5, 1, 3], bhs[..4]);
    CrowdedIsEntered();
    SamePlaceCostsASweep();
    var s5 := SubmitOne(quiet, [0, 5, 1, 3], bhs[..4], 1, bhs[4]);
    assert [0, 5, 1, 3] + [1] == [0, 5, 1, 3, 1] && bhs[..4] + [bhs[4]] == bhs;
    ss := quiet + [s5];
    assert ss[4] == quiet[4] && ss[5] == s5;
    CrowdedSweeps(ss[4]);
  }

  // ---------------------------------------------------------------- the code

  class Disk {
    const request: array<Slot>
    var current: int
    var doHd: Handler
    ghost var queue: seq<int>
    ghost var done: seq<Done>

    ghost function S(): State
      reads this, request
    {
      State(request[..], current, doHd, queue, done)
    }

    ghost predicate Valid()
      reads this, request
    {
      Inv(S())
    }

    /** hd_init */
    constructor (n: nat)
      ensures Valid() && queue == [] && doHd == Nothing && request.Length == n
    {
      request := new Slot[n](_ => Slot(-1, 0, 0, 0, 0, Read, 0, NULL, NULL));
      current, doHd, queue, done := NULL, Nothing, [], [];
    }

    /** A controller command for a drive and a head that exist: "Trying to write bad sector" cannot happen. */
    method HdOut(drive: int, head: nat, handler: Handler)
      requires 0 <= drive <= 1 && head <= 15
      modifies this`doHd
      ensures doHd == handler
    {
      doHd := handler;
    }

    /** do_request */
    method StartRequest(drq: bool)
      requires Structured(S())
      modifies this`doHd
      ensures Valid() && (queue != [] ==> 0 <= queue[0] < request.Length) && S() == Started(old(S()), drq)
    {
      ghost var s := S();
      StartedStep(s, drq);
      if current == NULL {
        doHd := Nothing;
        return;
      }
      assert Queued(s, 0);
      var r := request[current];
      if r.cmd == Write {
        HdOut(r.hd, r.head, WriteIntr);
        if !drq {
          ResetHd(r.hd);
        }
      } else {
        HdOut(r.hd, r.head, ReadIntr);
      }
    }

    method ResetHd(drive: int)
      requires 0 <= drive <= 1
      modifies this`doHd
      ensures doHd == DoRequest
    {
      HdOut(drive, 4, DoRequest);
    }

    /** The request is over: `hd = -1` and this_request moves on. */
    method Finish(uptodate: bool)
      requires queue != [] && 0 <= queue[0] < request.Length && current == queue[0]
      modifies this, request
      ensures S() == Finished(old(S()), uptodate)
    {
      ghost var s := S();
      done := done + [Done(request[current].bh, uptodate)];
      request[current] := request[current].(hd := -1);
      current := request[current].next;
      queue := queue[1..];
      assert S() == Finished(s, uptodate);
    }

    method BadRwIntr()
      requires Valid() && queue != []
      modifies this, request
      ensures Valid() && 0 <= old(queue[0]) < request.Length && S() == Failed(old(S()))
      ensures Answered(old(S()), S(), false)
    {
      ghost var s := S();
      FailureIs(s);
      assert Queued(s, 0);
      FailedStep(s);
      var i := request[current].hd;
      var errors := request[current].errors;
      request[current] := request[current].(errors := errors + 1);
      if errors >= MAX_ERRORS {
        Finish(false);
      }
      ResetHd(i);
      assert S() == Failed(s);
    }

    method Interrupt(ok: bool, drq: bool)
      requires Valid() && doHd != Nothing
      modifies this, request
      ensures Valid() && S() == AfterIrq(old(S()), ok, drq)
      ensures done == old(done) || (old(queue) != [] && 0 <= old(queue)[0] < request.Length
                                    && done == old(done) + [Done(old(request[queue[0]].bh), ok)])
    {
      ReportIsTrue(S(), ok, drq);
      if doHd == DoRequest {
        StartRequest(drq);
      } else {
        RwIntr(ok, drq);
      }
    }

    /** read_intr and write_intr */
    method RwIntr(ok: bool, drq: bool)
      requires Valid() && (doHd == ReadIntr || doHd == WriteIntr)
      modifies this, request
      ensures Valid() && S() == AfterIrq(old(S()), ok, drq)
      ensures old(queue) != [] && 0 <= old(queue)[0] < request.Length && Answered(old(S()), S(), ok)
    {
      ghost var s := S();
      InterruptedStep(s, ok, drq);
      InterruptIs(s, ok, drq);
      assert Queued(s, 0);
      if !ok {
        BadRwIntr();
        return;
      }
      var r := request[current];
      request[current] := r.(nsector := r.nsector - 1, errors := if doHd == ReadIntr then 0 else r.errors);
      if r.nsector > 1 {
        assert S() == Interrupted(s, ok, drq);
        return;
      }
      ghost var s1 := S();
      Finish(true);
      FinishedStep(s, s1, true);
      StartRequest(drq);
    }

    /** add_request for slot i, which rw_abs_hd has filled with r. */
    method AddRequest(i: int, ghost s: State, r: Slot, drq: bool)
      requires Inv(s) && New(s, i, r) && S() == s.(request := s.request[i := r])
      modifies this, request
      ensures Valid() && S() == Added(s, i, r, drq)
    {
      InvLocates(s);
      ghost var n := Place(Positions(s.request, s.queue), Where(r));
      AddedStep(s, i, r, n, drq);
      LinkIn(i, s, r, n);
      if doHd == Nothing {
        StartRequest(drq);
      }
    }

    /** The request goes behind the first n in the queue. */
    method LinkIn(i: int, ghost s: State, ghost r: Slot, ghost n: nat)
      requires Inv(s) && New(s, i, r) && S() == s.(request := s.request[i := r]) && Located(s.request, s.queue)
      requires n == Place(Positions(s.request, s.queue), Where(r)) && n <= |s.queue|
      modifies this`current, this`queue, request
      ensures S() == Linked(s, i, r, n)
    {
      assert request[..] == s.request[i := r] && queue == s.queue && current == s.current;
      assert request.Length == |request[..]| == |s.request|;
      assert current == First(s.queue) && (s.queue != [] ==> 0 <= s.queue[0] < |s.request| && Queued(s, 0));
      assert s.queue != [] ==> s.queue[0] != i;
      if current == NULL {
        current := i;
      } else if request[current].next == NULL {
        assert |s.queue| == 1;
        request[current] := request[current].(next := i);
        assert request[..] == Linked(s, i, r, n).request;
      } else {
        var tmp := FindPlace(s, i);
        assert Queued(s, n - 1);
        request[i] := request[i].(next := request[tmp].next);
        request[tmp] := request[tmp].(next := i);
        assert request[..] == Linked(s, i, r, n).request;
      }
      queue := Insert(queue, n, i);
    }

    /** The entry that the loop of add_request stops at. */
    method FindPlace(ghost s: State, i: int) returns (tmp: int)
      requires Inv(s) && 0 <= i < request.Length && New(s, i, request[i])
      requires S() == s.(request := s.request[i := request[i]])
      requires |s.queue| >= 2 && Located(s.request, s.queue)
      ensures var n := Place(Positions(s.request, s.queue), Where(request[i]));
        tmp == s.queue[n - 1] && tmp != i
    {
      ghost var p, w := Positions(s.request, s.queue), Where(request[i]);
      assert Queued(s, 0) && Queued(s, 1) && Taken(s, i);
      tmp := request[current].next;
      ghost var k := 1;
      while request[tmp].next != NULL
        invariant 1 <= k < |s.queue| && tmp == s.queue[k] && tmp != i
        invariant forall j :: 1 <= j < k ==> !Fits(p, w, j)
        decreases |s.queue| - k
      {
        assert Queued(s, k) && k + 1 < |s.queue| && Queued(s, k + 1);
        assert s.queue[k + 1] in s.queue;
        var next := request[tmp].next;
        if (InOrder(Where(request[tmp]), Where(request[i])) || !InOrder(Where(request[tmp]), Where(request[next])))
          && InOrder(Where(request[i]), Where(request[next]))
        {
          break;
        }
        tmp := next;
        k := k + 1;
      }
      assert Queued(s, k);
      assert k + 1 < |p| ==> Fits(p, w, k);
      ghost var j := PlaceFrom(p, w, 1);
      assert j == k;
    }

    /** rw_abs_hd up to the wait for the buffer.  Without a free slot the caller sleeps and comes back. */
    method RwAbsHd(cmd: Command, drive: int, sec: nat, head: nat, cyl: nat, bh: int, drq: bool) returns (placed: bool)
      requires Valid() && 0 <= drive <= 1 && head <= 15
      modifies this, request
      ensures Valid() && (placed <==> exists i :: 0 <= i < request.Length && old(request[i].hd) < 0)
      ensures !placed ==> S() == old(S())
      ensures placed ==> exists i ::
        var r := Slot(drive, 2, sec, head, cyl, cmd, 0, bh, NULL);
        New(old(S()), i, r) && S() == Added(old(S()), i, r, drq)
    {
      ghost var s := S();
      var i := 0;
      while i < request.Length && request[i].hd >= 0
        invariant 0 <= i <= request.Length
        invariant forall j :: 0 <= j < i ==> request[j].hd >= 0
      {
        i := i + 1;
      }
      placed := i < request.Length;
      if placed {
        var r := Slot(drive, 2, sec, head, cyl, cmd, 0, bh, NULL);
        request[i] := r;
        assert request[..] == s.request[i := r];
        AddRequest(i, s, r, drq);
        assert New(s, i, r) && S() == Added(s, i, r, drq);
      }
    }
  }
}
