/** The machine that the paging code amounts to: one private memory per task, the frames behind its pages and
    a count of free frames. */
module PagingMachine {
  import opened Counting
  import opened PagingState
  import opened TaskSpaces
  import opened TaskFrames
  import opened TaskMemory

  datatype Op =
    | Fork(cur: nat, nr: nat)
    | Store(cur: nat, p: nat, i: nat, w: Word)
    | Load(cur: nat, p: nat, i: nat)
    | Verify(cur: nat, addr: nat, size: int)       // verify_area, at the start of a system call
    | Put(cur: nat, p: nat, i: nat, w: Word)       // put_fs, later in it
    | Exec(cur: nat, newCode: nat, page: seq<nat>)
    | Exit(cur: nat)
    | Reap(t: nat)
    | Grab                                         // get_free_page for the kernel itself
    | Fill(f: nat, i: nat, w: Word)                // a store into such a page
    | Drop(f: nat)
    | KernelStore(f: nat, i: nat, w: Word)

  datatype Outcome = Outcome(ok: bool, word: Word, frame: nat)

  /** The private memories: one sequence of pages per task, with its page tables, the frames behind its pages
      and the pages it may write; the pages that the kernel has grabbed; the low memory that pages may be
      borrowed from; and the number of free frames. */
  datatype Abs = Abs(spaces: seq<seq<View>>, tables: seq<set<nat>>, frames: seq<seq<int>>, rw: seq<set<nat>>,
                     alive: seq<bool>, taken: seq<bool>, data: seq<nat>,
                     kept: map<nat, Page>, low: seq<Page>, free: nat)

  ghost predicate Sized(a: Abs) {
    && |a.spaces| == |a.tables| == |a.frames| == |a.rw| == |a.alive| == |a.taken| == |a.data| == NR_TASKS
    && (forall t :: 0 <= t < NR_TASKS ==> |a.spaces[t]| == |a.frames[t]| == PAGES)
    && |a.low| == LOW && (forall f :: 0 <= f < LOW ==> |a.low[f]| == ENTRIES)
    && (forall f :: f in a.kept ==> |a.kept[f]| == ENTRIES)
    && (forall t :: 0 <= t < NR_TASKS ==> a.data[t] <= 0x4000000)
  }

  /** Every page that is there has a page table, a page that may be written shares its frame with no other page,
      no page is on a frame that the kernel has grabbed, and task 0 lends the first 160 frames of the memory. */
  ghost predicate WellFormed(a: Abs) {
    && Sized(a)
    && (forall t, p :: 0 <= t < NR_TASKS && 0 <= p < PAGES ==> PageOk(a.spaces[t][p]))
    && (forall t: nat, p: nat :: t < NR_TASKS && p < PAGES ==> FrameOk(a, t, p))
    && (forall t :: 0 <= t < NR_TASKS ==> a.rw[t] <= AlonePages(a, t))
    && (forall t :: 1 <= t < NR_TASKS && a.alive[t] ==> a.taken[t])
    && (forall f :: f in a.kept ==> LOW <= f < HIGH)
    && LowLent(a)
  }

  ghost predicate LowLent(a: Abs)
    requires Sized(a)
  {
    forall p :: 0 <= p < 16384 ==> a.spaces[0][p] == if p < 160 then Low(p) else Absent
  }

  ghost predicate FrameOk(a: Abs, t: nat, p: nat)
    requires Sized(a) && t < NR_TASKS && p < PAGES
  {
    var v, f := a.spaces[t][p], a.frames[t][p];
    && (v.Absent? ==> f == -1) && (v.Low? ==> f == v.frame) && (v.Own? ==> LOW <= f < HIGH)
    && f !in a.kept && (f != -1 ==> p / ENTRIES in a.tables[t])
  }

  /** Page q of task u is on frame f. */
  ghost predicate OnFrame(a: Abs, u: nat, q: nat, f: int)
    requires Sized(a) && u < NR_TASKS && q < PAGES
  {
    a.frames[u][q] == f
  }

  /** The page has a paged frame that no other page of any task is on. */
  ghost predicate IsAlone(a: Abs, t: nat, p: nat)
    requires Sized(a) && t < NR_TASKS && p < PAGES
  {
    && a.frames[t][p] >= LOW
    && forall u: nat, q: nat :: u < NR_TASKS && q < PAGES && OnFrame(a, u, q, a.frames[t][p]) ==> u == t && q == p
  }

  ghost function AlonePages(a: Abs, t: nat): set<nat>
    requires Sized(a) && t < NR_TASKS
  {
    set p: nat | p < PAGES && IsAlone(a, t, p)
  }

  /** No page is on frame f, and the kernel has not grabbed it. */
  ghost predicate Fresh(a: Abs, f: int)
    requires Sized(a)
  {
    && LOW <= f < HIGH && f !in a.kept
    && forall u: nat, q: nat :: u < NR_TASKS && q < PAGES ==> !OnFrame(a, u, q, f)
  }

  ghost predicate PageOk(v: View) {
    && (v.Low? ==> v.frame < LOW)
    && (v.Own? ==> |v.page| == ENTRIES)
  }

  ghost predicate Running(a: Abs, t: nat)
    requires Sized(a)
  {
    1 <= t < NR_TASKS && a.alive[t]
  }

  ghost predicate InLimits(a: Abs, t: nat, p: nat, i: nat)
    requires Sized(a)
  {
    Running(a, t) && p * 4096 + 4096 <= a.data[t] && i < ENTRIES
  }

  ghost function PageAt(a: Abs, t: nat, p: nat): (v: View)
    requires Sized(a) && t < NR_TASKS
    ensures WellFormed(a) ==> PageOk(v)
  {
    if p < PAGES then a.spaces[t][p] else Absent
  }

  /** The kernel may store at the page: it is absent, or the task may write it. */
  ghost predicate IsVerified(a: Abs, t: nat, p: nat)
    requires Sized(a) && t < NR_TASKS
  {
    PageAt(a, t, p).Absent? || p in a.rw[t]
  }

  /** The 32 argument pages of an exec are pages that the kernel holds, each used once. */
  ghost predicate Arguments(a: Abs, page: seq<nat>) {
    && |page| == MAX_ARG_PAGES && (forall i :: 0 <= i < |page| && page[i] != 0 ==> page[i] in a.kept)
    && (forall i, j :: 0 <= i < j < |page| && page[i] != 0 ==> page[i] != page[j])
  }

  ghost predicate Enabled(a: Abs, op: Op)
    requires Sized(a)
  {
    match op
    case Fork(cur, nr) => cur < NR_TASKS && a.alive[cur] && 1 <= nr < NR_TASKS && !a.taken[nr]
    case Store(cur, p, i, _) => InLimits(a, cur, p, i)
    case Load(cur, p, i) => InLimits(a, cur, p, i)
    case Verify(cur, addr, size) => Running(a, cur) && InSegment(addr, size, a.data[cur])
    case Put(cur, p, i, _) => InLimits(a, cur, p, i) && IsVerified(a, cur, p)
    case Exec(cur, newCode, page) =>
      Running(a, cur) && a.tables[cur] != {} && newCode <= 0x4000000 && Arguments(a, page)
    case Exit(cur) => Running(a, cur)
    case Reap(t) => 1 <= t < NR_TASKS && !a.alive[t] && a.taken[t]
    case Grab => true
    case Fill(f, i, _) => f in a.kept && i < ENTRIES
    case Drop(f) => f in a.kept
    case KernelStore(f, i, _) => 3 <= f < LOW && i < ENTRIES
  }

  /** The task whose memory an operation may change; 0 for none. */
  ghost function Target(op: Op): nat {
    match op
    case Fork(_, nr) => nr
    case Store(cur, _, _, _) => cur
    case Load(cur, _, _) => cur
    case Verify(cur, _, _) => cur
    case Put(cur, _, _, _) => cur
    case Exec(cur, _, _) => cur
    case Exit(cur) => cur
    case Reap(_) => 0
    case Grab => 0
    case Fill(_, _, _) => 0
    case Drop(_) => 0
    case KernelStore(_, _, _) => 0
  }

  /** Page for page the same memory, on the same page tables and the same frames. */
  ghost predicate SameMemory(a: Abs, a': Abs, u: nat)
    requires Sized(a) && Sized(a') && u < NR_TASKS
  {
    a'.spaces[u] == a.spaces[u] && a'.tables[u] == a.tables[u] && a'.frames[u] == a.frames[u]
  }

  /** Nobody but task t notices, and the write bits of everybody but t and v are as they were; t and v are 0 for
      nobody, since task 0 has no pages of its own. */
  ghost predicate OthersKept(a: Abs, a': Abs, t: nat, v: nat)
    requires WellFormed(a) && Sized(a')
  {
    && (forall u :: 0 <= u < NR_TASKS && (u == 0 || u != t) ==> SameMemory(a, a', u))
    && (forall u :: 0 <= u < NR_TASKS && (u == 0 || (u != t && u != v)) ==> a'.rw[u] == a.rw[u])
  }

  ghost predicate LowKept(a: Abs, a': Abs)
    requires WellFormed(a) && Sized(a')
  {
    forall f :: 1 <= f < LOW ==> a'.low[f] == a.low[f]
  }

  /** What the tasks are and what the kernel holds. */
  ghost predicate SameTasks(a: Abs, a': Abs) {
    a'.alive == a.alive && a'.taken == a.taken && a'.data == a.data && a'.kept == a.kept
  }

  // ---------------------------------------------------------------- what an operation takes

  ghost function LoadCost(a: Abs, t: nat, p: nat): nat
    requires Sized(a) && t < NR_TASKS
  {
    if p / ENTRIES !in a.tables[t] then 2 else if PageAt(a, t, p).Absent? then 1 else 0
  }

  ghost function VerifyCost(a: Abs, t: nat, p: nat): nat
    requires Sized(a) && t < NR_TASKS
  {
    if PageAt(a, t, p).Absent? || p in AlonePages(a, t) then 0 else 1
  }

  /** The pages of an area that take a frame to make them writable. */
  ghost function NeedyPages(a: Abs, t: nat, lo: nat, hi: nat): set<nat>
    requires Sized(a) && t < NR_TASKS
  {
    set p: nat | lo <= p < hi && VerifyCost(a, t, p) == 1
  }

  /** What comes back when a task ends: its page tables and the frames it had alone. */
  ghost function GivenBack(a: Abs, t: nat): nat
    requires Sized(a) && t < NR_TASKS
  {
    |a.tables[t]| + |AlonePages(a, t)|
  }

  // ---------------------------------------------------------------- one operation

  /** An access of task t that leaves v at page p and takes `cost` frames: if any, the page has a new one. */
  ghost predicate Accessed(a: Abs, a': Abs, t: nat, p: nat, v: View, cost: nat, writes: bool)
    requires WellFormed(a) && Sized(a') && t < NR_TASKS
  {
    && p < PAGES && a'.spaces[t] == a.spaces[t][p := v] && a'.tables[t] == a.tables[t] + {p / ENTRIES}
    && a'.frames[t] == a.frames[t][p := a'.frames[t][p]] && NewFrame(a, a', t, p, cost > 0)
    && a'.rw[t] == a.rw[t] + (if writes then {p} else {})
    && SameTasks(a, a') && a'.free == a.free - cost
  }

  ghost predicate NewFrame(a: Abs, a': Abs, t: nat, p: nat, moved: bool)
    requires Sized(a) && Sized(a') && t < NR_TASKS && p < PAGES
  {
    if moved then Fresh(a, a'.frames[t][p]) else a'.frames[t][p] == a.frames[t][p]
  }

  ghost predicate Ended(a: Abs, a': Abs, t: nat)
    requires WellFormed(a) && Sized(a') && t < NR_TASKS
  {
    && a'.spaces[t] == NoSpace() && a'.tables[t] == {} && a'.frames[t] == NoFrames() && a'.rw[t] == {}
    && a'.alive == a.alive[t := false] && a'.taken == a.taken && a'.data == a.data && a'.kept == a.kept
  }

  /** An access succeeds exactly when there are frames enough for it; a task that does not get them is ended.
      A frame that do_no_page had taken by then is lost. */
  ghost predicate Access(a: Abs, a': Abs, t: nat, p: nat, o: Outcome, v: View, cost: nat, writes: bool)
    requires WellFormed(a) && Sized(a') && t < NR_TASKS
  {
    && (o.ok <==> a.free >= cost)
    && (if o.ok then Accessed(a, a', t, p, v, cost, writes) else Ended(a, a', t) && a'.free == GivenBack(a, t))
  }

  /** The present pages of the area are the task's own and writable; the shared ones have a new frame. */
  ghost predicate AreaVerified(a: Abs, a': Abs, t: nat, lo: nat, hi: nat)
    requires WellFormed(a) && Sized(a') && t < NR_TASKS
  {
    && (forall p :: 0 <= p < PAGES ==>
          a'.spaces[t][p] == if lo <= p < hi then MadeOwn(a.spaces[t][p], a.low) else a.spaces[t][p])
    && (forall p: nat :: p < PAGES ==> NewFrame(a, a', t, p, p in NeedyPages(a, t, lo, hi)))
    && (forall p, q :: p in NeedyPages(a, t, lo, hi) && q in NeedyPages(a, t, lo, hi) && p < q < PAGES ==>
          a'.frames[t][p] != a'.frames[t][q])
    && a'.rw[t] == a.rw[t] + PresentPages(a, t, lo, hi)
    && a'.tables[t] == a.tables[t] && SameTasks(a, a') && a'.free == a.free - |NeedyPages(a, t, lo, hi)|
  }

  ghost function PresentPages(a: Abs, t: nat, lo: nat, hi: nat): set<nat>
    requires Sized(a) && t < NR_TASKS
  {
    set p: nat | lo <= p < hi && !PageAt(a, t, p).Absent?
  }

  /** The memory of a program that has just been started: the argument pages at the end of the segment. */
  ghost function StartSpace(a: Abs, page: seq<nat>): seq<View>
    requires |page| == MAX_ARG_PAGES
  {
    seq(PAGES, p requires 0 <= p < PAGES =>
      var i := p - (PAGES - MAX_ARG_PAGES);
      if 0 <= i && page[i] != 0 && page[i] in a.kept then Own(a.kept[page[i]]) else Absent)
  }

  ghost predicate Stores(a: Abs, a': Abs, cur: nat, p: nat, i: nat, w: Word, o: Outcome, cost: nat)
    requires WellFormed(a) && Sized(a') && cur < NR_TASKS && i < ENTRIES
  {
    Access(a, a', cur, p, o, Stored(PageAt(a, cur, p), a.low, i, w), cost, true)
  }

  ghost predicate Loads(a: Abs, a': Abs, cur: nat, p: nat, i: nat, o: Outcome)
    requires WellFormed(a) && Sized(a') && cur < NR_TASKS && i < ENTRIES
  {
    var v := PageAt(a, cur, p);
    && Access(a, a', cur, p, o, LoadedView(v), LoadCost(a, cur, p), v.Absent?)
    && (o.ok ==> o.word == Loaded(v, a.low, i))
  }

  ghost predicate NeverFails(op: Op) { op.Exec? || op.Exit? || op.Reap? || op.Fill? || op.Drop? || op.KernelStore? }

  ghost predicate Next(a: Abs, op: Op, o: Outcome, a': Abs)
    requires WellFormed(a) && Sized(a')
  {
    if !Enabled(a, op) then a' == a else
    && OthersKept(a, a', Target(op), if op.Fork? then op.cur else Target(op))
    && (!op.KernelStore? ==> LowKept(a, a')) && (NeverFails(op) ==> o.ok)
    && match op
       case Fork(cur, nr) => Forks(a, a', cur, nr, o)
       case Store(cur, p, i, w) => Stores(a, a', cur, p, i, w, o, LoadCost(a, cur, p) + VerifyCost(a, cur, p))
       case Load(cur, p, i) => Loads(a, a', cur, p, i, o)
       case Verify(cur, addr, size) =>
         var lo, hi := FirstPage(addr), AreaEnd(addr, size);
         && (o.ok <==> a.free >= |NeedyPages(a, cur, lo, hi)|)
         && (if o.ok then AreaVerified(a, a', cur, lo, hi)
             else Ended(a, a', cur) && a'.free == a.free + GivenBack(a, cur))
       case Put(cur, p, i, w) => Stores(a, a', cur, p, i, w, o, LoadCost(a, cur, p))
       case Exec(cur, newCode, page) => Execs(a, a', cur, page)
       case Exit(cur) => Ended(a, a', cur) && a'.free == a.free + GivenBack(a, cur)
       case Reap(t) => SameTasks(a.(taken := a.taken[t := false]), a') && a'.free == a.free + 1
       case Grab => Grabs(a, a', o)
       case Fill(f, i, w) => SameTasks(a.(kept := a.kept[f := a.kept[f][i := w]]), a') && a'.free == a.free
       case Drop(f) => SameTasks(a.(kept := a.kept - {f}), a') && a'.free == a.free + 1
       case KernelStore(f, i, w) =>
         a'.low == a.low[f := a.low[f][i := w]] && SameTasks(a, a') && a'.free == a.free
  }

  /** A page that was missing has become a page of zeros. */
  ghost function LoadedView(v: View): View { if v.Absent? then Own(ZeroPage()) else v }

  /** A fork succeeds exactly when there is a frame for the task structure and one for each page table.  The
      child is then on its parent's frames, and neither may write to any of them; a fork that fails may have
      taken write bits from the parent. */
  ghost predicate Forks(a: Abs, a': Abs, cur: nat, nr: nat, o: Outcome)
    requires WellFormed(a) && Sized(a') && cur < NR_TASKS && nr < NR_TASKS
  {
    && (o.ok <==> a.free >= 1 + |a.tables[cur]|) && a'.kept == a.kept
    && (if o.ok then
          && a'.spaces[nr] == a.spaces[cur] && a'.tables[nr] == a.tables[cur] && a'.frames[nr] == a.frames[cur]
          && a'.rw[nr] == {} && a'.rw[cur] == {}
          && a'.alive == a.alive[nr := true] && a'.taken == a.taken[nr := true]
          && a'.data == a.data[nr := a.data[cur]] && a'.free == a.free - 1 - |a.tables[cur]|
        else
          && SameMemory(a, a', nr) && a'.rw[nr] == a.rw[nr] && a'.rw[cur] <= a.rw[cur]
          && a'.alive == a.alive && a'.taken == a.taken && a'.data == a.data && a'.free == a.free)
  }

  ghost predicate Execs(a: Abs, a': Abs, cur: nat, page: seq<nat>)
    requires WellFormed(a) && Sized(a') && cur < NR_TASKS && |page| == MAX_ARG_PAGES
  {
    && a'.spaces[cur] == StartSpace(a, page) && a'.frames[cur] == ArgumentRow(page, 0)
    && a'.tables[cur] == (if ArgsFrom(page, 0) then {15} else {}) && a'.rw[cur] == StartPages(page)
    && a'.free == a.free + GivenBack(a, cur) - One(ArgsFrom(page, 0))
    && a'.kept == a.kept - ArgumentFrames(page, 0)
    && a'.alive == a.alive && a'.taken == a.taken && a'.data == a.data[cur := 0x4000000]
  }

  /** The pages that an exec leaves the task. */
  ghost function StartPages(page: seq<nat>): set<nat>
    requires |page| == MAX_ARG_PAGES
  {
    set p: nat | p < PAGES && ArgumentRow(page, 0)[p] != -1
  }

  ghost predicate Grabs(a: Abs, a': Abs, o: Outcome)
    requires WellFormed(a) && Sized(a')
  {
    && (o.ok <==> a.free > 0)
    && (if o.ok then
          && Fresh(a, o.frame) && a'.free == a.free - 1
          && SameTasks(a.(kept := a.kept[o.frame := ZeroPage()]), a')
        else SameTasks(a, a') && a'.free == a.free)
  }

  /** trace[k + 1] comes from trace[k] by ops[k].  Nothing is said of a step from a state that is not well
      formed. */
  ghost predicate IsRun(trace: seq<Abs>, ops: seq<Op>, os: seq<Outcome>) {
    && |trace| == |ops| + 1 && |os| == |ops|
    && (forall k :: 0 <= k < |trace| ==> Sized(trace[k]))
    && (forall k :: 0 <= k < |ops| ==> Steps(trace[k], ops[k], os[k], trace[k + 1]))
  }

  ghost predicate Steps(a: Abs, op: Op, o: Outcome, a': Abs)
    requires Sized(a) && Sized(a')
  {
    WellFormed(a) ==> Next(a, op, o, a')
  }

  // ---------------------------------------------------------------- every step keeps a machine well formed

  /** No page of any task is on frame f. */
  ghost predicate Unpaged(a: Abs, f: int)
    requires Sized(a)
  {
    forall u: nat, q: nat :: u < NR_TASKS && q < PAGES ==> !OnFrame(a, u, q, f)
  }

  ghost predicate OnceInRow(a: Abs, t: nat, p: nat)
    requires Sized(a) && t < NR_TASKS && p < PAGES
  {
    forall q: nat :: q < PAGES && OnFrame(a, t, q, a.frames[t][p]) ==> q == p
  }

  /** Page p of task t is where it was, or nowhere, or the only one of its task on a frame that no page was on. */
  ghost predicate SettledAt(a: Abs, a': Abs, t: nat, p: nat)
    requires Sized(a) && Sized(a') && t < NR_TASKS && p < PAGES
  {
    var f := a'.frames[t][p];
    f == a.frames[t][p] || f == -1 || (Unpaged(a, f) && OnceInRow(a', t, p))
  }

  /** Only the pages of task t have gone elsewhere. */
  ghost predicate Settled(a: Abs, a': Abs, t: nat)
    requires Sized(a) && Sized(a') && t < NR_TASKS
  {
    && (forall u :: 0 <= u < NR_TASKS && u != t ==> a'.frames[u] == a.frames[u])
    && (forall p: nat :: p < PAGES ==> SettledAt(a, a', t, p))
  }

  lemma StillAlone(a: Abs, a': Abs, t: nat, u: nat, p: nat)
    requires Sized(a) && Sized(a') && t < NR_TASKS && u < NR_TASKS && p < PAGES
    requires Settled(a, a', t) && IsAlone(a, u, p) && a'.frames[u][p] == a.frames[u][p]
    ensures IsAlone(a', u, p)
  {
    var f := a.frames[u][p];
    forall v: nat, q: nat | v < NR_TASKS && q < PAGES && OnFrame(a', v, q, f) ensures v == u && q == p {
      assert OnFrame(a, u, p, f);
      if v == t { assert SettledAt(a, a', t, q); }
      assert OnFrame(a, v, q, f);
    }
  }

  lemma NewlyAlone(a: Abs, a': Abs, t: nat, p: nat)
    requires Sized(a) && Sized(a') && t < NR_TASKS && p < PAGES && Settled(a, a', t)
    requires a'.frames[t][p] >= LOW && Unpaged(a, a'.frames[t][p]) && OnceInRow(a', t, p)
    ensures IsAlone(a', t, p)
  {
    var f := a'.frames[t][p];
    forall v: nat, q: nat | v < NR_TASKS && q < PAGES && OnFrame(a', v, q, f) ensures v == t && q == p {
      assert !OnFrame(a, v, q, f);
    }
  }

  ghost predicate RowOk(a: Abs, t: nat)
    requires Sized(a) && t < NR_TASKS
  {
    forall p: nat :: p < PAGES ==> PageOk(PageAt(a, t, p)) && FrameOk(a, t, p)
  }

  ghost predicate RightsOk(a: Abs, t: nat)
    requires Sized(a) && t < NR_TASKS
  {
    a.rw[t] <= AlonePages(a, t)
  }

  /** What the kernel holds it held before, or no page is on it. */
  ghost predicate KeptOk(a: Abs, a': Abs)
    requires Sized(a) && Sized(a')
  {
    forall f :: f in a'.kept ==> LOW <= f < HIGH && (f in a.kept || Unpaged(a, f))
  }

  lemma Assembled(a: Abs)
    requires Sized(a) && (forall t: nat :: t < NR_TASKS ==> RowOk(a, t) && RightsOk(a, t))
    requires forall t :: 1 <= t < NR_TASKS && a.alive[t] ==> a.taken[t]
    requires (forall f :: f in a.kept ==> LOW <= f < HIGH) && LowLent(a)
    ensures WellFormed(a)
  {
    forall t, p | 0 <= t < NR_TASKS && 0 <= p < PAGES ensures PageOk(a.spaces[t][p]) && FrameOk(a, t, p) {
      assert RowOk(a, t) && PageAt(a, t, p) == a.spaces[t][p];
    }
    forall t | 0 <= t < NR_TASKS ensures a.rw[t] <= AlonePages(a, t) { assert RightsOk(a, t); }
  }

  lemma RowStays(a: Abs, a': Abs, u: nat)
    requires WellFormed(a) && Sized(a') && u < NR_TASKS && SameMemory(a, a', u) && KeptOk(a, a')
    ensures RowOk(a', u)
  {
    forall p: nat | p < PAGES ensures PageOk(PageAt(a', u, p)) && FrameOk(a', u, p) {
      assert FrameOk(a, u, p) && PageOk(a.spaces[u][p]) && OnFrame(a, u, p, a.frames[u][p]);
    }
  }

  lemma RightsStay(a: Abs, a': Abs, t: nat, u: nat)
    requires WellFormed(a) && Sized(a') && t < NR_TASKS && u < NR_TASKS && Settled(a, a', t)
    requires a'.frames[u] == a.frames[u] && a'.rw[u] <= a.rw[u]
    ensures RightsOk(a', u)
  {
    forall p | p in a'.rw[u] ensures p in AlonePages(a', u) {
      assert p in AlonePages(a, u);
      StillAlone(a, a', t, u, p);
    }
  }

  /** A step that changes the pages of task t, and nobody else's. */
  lemma OneRowKeeps(a: Abs, a': Abs, t: nat)
    requires WellFormed(a) && Sized(a') && t < NR_TASKS && Settled(a, a', t) && KeptOk(a, a')
    requires forall u :: 0 <= u < NR_TASKS && u != t ==> SameMemory(a, a', u) && a'.rw[u] <= a.rw[u]
    requires RowOk(a', t) && RightsOk(a', t) && a'.spaces[0] == a.spaces[0]
    requires forall u :: 1 <= u < NR_TASKS && a'.alive[u] ==> a'.taken[u]
    ensures WellFormed(a')
  {
    forall u: nat | u < NR_TASKS ensures RowOk(a', u) && RightsOk(a', u) {
      if u != t {
        RowStays(a, a', u);
        RightsStay(a, a', t, u);
      }
    }
    Assembled(a');
  }

  // ---------------------------------------------------------------- the single operations

  lemma SettledAccess(a: Abs, a': Abs, t: nat, p: nat, moved: bool)
    requires WellFormed(a) && Sized(a') && 1 <= t < NR_TASKS && p < PAGES && OthersKept(a, a', t, t)
    requires a'.frames[t] == a.frames[t][p := a'.frames[t][p]] && NewFrame(a, a', t, p, moved)
    ensures Settled(a, a', t) && (moved ==> IsAlone(a', t, p))
  {
    forall u | 0 <= u < NR_TASKS && u != t ensures a'.frames[u] == a.frames[u] { assert SameMemory(a, a', u); }
    if moved {
      forall q: nat | q < PAGES && OnFrame(a', t, q, a'.frames[t][p]) ensures q == p {
        if q != p { assert OnFrame(a, t, q, a.frames[t][q]); }
      }
    }
    forall q: nat | q < PAGES ensures SettledAt(a, a', t, q) { }
    if moved { NewlyAlone(a, a', t, p); }
  }

  lemma AccessedKeeps(a: Abs, a': Abs, t: nat, p: nat, v: View, cost: nat, writes: bool)
    requires WellFormed(a) && Sized(a') && 1 <= t < NR_TASKS && OthersKept(a, a', t, t)
    requires Accessed(a, a', t, p, v, cost, writes) && PageOk(v) && (cost > 0 ==> v.Own?)
    requires cost == 0 ==> (v == a.spaces[t][p] && !writes) || (v.Own? && IsAlone(a, t, p))
    ensures WellFormed(a')
  {
    assert SameMemory(a, a', 0);
    SettledAccess(a, a', t, p, cost > 0);
    AccessedRow(a, a', t, p, v, cost, writes);
    forall q | q in a'.rw[t] ensures q in AlonePages(a', t) {
      if q != p || cost == 0 {
        if q in a.rw[t] { assert q in AlonePages(a, t); }
        StillAlone(a, a', t, t, q);
      }
    }
    OneRowKeeps(a, a', t);
  }

  lemma AccessedRow(a: Abs, a': Abs, t: nat, p: nat, v: View, cost: nat, writes: bool)
    requires WellFormed(a) && Sized(a') && 1 <= t < NR_TASKS && Accessed(a, a', t, p, v, cost, writes)
    requires PageOk(v) && (cost > 0 ==> v.Own?)
    requires cost == 0 ==> (v == a.spaces[t][p] && !writes) || (v.Own? && IsAlone(a, t, p))
    ensures RowOk(a', t)
  {
    forall q: nat | q < PAGES ensures PageOk(PageAt(a', t, q)) && FrameOk(a', t, q) {
      assert FrameOk(a, t, q) && PageOk(a.spaces[t][q]);
    }
  }

  lemma EndedKeeps(a: Abs, a': Abs, t: nat)
    requires WellFormed(a) && Sized(a') && 1 <= t < NR_TASKS && OthersKept(a, a', t, t) && Ended(a, a', t)
    ensures WellFormed(a')
  {
    forall u | 0 <= u < NR_TASKS && u != t ensures a'.frames[u] == a.frames[u] { assert SameMemory(a, a', u); }
    forall p: nat | p < PAGES ensures SettledAt(a, a', t, p) && PageAt(a', t, p) == Absent && a'.frames[t][p] == -1 { }
    assert SameMemory(a, a', 0);
    OneRowKeeps(a, a', t);
  }

  lemma AccessKeeps(a: Abs, op: Op, o: Outcome, a': Abs)
    requires WellFormed(a) && Sized(a') && Next(a, op, o, a') && Enabled(a, op) && (op.Store? || op.Put? || op.Load?)
    ensures WellFormed(a')
  {
    var t, p := op.cur, op.p;
    assert PageOk(a.spaces[t][p]) && FrameOk(a, t, p);
    if !o.ok {
      EndedKeeps(a, a', t);
    } else {
      match op {
        case Store(_, _, i, w) =>
          AccessedKeeps(a, a', t, p, Stored(a.spaces[t][p], a.low, i, w),
                        LoadCost(a, t, p) + VerifyCost(a, t, p), true);
        case Put(_, _, i, w) =>
          AccessedKeeps(a, a', t, p, Stored(a.spaces[t][p], a.low, i, w), LoadCost(a, t, p), true);
        case Load(_, _, i) =>
          AccessedKeeps(a, a', t, p, LoadedView(a.spaces[t][p]), LoadCost(a, t, p), a.spaces[t][p].Absent?);
      }
    }
  }

  lemma AreaSettled(a: Abs, a': Abs, t: nat, lo: nat, hi: nat)
    requires WellFormed(a) && Sized(a') && 1 <= t < NR_TASKS && OthersKept(a, a', t, t)
    requires AreaVerified(a, a', t, lo, hi)
    ensures Settled(a, a', t)
    ensures forall p: nat :: p < PAGES && p in NeedyPages(a, t, lo, hi) ==> IsAlone(a', t, p)
  {
    var needy := NeedyPages(a, t, lo, hi);
    forall u | 0 <= u < NR_TASKS && u != t ensures a'.frames[u] == a.frames[u] { assert SameMemory(a, a', u); }
    forall p: nat | p < PAGES
      ensures SettledAt(a, a', t, p) && (p in needy ==> Unpaged(a, a'.frames[t][p]) && OnceInRow(a', t, p))
    {
      assert NewFrame(a, a', t, p, p in needy);
      if p in needy {
        forall q: nat | q < PAGES && OnFrame(a', t, q, a'.frames[t][p]) ensures q == p {
          assert NewFrame(a, a', t, q, q in needy);
          if q !in needy { assert OnFrame(a, t, q, a.frames[t][q]); }
        }
      }
    }
    forall p: nat | p < PAGES && p in needy ensures IsAlone(a', t, p) {
      assert NewFrame(a, a', t, p, true);
      NewlyAlone(a, a', t, p);
    }
  }

  lemma AreaKeeps(a: Abs, a': Abs, t: nat, lo: nat, hi: nat)
    requires WellFormed(a) && Sized(a') && 1 <= t < NR_TASKS && OthersKept(a, a', t, t)
    requires AreaVerified(a, a', t, lo, hi)
    ensures WellFormed(a')
  {
    AreaSettled(a, a', t, lo, hi);
    forall p: nat | p < PAGES ensures PageOk(PageAt(a', t, p)) && FrameOk(a', t, p) {
      assert PageOk(a.spaces[t][p]) && FrameOk(a, t, p);
      assert NewFrame(a, a', t, p, p in NeedyPages(a, t, lo, hi));
    }
    forall p | p in a'.rw[t] ensures p in AlonePages(a', t) {
      if p !in NeedyPages(a, t, lo, hi) {
        assert NewFrame(a, a', t, p, false);
        assert p in AlonePages(a, t);
        StillAlone(a, a', t, t, p);
      }
    }
    assert SameMemory(a, a', 0);
    OneRowKeeps(a, a', t);
  }

  lemma VerifyKeeps(a: Abs, op: Op, o: Outcome, a': Abs)
    requires WellFormed(a) && Sized(a') && Next(a, op, o, a') && Enabled(a, op) && op.Verify?
    ensures WellFormed(a')
  {
    if o.ok {
      AreaKeeps(a, a', op.cur, FirstPage(op.addr), AreaEnd(op.addr, op.size));
    } else {
      EndedKeeps(a, a', op.cur);
    }
  }

  /** A page that is alone in a, of a task other than the parent, is alone after the fork. */
  lemma AloneAfterFork(a: Abs, a': Abs, cur: nat, nr: nat, u: nat, p: nat)
    requires WellFormed(a) && Sized(a') && cur < NR_TASKS && 1 <= nr < NR_TASKS && u < NR_TASKS && p < PAGES
    requires OthersKept(a, a', nr, cur) && a'.frames[nr] == a.frames[cur] && u != cur && u != nr && IsAlone(a, u, p)
    ensures IsAlone(a', u, p)
  {
    assert SameMemory(a, a', u);
    var f := a.frames[u][p];
    forall q: nat | q < PAGES ensures !OnFrame(a', nr, q, f) { assert !OnFrame(a, cur, q, f); }
    forall v: nat, q: nat | v < NR_TASKS && q < PAGES && OnFrame(a', v, q, f) ensures v == u && q == p {
      if v != nr {
        assert SameMemory(a, a', v);
        assert OnFrame(a, v, q, f);
      }
    }
  }

  lemma ForkKeeps(a: Abs, o: Outcome, a': Abs, cur: nat, nr: nat)
    requires WellFormed(a) && Sized(a') && Enabled(a, Fork(cur, nr)) && Next(a, Fork(cur, nr), o, a') && o.ok
    ensures WellFormed(a')
  {
    forall u: nat | u < NR_TASKS ensures RowOk(a', u) && RightsOk(a', u) {
      if u == nr {
        forall p: nat | p < PAGES ensures PageOk(PageAt(a', nr, p)) && FrameOk(a', nr, p) {
          assert PageOk(a.spaces[cur][p]) && FrameOk(a, cur, p);
        }
      } else {
        assert SameMemory(a, a', u);
        RowStays(a, a', u);
        forall p | p in a'.rw[u] ensures p in AlonePages(a', u) {
          assert p in AlonePages(a, u);
          AloneAfterFork(a, a', cur, nr, u, p);
        }
      }
    }
    assert SameMemory(a, a', 0);
    Assembled(a');
  }

  /** A step that moves no page. */
  lemma NoRowKeeps(a: Abs, a': Abs)
    requires WellFormed(a) && Sized(a') && KeptOk(a, a')
    requires forall u :: 0 <= u < NR_TASKS ==> SameMemory(a, a', u) && a'.rw[u] <= a.rw[u]
    requires forall u :: 1 <= u < NR_TASKS && a'.alive[u] ==> a'.taken[u]
    ensures WellFormed(a')
  {
    forall u | 0 <= u < NR_TASKS ensures a'.frames[u] == a.frames[u] { assert SameMemory(a, a', u); }
    forall p: nat | p < PAGES ensures SettledAt(a, a', 0, p) { }
    RowStays(a, a', 0);
    RightsStay(a, a', 0, 0);
    assert SameMemory(a, a', 0);
    OneRowKeeps(a, a', 0);
  }

  lemma ForkFailedKeeps(a: Abs, o: Outcome, a': Abs, cur: nat, nr: nat)
    requires WellFormed(a) && Sized(a') && Enabled(a, Fork(cur, nr)) && Next(a, Fork(cur, nr), o, a') && !o.ok
    ensures WellFormed(a')
  {
    forall u | 0 <= u < NR_TASKS ensures SameMemory(a, a', u) && a'.rw[u] <= a.rw[u] {
      if u != nr { assert SameMemory(a, a', u); }
    }
    NoRowKeeps(a, a');
  }

  lemma ExecSettled(a: Abs, a': Abs, t: nat, page: seq<nat>)
    requires WellFormed(a) && Sized(a') && 1 <= t < NR_TASKS && OthersKept(a, a', t, t)
    requires Arguments(a, page) && a'.frames[t] == ArgumentRow(page, 0)
    ensures Settled(a, a', t) && forall p: nat :: p < PAGES && a'.frames[t][p] != -1 ==> IsAlone(a', t, p)
  {
    forall u | 0 <= u < NR_TASKS && u != t ensures a'.frames[u] == a.frames[u] { assert SameMemory(a, a', u); }
    forall p: nat | p < PAGES && a'.frames[t][p] != -1
      ensures Unpaged(a, a'.frames[t][p]) && OnceInRow(a', t, p) && a'.frames[t][p] >= LOW
    {
      var f, i := a'.frames[t][p], p - (PAGES - MAX_ARG_PAGES);
      assert f == page[i] && f in a.kept;
      forall u: nat, q: nat | u < NR_TASKS && q < PAGES ensures !OnFrame(a, u, q, f) { assert FrameOk(a, u, q); }
    }
    forall p: nat | p < PAGES ensures SettledAt(a, a', t, p) { }
    forall p: nat | p < PAGES && a'.frames[t][p] != -1 ensures IsAlone(a', t, p) { NewlyAlone(a, a', t, p); }
  }

  lemma ExecKeeps(a: Abs, o: Outcome, a': Abs, t: nat, newCode: nat, page: seq<nat>)
    requires WellFormed(a) && Sized(a') && Enabled(a, Exec(t, newCode, page)) && Next(a, Exec(t, newCode, page), o, a')
    ensures WellFormed(a')
  {
    ExecSettled(a, a', t, page);
    assert SameMemory(a, a', 0);
    forall p: nat | p < PAGES ensures PageOk(PageAt(a', t, p)) && FrameOk(a', t, p) {
      var i := p - (PAGES - MAX_ARG_PAGES);
      if 0 <= i && page[i] != 0 {
        assert page[i] in a.kept && page[i] in ArgumentFrames(page, 0);
      }
    }
    OneRowKeeps(a, a', t);
  }

  lemma KernelKeeps(a: Abs, op: Op, o: Outcome, a': Abs)
    requires WellFormed(a) && Sized(a') && Next(a, op, o, a') && Enabled(a, op) && Target(op) == 0
    ensures WellFormed(a')
  {
    forall u | 0 <= u < NR_TASKS ensures SameMemory(a, a', u) && a'.rw[u] == a.rw[u] { }
    if op.Grab? && o.ok { assert Unpaged(a, o.frame); }
    NoRowKeeps(a, a');
  }

  lemma TaskKeeps(a: Abs, op: Op, o: Outcome, a': Abs)
    requires WellFormed(a) && Sized(a') && Next(a, op, o, a') && Enabled(a, op)
    requires op.Fork? || op.Verify? || op.Exec? || op.Exit?
    ensures WellFormed(a')
  {
    if op.Fork? {
      if o.ok { ForkKeeps(a, o, a', op.cur, op.nr); } else { ForkFailedKeeps(a, o, a', op.cur, op.nr); }
    } else if op.Verify? {
      VerifyKeeps(a, op, o, a');
    } else if op.Exec? {
      ExecKeeps(a, o, a', op.cur, op.newCode, op.page);
    } else {
      EndedKeeps(a, a', op.cur);
    }
  }

  /** Every operation leaves a machine well formed that was so. */
  lemma NextKeeps(a: Abs, op: Op, o: Outcome, a': Abs)
    requires WellFormed(a) && Sized(a') && Next(a, op, o, a')
    ensures WellFormed(a')
  {
    if Enabled(a, op) {
      if Target(op) == 0 {
        KernelKeeps(a, op, o, a');
      } else if op.Store? || op.Put? || op.Load? {
        AccessKeeps(a, op, o, a');
      } else {
        TaskKeeps(a, op, o, a');
      }
    }
  }

  /** So every state of a run is well formed whose first state is. */
  lemma {:induction false} InvAlways(trace: seq<Abs>, ops: seq<Op>, os: seq<Outcome>, n: nat)
    requires IsRun(trace, ops, os) && WellFormed(trace[0]) && n <= |ops|
    ensures WellFormed(trace[n])
  {
    if n > 0 {
      InvAlways(trace, ops, os, n - 1);
      assert Steps(trace[n - 1], ops[n - 1], os[n - 1], trace[n]);
      NextKeeps(trace[n - 1], ops[n - 1], os[n - 1], trace[n]);
    }
  }
}
