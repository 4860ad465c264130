/** copy_strings of fs/exec.c and its use in do_execve: the argument and environment strings of the new
    program are packed downwards into at most 32 pages. */
module ExecArgs {

  const PAGE_SIZE: nat := 4096
  const MAX_ARG_PAGES: nat := 32
  const TOP: nat := 131068          // PAGE_SIZE * MAX_ARG_PAGES - 4

  type Byte = x: int | 0 <= x < 256

  type Str = seq<Byte>

  /** unsigned long */
  function Wrap(n: int): nat { n % 0x1_0000_0000 }

  predicate NulFree(s: Str) { 0 !in s }

  /** The strings in order, each with its terminating 0. */
  function Flat(strs: seq<Str>): seq<Byte> {
    if strs == [] then [] else strs[0] + [0] + Flat(strs[1..])
  }

  /** An entry of `page`: 0, or a page of the kernel. */
  datatype Slot = Absent | Present(bytes: seq<Byte>)

  /** p after copying; 0 for want of a page; the panic; or an index past the end of `page`. */
  datatype Outcome = Copied(p: nat) | NoMemory | Panic | Stray

  ghost predicate PagesOk(page: seq<Slot>) {
    |page| == MAX_ARG_PAGES && forall i :: 0 <= i < MAX_ARG_PAGES && page[i].Present? ==> |page[i].bytes| == PAGE_SIZE
  }

  /** The lowest page in use when the strings reach down to p. */
  function Lowest(p: nat): nat { if p >= TOP then MAX_ARG_PAGES else p / PAGE_SIZE }

  /** Exactly the pages from number low up are there. */
  ghost predicate From(page: seq<Slot>, low: nat) {
    PagesOk(page) && forall i :: 0 <= i < MAX_ARG_PAGES ==> (page[i].Present? <==> low <= i)
  }

  ghost predicate Reaches(page: seq<Slot>, p: nat) { p <= TOP && From(page, Lowest(p)) }

  /** copy_strings is also called with the 0 of a call before it that ran out of pages. */
  ghost predicate Usable(page: seq<Slot>, p: nat) { Reaches(page, p) || (p == 0 && PagesOk(page)) }

  /** The byte at offset q of the packed strings. */
  function At(page: seq<Slot>, q: nat): Byte {
    var i := q / PAGE_SIZE;
    if i < |page| && page[i].Present? && q % PAGE_SIZE < |page[i].bytes| then page[i].bytes[q % PAGE_SIZE] else 0
  }

  /** The strings `text` stand at offset p. */
  ghost predicate Holds(page: seq<Slot>, p: nat, text: seq<Byte>) {
    forall k :: 0 <= k < |text| ==> At(page, p + k) == text[k]
  }

  /** Nothing at p or above has changed. */
  ghost predicate AboveKept(page: seq<Slot>, page': seq<Slot>, p: nat) {
    forall q: nat :: p <= q < TOP ==> At(page', q) == At(page, q)
  }

  function PagesPresent(page: seq<Slot>): nat {
    if page == [] then 0 else PagesPresent(page[..|page| - 1]) + (if page[|page| - 1].Present? then 1 else 0)
  }

  lemma {:induction false} PresentUpdate(page: seq<Slot>, i: nat, s: Slot)
    requires i < |page|
    ensures PagesPresent(page[i := s]) + (if page[i].Present? then 1 else 0)
         == PagesPresent(page) + (if s.Present? then 1 else 0)
  {
    var n := |page| - 1;
    if i == n {
      assert page[i := s][..n] == page[..n];
    } else {
      assert page[i := s][..n] == page[..n][i := s];
      PresentUpdate(page[..n], i, s);
    }
  }

  lemma {:induction false} NonePresent(page: seq<Slot>)
    requires forall i :: 0 <= i < |page| ==> page[i].Absent?
    ensures PagesPresent(page) == 0
  {
    if page != [] { NonePresent(page[..|page| - 1]); }
  }

  lemma {:induction false} AtMostAll(page: seq<Slot>)
    ensures PagesPresent(page) <= |page|
  {
    if page != [] { AtMostAll(page[..|page| - 1]); }
  }

  lemma {:induction false} OneAbsent(page: seq<Slot>, i: nat)
    requires i < |page| && page[i].Absent?
    ensures PagesPresent(page) < |page|
  {
    var n := |page| - 1;
    if i == n { AtMostAll(page[..n]); } else { OneAbsent(page[..n], i); }
  }

  lemma {:induction false} FlatSnoc(strs: seq<Str>, k: nat)
    requires k < |strs|
    ensures Flat(strs[k..]) == strs[k] + [0] + Flat(strs[k + 1..])
  {
    assert strs[k..][0] == strs[k] && strs[k..][1..] == strs[k + 1..];
  }

  /** Storing one byte. */
  lemma StoreAt(page: seq<Slot>, q: nat, b: Byte)
    requires PagesOk(page) && q / PAGE_SIZE < MAX_ARG_PAGES && page[q / PAGE_SIZE].Present?
    ensures var i := q / PAGE_SIZE;
      var page' := page[i := Present(page[i].bytes[q % PAGE_SIZE := b])];
      PagesOk(page') && forall r: nat :: At(page', r) == if r == q then b else At(page, r)
  {
    var i := q / PAGE_SIZE;
    var page' := page[i := Present(page[i].bytes[q % PAGE_SIZE := b])];
    forall r: nat ensures At(page', r) == if r == q then b else At(page, r) {
      assert r == PAGE_SIZE * (r / PAGE_SIZE) + r % PAGE_SIZE && q == PAGE_SIZE * i + q % PAGE_SIZE;
    }
  }

  /** A string that fits starts in page (p - len) / 4096; for one that does not, the difference wraps
      to a page number that no argument page has. */
  lemma StartPage(p: nat, len: nat)
    requires p <= TOP && 0 < len <= 0x7fff_ffff
    ensures len <= p ==> Wrap(p - len) / PAGE_SIZE == Lowest(p - len) <= Lowest(p)
    ensures len > p ==> Wrap(p - len) / PAGE_SIZE >= MAX_ARG_PAGES
  {
    if len > p { assert Wrap(p - len) == 0x1_0000_0000 + p - len; }
  }

  lemma HoldsMore(page: seq<Slot>, p: nat, a: seq<Byte>, b: seq<Byte>)
    requires Holds(page, p, a) && Holds(page, p + |a|, b)
    ensures Holds(page, p, a + b)
  {
    forall k | 0 <= k < |a + b| ensures At(page, p + k) == (a + b)[k] {
      if k >= |a| { assert At(page, p + |a| + (k - |a|)) == b[k - |a|]; }
    }
  }

  lemma HoldsCons(page: seq<Slot>, page': seq<Slot>, p: nat, text: seq<Byte>, k: nat)
    requires k < |text| && Holds(page, p + 1, text[k + 1..])
    requires forall r: nat :: At(page', r) == if r == p then text[k] else At(page, r)
    ensures Holds(page', p, text[k..])
  {
    forall j | 0 <= j < |text[k..]| ensures At(page', p + j) == text[k..][j] {
      if j > 0 { assert At(page, p + 1 + (j - 1)) == text[k + 1..][j - 1]; }
    }
  }

  /** How many bytes the last strings take that fit below p, up to the first that does not. */
  function Fitting(strs: seq<Str>, p: nat): (n: nat)
    ensures n <= p && n <= |Flat(strs)|
    ensures n == |Flat(strs)| <==> |Flat(strs)| <= p
  {
    if strs == [] then 0
    else
      var rest := Fitting(strs[1..], p);
      if rest == |Flat(strs[1..])| && rest + |strs[0]| + 1 <= p then rest + |strs[0]| + 1 else rest
  }

  /** The pages that copying the strings below p asks for before it is done or finds one that does not fit. */
  function Needed(strs: seq<Str>, p: nat): nat
    requires p <= TOP
  {
    Lowest(p) - Lowest(p - Fitting(strs, p))
  }

  /** The result of copy_strings by what fits and how many frames there are. */
  predicate Settles(o: Outcome, strs: seq<Str>, p: nat, frames: nat)
    requires p <= TOP
  {
    && (o == NoMemory <==> frames < Needed(strs, p))
    && (o != NoMemory ==> (o.Copied? <==> |Flat(strs)| <= p))
    && (o.Copied? ==> o.p == p - |Flat(strs)|)
  }

  lemma {:induction false} FittingTail(strs: seq<Str>, p: nat, k: nat)
    requires k <= |strs|
    ensures Fitting(strs[k..], p) <= Fitting(strs, p)
    ensures Fitting(strs[k..], p) < |Flat(strs[k..])| ==> Fitting(strs, p) == Fitting(strs[k..], p)
    decreases k
  {
    if k > 0 {
      FittingTail(strs, p, k - 1);
      assert strs[k - 1..][1..] == strs[k..];
    } else {
      assert strs[0..] == strs;
    }
  }

  lemma LowestFalls(p: nat, q: nat)
    requires p <= q <= TOP
    ensures Lowest(p) <= Lowest(q)
  {
  }

  /** Strings that user memory can hold: lengths are ints. */
  ghost predicate Sane(strs: seq<Str>) { forall k :: 0 <= k < |strs| ==> |strs[k]| < 0x7fff_ffff }

  lemma {:induction false} FlatTail(strs: seq<Str>, k: nat)
    requires k <= |strs|
    ensures |Flat(strs[k..])| <= |Flat(strs)|
    decreases k
  {
    if k > 0 {
      FlatTail(strs, k - 1);
      FlatSnoc(strs, k - 1);
    } else {
      assert strs[0..] == strs;
    }
  }

  /** What the round for string k of copy_strings adds to the strings that fit. */
  lemma OneMore(strs: seq<Str>, k: nat, p: nat)
    requires k < |strs| && p <= TOP && |Flat(strs[k + 1..])| <= p
    ensures var q := p - |Flat(strs[k + 1..])|;
      if |strs[k]| + 1 <= q
      then Lowest(p) - Lowest(q - |strs[k]| - 1) <= Needed(strs, p)
      else Lowest(p) - Lowest(q) == Needed(strs, p) && |Flat(strs)| > p
  {
    FlatSnoc(strs, k);
    FlatTail(strs, k);
    FittingTail(strs, p, k);
    FittingTail(strs[k..], p, 1);
    assert strs[k..][1..] == strs[k + 1..];
    LowestFalls(p - Fitting(strs, p), p - Fitting(strs[k..], p));
  }

  lemma HoldsStill(page: seq<Slot>, page': seq<Slot>, p: nat, text: seq<Byte>)
    requires Holds(page, p, text) && p + |text| <= TOP
    requires AboveKept(page, page', p)
    ensures Holds(page', p, text)
  {
  }

  lemma PagesKept(page: seq<Slot>, page': seq<Slot>, p: nat)
    requires |page| == |page'| == MAX_ARG_PAGES && p <= TOP
    requires forall i :: Lowest(p) <= i < MAX_ARG_PAGES ==> page'[i] == page[i]
    ensures AboveKept(page, page', p)
  {
    forall q: nat | p <= q < TOP ensures At(page', q) == At(page, q) {
      assert q / PAGE_SIZE >= Lowest(p);
    }
  }

  lemma WrapBelow(p: nat)
    requires p <= TOP
    ensures p > 0 ==> Wrap(p - 1) == p - 1
    ensures p == 0 ==> Wrap(p - 1) / PAGE_SIZE >= MAX_ARG_PAGES
  {
  }

  /** The strings and at least one byte between them and the start of the argument pages. */
  predicate Fits(argv: seq<Str>, envp: seq<Str>) { |Flat(argv)| + |Flat(envp)| < TOP }

  /** When do_execve's copying ends in the panic or beyond the page table.  With too few frames for the
      environment, copy_strings is called for the arguments with p == 0, and any argument at all goes
      wrong; with enough, exactly the first string that does not fit does, if the frames last that far. */
  predicate Derails(argv: seq<Str>, envp: seq<Str>, frames: nat) {
    if frames < Needed(envp, TOP) then argv != []
    else
      || |Flat(envp)| > TOP
      || (|Flat(argv)| > TOP - |Flat(envp)|
          && frames >= Needed(envp, TOP) + Needed(argv, TOP - |Flat(envp)|))
  }

  /** What copying both lists comes to with that many free frames. */
  predicate Outcomes(o: Outcome, argv: seq<Str>, envp: seq<Str>, frames: nat) {
    && (o == Panic || o == Stray <==> Derails(argv, envp, frames))
    && (o.Copied? && o.p > 0 <==> Lasts(argv, envp, frames))
    && (o.Copied? && o.p > 0 ==> o.p == TOP - |Flat(argv)| - |Flat(envp)|)
  }

  predicate Lasts(argv: seq<Str>, envp: seq<Str>, frames: nat) {
    && Fits(argv, envp)
    && frames >= Needed(envp, TOP) + Needed(argv, TOP - |Flat(envp)|)
  }

  lemma NeededIs(strs: seq<Str>, p: nat)
    requires p <= TOP
    ensures |Flat(strs)| <= p ==> Needed(strs, p) == Lowest(p) - Lowest(p - |Flat(strs)|)
    ensures Needed(strs, p) <= Lowest(p)
    ensures |Flat(strs)| == 0 <==> strs == []
  {
  }

  lemma WhenReady(argv: seq<Str>, envp: seq<Str>, frames: nat)
    ensures Lasts(argv, envp, frames) <==>
      Fits(argv, envp) && frames >= MAX_ARG_PAGES - Lowest(TOP - |Flat(argv)| - |Flat(envp)|)
    // in numbers: the strings below 131068 bytes, and a frame for every page from the lowest one up
    ensures var n := |Flat(argv)| + |Flat(envp)|;
      Lasts(argv, envp, frames) <==> n < 131068 && (n == 0 || frames >= 32 - (131068 - n) / 4096)
  {
    NeededIs(envp, TOP);
    if Fits(argv, envp) {
      var rest := TOP - |Flat(envp)|;
      NeededIs(argv, rest);
      assert Needed(envp, TOP) == MAX_ARG_PAGES - Lowest(rest);
      assert Needed(argv, rest) == Lowest(rest) - Lowest(rest - |Flat(argv)|);
    }
  }

  lemma WhenDerailed(argv: seq<Str>, envp: seq<Str>, frames: nat)
    ensures |Flat(argv)| + |Flat(envp)| <= TOP ==>
      (Derails(argv, envp, frames) <==> argv != [] && frames < MAX_ARG_PAGES - Lowest(TOP - |Flat(envp)|))
    ensures |Flat(argv)| + |Flat(envp)| > TOP && frames >= MAX_ARG_PAGES ==> Derails(argv, envp, frames)
  {
    NeededIs(envp, TOP);
    if |Flat(envp)| <= TOP { NeededIs(argv, TOP - |Flat(envp)|); }
  }

  lemma BothHeld(page: seq<Slot>, page': seq<Slot>, p: nat, q: nat, text: seq<Byte>, above: seq<Byte>)
    requires Holds(page, p, above) && p + |above| <= TOP && AboveKept(page, page', p)
    requires Holds(page', q, text) && q + |text| == p
    ensures Holds(page', q, text + above)
  {
    HoldsStill(page, page', p, above);
    HoldsMore(page', q, text, above);
  }

  lemma Settled(first: Outcome, o: Outcome, argv: seq<Str>, envp: seq<Str>, frames: nat, left: nat)
    requires first.Copied? ==> |Flat(envp)| <= TOP && first.p == TOP - |Flat(envp)|
    requires first == NoMemory <==> frames < Needed(envp, TOP)
    requires first.Copied? || first == NoMemory
    requires first.Copied? ==> left == frames - Needed(envp, TOP)
    requires var p := if first.Copied? then first.p else 0;
      Settles(o, argv, p, left)
    ensures Outcomes(o, argv, envp, frames)
  {
    NeededIs(argv, if first.Copied? then first.p else 0);
  }

  /** Two calls that end in the "nonexistent page" panic or past the page table: one argument and one
      variable when no frame is free, and one argument that is a byte too long. */
  lemma PanicIsReached()
    ensures Derails([[97]], [[98]], 0)
    ensures Derails([seq(TOP, _ => 97)], [], MAX_ARG_PAGES)
  {
    var long: Str := seq(TOP, _ => 97);
    assert Flat([[98]]) == [98, 0] by { assert [[98]][1..] == []; }
    assert [long][1..] == [];
    assert |Flat([long])| == TOP + 1;
    WhenDerailed([long], [], MAX_ARG_PAGES);
    NeededIs([[98]], TOP);
  }

  class Exec {
    const page: array<Slot>
    var frames: nat                 // pages that get_free_page still has

    constructor (n: nat)
      ensures Reaches(page[..], TOP) && frames == n && PagesPresent(page[..]) == 0 && fresh(page)
    {
      page := new Slot[MAX_ARG_PAGES](_ => Absent);
      frames := n;
      new;
      NonePresent(page[..]);
    }

    /** The allocation loop of copy_strings from page `start` up. */
    method GetPages(start: nat, ghost low: nat) returns (ok: bool)
      requires page.Length == MAX_ARG_PAGES && PagesOk(page[..]) && low <= MAX_ARG_PAGES
      requires start < MAX_ARG_PAGES ==> From(page[..], low)
      modifies page, this`frames
      ensures PagesOk(page[..]) && frames + PagesPresent(page[..]) == old(frames + PagesPresent(page[..]))
      ensures ok && start < MAX_ARG_PAGES ==> From(page[..], if start < low then start else low)
      ensures start >= MAX_ARG_PAGES ==> ok && page[..] == old(page[..])
      ensures forall i :: low <= i < MAX_ARG_PAGES ==> page[i] == old(page[i])
      ensures ok <==> old(frames) >= low - start
      ensures ok ==> frames == if start < low then old(frames) - (low - start) else old(frames)
      ensures !ok ==> frames == 0 && PagesPresent(page[..]) < MAX_ARG_PAGES
    {
      var i := start;
      while i < MAX_ARG_PAGES && page[i].Absent?
        invariant i == start || (start < i <= low && i <= MAX_ARG_PAGES)
        invariant PagesOk(page[..]) && frames + PagesPresent(page[..]) == old(frames + PagesPresent(page[..]))
        invariant forall j :: 0 <= j < MAX_ARG_PAGES && !(start <= j < i) ==> page[j] == old(page[j])
        invariant forall j :: start <= j < i && j < MAX_ARG_PAGES ==> page[j].Present?
        invariant frames == old(frames) - (i - start)
      {
        if frames == 0 {
          OneAbsent(page[..], i);
          return false;
        }
        ghost var before := page[..];
        PresentUpdate(before, i, Present(seq(PAGE_SIZE, _ => 0)));
        frames := frames - 1;
        page[i] := Present(seq(PAGE_SIZE, _ => 0));
        assert page[..] == before[i := Present(seq(PAGE_SIZE, _ => 0))];
        i := i + 1;
      }
      ok := true;
    }

    /** The byte loop of copy_strings: `text`, a string with its 0, goes right below p. */
    method PutBytes(text: seq<Byte>, p0: nat) returns (o: Outcome)
      requires page.Length == MAX_ARG_PAGES && p0 <= TOP && text != [] && |text| < 0x1_0000_0000
      requires if |text| <= p0 then From(page[..], Lowest(p0 - |text|)) else Usable(page[..], p0)
      modifies page
      ensures PagesOk(page[..]) && PagesPresent(page[..]) == old(PagesPresent(page[..]))
      ensures |text| <= p0 ==> o == Copied(p0 - |text|) && From(page[..], Lowest(p0 - |text|))
      ensures |text| <= p0 ==> Holds(page[..], p0 - |text|, text)
      ensures |text| > p0 ==> o == Panic || o == Stray
      ensures forall q: nat :: p0 <= q ==> At(page[..], q) == old(At(page[..], q))
    {
      ghost var m := page[..];
      ghost var low := if |text| <= p0 then Lowest(p0 - |text|) else 0;
      var p: nat, len: nat := p0, |text|;
      while len > 0
        invariant 0 <= len <= |text| && p == p0 - (|text| - len) && (|text| > p0 ==> len > 0)
        invariant PagesOk(page[..]) && PagesPresent(page[..]) == PagesPresent(m)
        invariant |text| <= p0 ==> From(page[..], low)
        invariant Holds(page[..], p, text[len..])
        invariant forall q: nat :: p0 <= q ==> At(page[..], q) == At(m, q)
      {
        WrapBelow(p);
        p := Wrap(p - 1);
        if p / PAGE_SIZE >= MAX_ARG_PAGES {
          return Stray;
        }
        if page[p / PAGE_SIZE].Absent? {
          return Panic;
        }
        len := len - 1;
        ghost var before := page[..];
        StoreByte(p, text[len]);
        HoldsCons(before, page[..], p, text, len);
      }
      assert text[0..] == text;
      o := Copied(p);
    }

    method StoreByte(q: nat, b: Byte)
      requires PagesOk(page[..]) && q / PAGE_SIZE < MAX_ARG_PAGES == page.Length && page[q / PAGE_SIZE].Present?
      modifies page
      ensures PagesOk(page[..]) && PagesPresent(page[..]) == old(PagesPresent(page[..]))
      ensures forall i :: 0 <= i < MAX_ARG_PAGES ==> page[i].Present? == old(page[i].Present?)
      ensures forall r: nat :: At(page[..], r) == if r == q then b else old(At(page[..], r))
    {
      ghost var m := page[..];
      var i := q / PAGE_SIZE;
      StoreAt(m, q, b);
      PresentUpdate(m, i, Present(m[i].bytes[q % PAGE_SIZE := b]));
      page[i] := Present(page[i].bytes[q % PAGE_SIZE := b]);
      assert page[..] == m[i := Present(m[i].bytes[q % PAGE_SIZE := b])];
    }

    /** copy_strings.  Its test for too many strings compares an unsigned difference with 0 and never
        fires, so strings that do not fit end in the panic or beyond the page table. */
    method CopyStrings(strs: seq<Str>, p0: nat) returns (o: Outcome)
      requires page.Length == MAX_ARG_PAGES && Usable(page[..], p0) && p0 <= TOP && Sane(strs)
      modifies page, this`frames
      ensures PagesOk(page[..]) && frames + PagesPresent(page[..]) == old(frames + PagesPresent(page[..]))
      ensures o.Copied? && old(Reaches(page[..], p0)) ==> Reaches(page[..], o.p)
      ensures o.Copied? ==> Holds(page[..], o.p, Flat(strs))
      ensures o.Copied? ==> AboveKept(old(page[..]), page[..], p0)
      ensures Settles(o, strs, p0, old(frames))
      ensures o != NoMemory ==> frames == old(frames) - Needed(strs, p0)
      ensures o == NoMemory ==> frames == 0 && PagesPresent(page[..]) < MAX_ARG_PAGES
    {
      ghost var m := page[..];
      var p, argc := p0, |strs|;
      assert strs[argc..] == [];
      while argc > 0
        invariant 0 <= argc <= |strs| && |Flat(strs[argc..])| <= p0 && p == p0 - |Flat(strs[argc..])|
        invariant Usable(page[..], p) && (old(Reaches(page[..], p0)) ==> Reaches(page[..], p))
        invariant Holds(page[..], p, Flat(strs[argc..]))
        invariant frames + PagesPresent(page[..]) == old(frames + PagesPresent(page[..]))
        invariant frames == old(frames) - (Lowest(p0) - Lowest(p))
        invariant AboveKept(m, page[..], p0)
      {
        argc := argc - 1;
        FlatSnoc(strs, argc);
        FlatTail(strs, argc);
        OneMore(strs, argc, p0);
        o := CopyString(strs[argc] + [0], p, Flat(strs[argc + 1..]));
        if !o.Copied? {
          return;
        }
        p := o.p;
      }
      assert strs[0..] == strs;
      o := Copied(p);
    }

    /** One round of copy_strings, with `above` the strings that are already there. */
    method CopyString(text: seq<Byte>, p0: nat, ghost above: seq<Byte>) returns (o: Outcome)
      requires page.Length == MAX_ARG_PAGES && Usable(page[..], p0) && p0 <= TOP && 0 < |text| <= 0x7fff_ffff
      requires Holds(page[..], p0, above) && p0 + |above| <= TOP
      modifies page, this`frames
      ensures PagesOk(page[..]) && frames + PagesPresent(page[..]) == old(frames + PagesPresent(page[..]))
      ensures o.Copied? ==> |text| <= p0 && o.p == p0 - |text| && Reaches(page[..], o.p)
      ensures o.Copied? ==> Holds(page[..], o.p, text + above)
      ensures o.Copied? ==> AboveKept(old(page[..]), page[..], p0)
      ensures o == NoMemory <==> |text| <= p0 && old(frames) < Lowest(p0) - Lowest(p0 - |text|)
      ensures |text| <= p0 && o != NoMemory ==> o.Copied? && frames == old(frames) - (Lowest(p0) - Lowest(p0 - |text|))
      ensures |text| > p0 ==> !o.Copied? && frames == old(frames)
      ensures o == NoMemory ==> frames == 0 && PagesPresent(page[..]) < MAX_ARG_PAGES
    {
      ghost var m := page[..];
      StartPage(p0, |text|);
      var ok := GetPages(Wrap(p0 - |text|) / PAGE_SIZE, Lowest(p0));
      if !ok {
        return NoMemory;
      }
      PagesKept(m, page[..], p0);
      ghost var m1 := page[..];
      o := PutBytes(text, p0);
      if o.Copied? {
        assert AboveKept(m1, page[..], p0);
        HoldsStill(m, page[..], p0, above);
        HoldsMore(page[..], o.p, text, above);
      }
    }

    /** The environment is copied first, and the arguments below it. */
    method CopyBoth(argv: seq<Str>, envp: seq<Str>) returns (o: Outcome)
      requires page.Length == MAX_ARG_PAGES && Reaches(page[..], TOP) && Sane(argv) && Sane(envp)
      modifies page, this`frames
      ensures PagesOk(page[..]) && frames + PagesPresent(page[..]) == old(frames + PagesPresent(page[..]))
      ensures Outcomes(o, argv, envp, old(frames))
      ensures o.Copied? && o.p > 0 ==> Reaches(page[..], o.p) && Holds(page[..], o.p, Flat(argv) + Flat(envp))
    {
      ghost var f := frames;
      var first := CopyStrings(envp, TOP);
      if first == Panic || first == Stray {
        return first;
      }
      var p := if first.Copied? then first.p else 0;
      ghost var m, g := page[..], frames;
      o := CopyStrings(argv, p);
      Settled(first, o, argv, envp, f, g);
      if o.Copied? && o.p > 0 { BothHeld(m, page[..], p, o.p, Flat(argv), Flat(envp)); }
    }

    /** do_execve's copying of the environment and the arguments, and its clean-up when that fails. */
    method PrepareArgs(argv: seq<Str>, envp: seq<Str>) returns (r: Result)
      requires page.Length == MAX_ARG_PAGES && Reaches(page[..], TOP) && PagesPresent(page[..]) == 0
      requires Sane(argv) && Sane(envp)
      modifies page, this`frames
      ensures r.Ready? <==> Fits(argv, envp) && old(frames) >= MAX_ARG_PAGES - Lowest(TOP - |Flat(argv)| - |Flat(envp)|)
      ensures r.Ready? ==> r.p == TOP - |Flat(argv) + Flat(envp)|
      ensures r.Ready? ==> Reaches(page[..], r.p) && Holds(page[..], r.p, Flat(argv) + Flat(envp))
      ensures r.Ready? && r.p < 131068 ==> forall i :: 0 <= i < 32 ==> (page[i].Present? <==> r.p / 4096 <= i)
      ensures r == Rejected ==> frames == old(frames) && PagesPresent(page[..]) == 0
      ensures r == Crashed <==> Derails(argv, envp, old(frames))
      ensures |Flat(argv)| + |Flat(envp)| <= TOP ==>
        (r == Crashed <==> argv != [] && old(frames) < MAX_ARG_PAGES - Lowest(TOP - |Flat(envp)|))
      ensures |Flat(argv)| + |Flat(envp)| > TOP && old(frames) >= MAX_ARG_PAGES ==> r == Crashed
    {
      WhenReady(argv, envp, frames);
      WhenDerailed(argv, envp, frames);
      var o := CopyBoth(argv, envp);
      if o == Panic || o == Stray {
        return Crashed;
      }
      var p := if o.Copied? then o.p else 0;
      if p == 0 {
        FreeAll();
        return Rejected;
      }
      return Ready(p);
    }

    method FreeAll()
      requires PagesOk(page[..]) && page.Length == MAX_ARG_PAGES
      modifies page, this`frames
      ensures frames == old(frames + PagesPresent(page[..])) && PagesPresent(page[..]) == 0 && PagesOk(page[..])
    {
      var i := 0;
      while i < MAX_ARG_PAGES
        invariant 0 <= i <= MAX_ARG_PAGES && PagesOk(page[..])
        invariant frames + PagesPresent(page[..]) == old(frames + PagesPresent(page[..]))
        invariant forall j :: 0 <= j < i ==> page[j].Absent?
      {
        ghost var m := page[..];
        PresentUpdate(m, i, Absent);
        if page[i].Present? {
          frames := frames + 1;
          page[i] := Absent;
        }
        assert page[..] == m[i := Absent];
        i := i + 1;
      }
      NonePresent(page[..]);
    }
  }

  /** What do_execve has: the strings at p, the error return, or a kernel that went wrong. */
  datatype Result = Ready(p: nat) | Rejected | Crashed
}
