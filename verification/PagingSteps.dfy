/** The elementary changes that mm/memory.c makes to the tables and the counts.
    Each keeps the invariant and changes the view of at most one page. */
module PagingSteps {
  import opened Counting
  import opened PagingState

  ghost predicate DirsDistinct(s: State)
    requires Shape(s)
  {
    forall d, d' :: HasDir(s, d) && HasDir(s, d') && s.mem[0][d].frame == s.mem[0][d'].frame ==> d == d'
  }

  lemma InvDistinct(s: State)
    requires Inv(s)
    ensures DirsDistinct(s)
  {
    forall d, d' | HasDir(s, d) && HasDir(s, d') && s.mem[0][d].frame == s.mem[0][d'].frame
      ensures d == d'
    {
      DirsInjective(s, d, d');
    }
  }

  /** The same user page tables, word for word. */
  ghost predicate SameTables(s: State, s': State)
    requires Shape(s) && Shape(s') && DirsOk(s) && DirsOk(s')
  {
    && (forall d :: HasDir(s', d) <==> HasDir(s, d))
    && (forall d :: HasDir(s, d) ==> s'.mem[0][d].frame == s.mem[0][d].frame)
    && (forall d, e :: Slot(d, e) && HasDir(s, d) ==> Pte(s', d, e) == Pte(s, d, e))
  }

  lemma SameRefs(s: State, s': State, f: nat)
    requires Shape(s) && Shape(s') && DirsOk(s) && DirsOk(s') && SameTables(s, s')
    ensures Refs(s', f) == Refs(s, f) && DirRefs(s', f) == DirRefs(s, f)
  {
    forall d, e ensures MappedTo(s', d, e, f) <==> MappedTo(s, d, e, f) {
      if Slot(d, e) && HasDir(s, d) {
        assert Pte(s', d, e) == Pte(s, d, e);
      }
    }
    assert forall d :: HasDir(s', d) && s'.mem[0][d].frame == f <==> HasDir(s, d) && s.mem[0][d].frame == f;
  }

  ghost predicate SameMappings(s: State, s': State)
    requires Shape(s) && Shape(s') && DirsOk(s) && DirsOk(s')
  {
    forall d, e :: (Mapped(s', d, e) <==> Mapped(s, d, e))
      && (Mapped(s, d, e) && Mapped(s', d, e) ==> Pte(s', d, e) == Pte(s, d, e))
  }

  lemma EqualMappings(s: State, s': State, f: nat)
    requires Shape(s) && Shape(s') && DirsOk(s) && DirsOk(s')
    requires SameMappings(s, s')
    ensures Refs(s', f) == Refs(s, f)
  {
    assert forall d, e :: MappedTo(s', d, e, f) <==> MappedTo(s, d, e, f);
  }

  /** Writes that spare frame 0 and every page table leave the tables alone. */
  lemma TablesUntouched(s: State, s': State)
    requires Shape(s) && Shape(s') && DirsOk(s) && DirsOk(s')
    requires s'.mem[0] == s.mem[0]
    requires forall d :: HasDir(s, d) ==> s'.mem[s.mem[0][d].frame] == s.mem[s.mem[0][d].frame]
    ensures SameTables(s, s')
  {
  }

  // ---------------------------------------------------------------- one page-table entry

  ghost function SetPte(s: State, d: int, e: int, w: Word): State
    requires Shape(s) && DirsOk(s) && HasDir(s, d) && 0 <= e < ENTRIES
  {
    var t := s.mem[0][d].frame;
    s.(mem := s.mem[t := s.mem[t][e := w]])
  }

  lemma SetPteReads(s: State, d: int, e: int, w: Word)
    requires Shape(s) && DirsOk(s) && DirsDistinct(s) && HasDir(s, d) && 0 <= e < ENTRIES
    ensures var s' := SetPte(s, d, e, w);
      && Shape(s') && DirsOk(s') && DirsDistinct(s') && s'.mem[0] == s.mem[0]
      && (forall d' :: HasDir(s', d') <==> HasDir(s, d'))
      && (forall d', e' :: Slot(d', e') && HasDir(s, d') ==>
            Pte(s', d', e') == if d' == d && e' == e then w else Pte(s, d', e'))
  {
    var s' := SetPte(s, d, e, w);
    assert forall f :: 0 <= f < HIGH ==> |s'.mem[f]| == ENTRIES;
    forall d', e' | Slot(d', e') && HasDir(s, d')
      ensures Pte(s', d', e') == if d' == d && e' == e then w else Pte(s, d', e')
    {
      if s.mem[0][d'].frame == s.mem[0][d].frame {
        assert d' == d;
      }
    }
  }

  lemma SetPteRefs(s: State, d: int, e: int, w: Word, f: nat)
    requires Shape(s) && DirsOk(s) && DirsDistinct(s) && HasDir(s, d) && 0 <= e < ENTRIES
    ensures var s' := SetPte(s, d, e, w);
      && Shape(s') && DirsOk(s')
      && DirRefs(s', f) == DirRefs(s, f)
      && Refs(s', f) == Refs(s, f) - {(d, e)} + (if w.present && w.frame == f then {(d, e)} else {})
  {
    SetPteReads(s, d, e, w);
    var s' := SetPte(s, d, e, w);
    forall d', e'
      ensures MappedTo(s', d', e', f) <==>
        if d' == d && e' == e then w.present && w.frame == f else MappedTo(s, d', e', f)
    {
      if Slot(d', e') && HasDir(s, d') {
        assert Pte(s', d', e') == if d' == d && e' == e then w else Pte(s, d', e');
      }
    }
    assert DirRefs(s', f) == DirRefs(s, f) by {
      assert forall d' :: HasDir(s', d') && s'.mem[0][d'].frame == f <==> HasDir(s, d') && s.mem[0][d'].frame == f;
    }
  }

  /** The page looks the same, has the same frame, and gained no write bit. */
  ghost predicate SamePage(s: State, s': State, d: int, e: int)
    requires Inv(s) && Inv(s')
  {
    && PageView(s', d, e) == PageView(s, d, e) && FrameAt(s', d, e) == FrameAt(s, d, e)
    && (Writable(s', d, e) ==> Writable(s, d, e))
  }

  ghost predicate SameDir(s: State, s': State, d: int)
    requires Inv(s) && Inv(s')
  {
    && (HasDir(s', d) <==> HasDir(s, d))
    && (HasDir(s, d) ==> s'.mem[0][d].frame == s.mem[0][d].frame)
  }

  /** Nothing but the page (d, e) may look different. */
  ghost predicate OnlyPage(s: State, s': State, d: int, e: int)
    requires Inv(s) && Inv(s')
  {
    && (forall d' :: SameDir(s, s', d'))
    && (forall d', e' :: Slot(d', e') && !(d' == d && e' == e) ==> SamePage(s, s', d', e'))
  }

  /** Only the directory entry d may differ, and no page looks different. */
  ghost predicate OnlyDir(s: State, s': State, d: int)
    requires Inv(s) && Inv(s')
  {
    && (forall d' :: d' != d ==> SameDir(s, s', d'))
    && (forall d', e' :: Slot(d', e') ==> SamePage(s, s', d', e'))
  }

  ghost predicate NoPage(s: State, s': State)
    requires Inv(s) && Inv(s')
  {
    && (forall d' :: SameDir(s, s', d'))
    && (forall d', e' :: Slot(d', e') ==> SamePage(s, s', d', e'))
  }

  // ---------------------------------------------------------------- frames

  ghost function Alloc(s: State, f: nat): State
    requires Shape(s) && LOW <= f < HIGH
  {
    State(s.mem[f := ZeroPage()], s.count[f - LOW := 1], s.held + {f})
  }

  lemma AllocStep(s: State, f: nat)
    requires Inv(s) && LOW <= f < HIGH && s.count[f - LOW] == 0
    ensures Inv(Alloc(s, f)) && NoPage(s, Alloc(s, f)) && f !in s.held
  {
    var s' := Alloc(s, f);
    assert Owners(s, f) == 0;
    assert forall g :: 0 <= g < HIGH ==> |s'.mem[g]| == ENTRIES;
    forall d | HasDir(s, d) ensures s.mem[0][d].frame != f {
      assert d in DirRefs(s, s.mem[0][d].frame);
    }
    assert DirsOk(s');
    TablesUntouched(s, s');
    forall g | LOW <= g < HIGH ensures s'.count[g - LOW] == Owners(s', g) {
      assert s.count[g - LOW] == Owners(s, g);
      SameRefs(s, s', g);
    }
    forall d, e | Mapped(s, d, e) ensures Pte(s, d, e).frame != f {
      assert (d, e) in Refs(s, Pte(s, d, e).frame);
    }
    MappedSame(s, s');
  }

  lemma MappedSame(s: State, s': State)
    requires Shape(s) && Shape(s') && DirsOk(s) && DirsOk(s') && SameTables(s, s')
    ensures forall d, e :: Mapped(s', d, e) <==> Mapped(s, d, e)
    ensures forall d, e :: Mapped(s, d, e) ==> Pte(s', d, e) == Pte(s, d, e)
  {
    forall d, e ensures Mapped(s', d, e) <==> Mapped(s, d, e) {
      if Slot(d, e) && HasDir(s, d) {
        assert Pte(s', d, e) == Pte(s, d, e);
      }
    }
  }

  ghost function Release(s: State, f: nat): State
    requires Shape(s) && LOW <= f < HIGH
  {
    s.(count := s.count[f - LOW := 0], held := s.held - {f})
  }

  lemma ReleaseStep(s: State, f: nat)
    requires Inv(s) && f in s.held
    ensures Inv(Release(s, f)) && NoPage(s, Release(s, f))
  {
    var s' := Release(s, f);
    assert Owners(s, f) == 1;
    forall d | HasDir(s, d) ensures s.mem[0][d].frame != f {
      TableFrameIsPrivate(s, d);
    }
    assert DirsOk(s');
    TablesUntouched(s, s');
    MappedSame(s, s');
    forall g | LOW <= g < HIGH ensures s'.count[g - LOW] == Owners(s', g) {
      assert s.count[g - LOW] == Owners(s, g);
      SameRefs(s, s', g);
    }
    forall d, e | Mapped(s, d, e) ensures Pte(s, d, e).frame != f {
      DataFrameIsNotHeld(s, d, e);
    }
  }

  // ---------------------------------------------------------------- directory entries

  ghost predicate EmptyTable(p: Page) {
    forall e :: 0 <= e < |p| ==> !p[e].present
  }

  ghost function LinkDir(s: State, d: int, f: nat): State
    requires Shape(s) && UserDir(d)
  {
    s.(mem := s.mem[0 := s.mem[0][d := Entry7(f)]], held := s.held - {f})
  }

  lemma LinkDirTables(s: State, d: int, f: nat)
    requires Inv(s) && UserDir(d) && !HasDir(s, d) && f in s.held && EmptyTable(s.mem[f])
    ensures var s' := LinkDir(s, d, f);
      && Shape(s') && DirsOk(s') && HasDir(s', d)
      && (forall d' :: HasDir(s', d') <==> HasDir(s, d') || d' == d)
      && SameMappings(s, s')
  {
    var s' := LinkDir(s, d, f);
    assert forall g :: 0 <= g < HIGH ==> |s'.mem[g]| == ENTRIES;
    assert forall d' :: HasDir(s', d') <==> HasDir(s, d') || d' == d;
    assert DirsOk(s');
    forall d', e' ensures Mapped(s', d', e') <==> Mapped(s, d', e') {
      if Slot(d', e') && d' != d && HasDir(s, d') {
        assert Pte(s', d', e') == Pte(s, d', e');
      }
    }
  }

  lemma LinkDirRefs(s: State, d: int, f: nat, g: nat)
    requires Shape(s) && UserDir(d) && !HasDir(s, d) && 0 < f
    ensures Shape(LinkDir(s, d, f)) && d !in DirRefs(s, g)
    ensures DirRefs(LinkDir(s, d, f), g) == DirRefs(s, g) + (if g == f then {d} else {})
  {
    var s' := LinkDir(s, d, f);
    assert forall h :: 0 <= h < HIGH ==> |s'.mem[h]| == ENTRIES;
    assert s'.mem[0] == s.mem[0][d := Entry7(f)];
    assert forall d' :: HasDir(s', d') <==> HasDir(s, d') || d' == d;
  }

  lemma LinkDirCount(s: State, d: int, f: nat, g: nat)
    requires Inv(s) && UserDir(d) && !HasDir(s, d) && f in s.held && EmptyTable(s.mem[f])
    requires LOW <= g < HIGH
    ensures Shape(LinkDir(s, d, f)) && DirsOk(LinkDir(s, d, f))
    ensures LinkDir(s, d, f).count[g - LOW] == Owners(LinkDir(s, d, f), g)
  {
    LinkDirTables(s, d, f);
    EqualMappings(s, LinkDir(s, d, f), g);
    LinkDirRefs(s, d, f, g);
    assert s.count[g - LOW] == Owners(s, g);
  }

  lemma LinkDirStep(s: State, d: int, f: nat)
    requires Inv(s) && UserDir(d) && !HasDir(s, d) && f in s.held && EmptyTable(s.mem[f])
    ensures Inv(LinkDir(s, d, f)) && OnlyDir(s, LinkDir(s, d, f), d) && HasDir(LinkDir(s, d, f), d)
  {
    LinkDirTables(s, d, f);
    forall g | LOW <= g < HIGH ensures LinkDir(s, d, f).count[g - LOW] == Owners(LinkDir(s, d, f), g) {
      LinkDirCount(s, d, f, g);
    }
  }

  ghost function UnlinkDir(s: State, d: int): State
    requires Shape(s) && DirsOk(s) && HasDir(s, d)
  {
    s.(mem := s.mem[0 := s.mem[0][d := ZERO]], count := s.count[s.mem[0][d].frame - LOW := 0])
  }

  lemma UnlinkDirTables(s: State, d: int)
    requires Inv(s) && HasDir(s, d) && EmptyTable(s.mem[s.mem[0][d].frame])
    ensures var s' := UnlinkDir(s, d);
      && Shape(s') && DirsOk(s')
      && (forall d' :: HasDir(s', d') <==> HasDir(s, d') && d' != d)
      && SameMappings(s, s')
  {
    var f := s.mem[0][d].frame;
    var s' := UnlinkDir(s, d);
    assert forall g :: 0 <= g < HIGH ==> |s'.mem[g]| == ENTRIES;
    assert forall d' :: HasDir(s', d') <==> HasDir(s, d') && d' != d;
    forall d' | HasDir(s', d') ensures s.mem[0][d'].frame != f {
      InvDistinct(s);
    }
    assert DirsOk(s');
    forall d', e' ensures Mapped(s', d', e') <==> Mapped(s, d', e') {
      if Slot(d', e') && d' != d && HasDir(s, d') {
        assert Pte(s', d', e') == Pte(s, d', e');
      }
    }
  }

  lemma UnlinkDirCount(s: State, d: int, g: nat)
    requires Inv(s) && HasDir(s, d) && EmptyTable(s.mem[s.mem[0][d].frame])
    requires LOW <= g < HIGH
    ensures var s' := UnlinkDir(s, d); Shape(s') && DirsOk(s') && s'.count[g - LOW] == Owners(s', g)
  {
    var f := s.mem[0][d].frame;
    var s' := UnlinkDir(s, d);
    UnlinkDirTables(s, d);
    TableFrameIsPrivate(s, d);
    assert s.count[g - LOW] == Owners(s, g);
    EqualMappings(s, s', g);
    assert DirRefs(s', g) == if g == f then {} else DirRefs(s, g);
  }

  lemma UnlinkDirStep(s: State, d: int)
    requires Inv(s) && HasDir(s, d) && EmptyTable(s.mem[s.mem[0][d].frame])
    ensures Inv(UnlinkDir(s, d)) && OnlyDir(s, UnlinkDir(s, d), d)
  {
    UnlinkDirTables(s, d);
    forall g | LOW <= g < HIGH ensures UnlinkDir(s, d).count[g - LOW] == Owners(UnlinkDir(s, d), g) {
      UnlinkDirCount(s, d, g);
    }
    forall d', e' | Mapped(s, d', e') ensures Pte(s, d', e').frame != s.mem[0][d].frame {
      DataFrameIsNoTable(s, d', e', d);
    }
    forall f | f in s.held ensures f != s.mem[0][d].frame {
      TableFrameIsPrivate(s, d);
    }
  }

  // ---------------------------------------------------------------- page-table entries

  lemma InRefs(s: State, d: int, e: int, f: nat)
    requires Shape(s) && DirsOk(s)
    ensures (d, e) in Refs(s, f) <==> MappedTo(s, d, e, f)
  {
  }

  lemma OwnersChange(s: State, s': State, f: nat, x: (int, int), add: bool)
    requires Shape(s) && DirsOk(s) && Shape(s') && DirsOk(s') && s'.held == s.held
    requires Refs(s', f) == Refs(s, f) - {x} + (if add then {x} else {})
    requires DirRefs(s', f) == DirRefs(s, f)
    ensures Owners(s', f) == Owners(s, f) - One(x in Refs(s, f)) + One(add)
  {
    CardReplace(Refs(s, f), x, add);
  }

  lemma SetPteOwners(s: State, d: int, e: int, w: Word, f: nat)
    requires Shape(s) && DirsOk(s) && DirsDistinct(s) && HasDir(s, d) && 0 <= e < ENTRIES
    ensures Shape(SetPte(s, d, e, w)) && DirsOk(SetPte(s, d, e, w))
    ensures Owners(SetPte(s, d, e, w), f)
         == Owners(s, f) - One(MappedTo(s, d, e, f)) + One(w.present && w.frame == f)
  {
    SetPteRefs(s, d, e, w, f);
    InRefs(s, d, e, f);
    OwnersChange(s, SetPte(s, d, e, w), f, (d, e), w.present && w.frame == f);
  }

  ghost function LinkPte(s: State, d: int, e: int, f: nat): State
    requires Shape(s) && DirsOk(s) && HasDir(s, d) && 0 <= e < ENTRIES
  {
    SetPte(s, d, e, Entry7(f)).(held := s.held - {f})
  }

  lemma LinkPteTables(s: State, d: int, e: int, f: nat)
    requires Inv(s) && HasDir(s, d) && 0 <= e < ENTRIES && !Mapped(s, d, e) && f in s.held
    ensures var s' := LinkPte(s, d, e, f);
      && Shape(s') && DirsOk(s')
      && (forall d', e' :: Mapped(s', d', e') <==> Mapped(s, d', e') || (d' == d && e' == e))
      && (forall d', e' :: Mapped(s', d', e') ==>
            Pte(s', d', e') == if d' == d && e' == e then Entry7(f) else Pte(s, d', e'))
  {
    InvDistinct(s);
    SetPteReads(s, d, e, Entry7(f));
    TablesUntouched(SetPte(s, d, e, Entry7(f)), LinkPte(s, d, e, f));
    MappedSame(SetPte(s, d, e, Entry7(f)), LinkPte(s, d, e, f));
  }

  /** The kernel gives up a frame: that one owner is gone. */
  lemma GivenUp(s: State, s': State, f: nat, g: nat)
    requires Shape(s) && DirsOk(s) && s' == s.(held := s.held - {f}) && f in s.held
    ensures Shape(s') && DirsOk(s') && Owners(s', g) == Owners(s, g) - One(g == f)
  {
    TablesUntouched(s, s');
    SameRefs(s, s', g);
  }

  lemma LinkPteCount(s: State, d: int, e: int, f: nat, g: nat)
    requires Inv(s) && HasDir(s, d) && 0 <= e < ENTRIES && !Mapped(s, d, e) && f in s.held && LOW <= g < HIGH
    ensures Shape(LinkPte(s, d, e, f)) && DirsOk(LinkPte(s, d, e, f))
    ensures LinkPte(s, d, e, f).count[g - LOW] == Owners(LinkPte(s, d, e, f), g)
  {
    var s1 := SetPte(s, d, e, Entry7(f));
    InvDistinct(s);
    SetPteOwners(s, d, e, Entry7(f), g);
    GivenUp(s1, LinkPte(s, d, e, f), f, g);
    assert s.count[g - LOW] == Owners(s, g);
  }

  lemma LinkPteStep(s: State, d: int, e: int, f: nat)
    requires Inv(s) && HasDir(s, d) && 0 <= e < ENTRIES && !Mapped(s, d, e) && f in s.held
    ensures var s' := LinkPte(s, d, e, f);
      && Inv(s') && OnlyPage(s, s', d, e) && PageView(s', d, e) == Own(s.mem[f]) && FrameAt(s', d, e) == f
      && HasDir(s', d)
  {
    LinkPteTables(s, d, e, f);
    forall g | LOW <= g < HIGH ensures LinkPte(s, d, e, f).count[g - LOW] == Owners(LinkPte(s, d, e, f), g) {
      LinkPteCount(s, d, e, f, g);
    }
    forall d', e' | Mapped(s, d', e')
      ensures Pte(s, d', e').frame != f && Pte(s, d', e').frame != s.mem[0][d].frame
    {
      DataFrameIsNotHeld(s, d', e');
      DataFrameIsNoTable(s, d', e', d);
    }
    TableFrameIsPrivate(s, d);
  }

  /** An entry is cleared and the frame it named loses one reference. */
  ghost function ClearPte(s: State, d: int, e: int): State
    requires Shape(s) && DirsOk(s) && EntriesOk(s) && HasDir(s, d) && 0 <= e < ENTRIES
  {
    var w := Pte(s, d, e);
    var s1 := SetPte(s, d, e, ZERO);
    if w.present && w.frame >= LOW then
      s1.(count := s.count[w.frame - LOW := if s.count[w.frame - LOW] > 0 then s.count[w.frame - LOW] - 1 else 0])
    else s1
  }

  lemma MappedIsCounted(s: State, d: int, e: int)
    requires Inv(s) && Mapped(s, d, e) && LOW <= Pte(s, d, e).frame
    ensures 1 <= s.count[Pte(s, d, e).frame - LOW]
  {
    var f := Pte(s, d, e).frame;
    assert (d, e) in Refs(s, f);
    assert s.count[f - LOW] == Owners(s, f);
  }

  lemma ClearPteTables(s: State, d: int, e: int)
    requires Inv(s) && HasDir(s, d) && 0 <= e < ENTRIES
    ensures var s' := ClearPte(s, d, e);
      && Shape(s') && DirsOk(s')
      && (forall d' :: HasDir(s', d') <==> HasDir(s, d'))
      && (forall d', e' :: Mapped(s', d', e') <==> Mapped(s, d', e') && !(d' == d && e' == e))
      && (forall d', e' :: Mapped(s', d', e') ==> Pte(s', d', e') == Pte(s, d', e'))
  {
    InvDistinct(s);
    SetPteReads(s, d, e, ZERO);
    var s' := ClearPte(s, d, e);
    if Mapped(s, d, e) {
      forall d' | HasDir(s, d') ensures s.mem[0][d'].frame != Pte(s, d, e).frame {
        DataFrameIsNoTable(s, d, e, d');
      }
    }
    assert s'.mem == SetPte(s, d, e, ZERO).mem;
    assert DirsOk(s');
    TablesUntouched(SetPte(s, d, e, ZERO), s');
    MappedSame(SetPte(s, d, e, ZERO), s');
  }

  lemma ClearPteCount(s: State, d: int, e: int, g: nat)
    requires Inv(s) && HasDir(s, d) && 0 <= e < ENTRIES && LOW <= g < HIGH
    ensures var s' := ClearPte(s, d, e); Shape(s') && DirsOk(s') && s'.count[g - LOW] == Owners(s', g)
  {
    InvDistinct(s);
    ClearPteTables(s, d, e);
    SetPteReads(s, d, e, ZERO);
    if Mapped(s, d, e) && LOW <= Pte(s, d, e).frame { MappedIsCounted(s, d, e); }
    assert s.count[g - LOW] == Owners(s, g);
    SetPteOwners(s, d, e, ZERO, g);
    TablesUntouched(SetPte(s, d, e, ZERO), ClearPte(s, d, e));
    SameRefs(SetPte(s, d, e, ZERO), ClearPte(s, d, e), g);
  }

  lemma ClearPteStep(s: State, d: int, e: int)
    requires Inv(s) && HasDir(s, d) && 0 <= e < ENTRIES
    ensures var s' := ClearPte(s, d, e);
      && Inv(s') && OnlyPage(s, s', d, e) && PageView(s', d, e) == Absent
  {
    ClearPteTables(s, d, e);
    var s' := ClearPte(s, d, e);
    var w := Pte(s, d, e);
    forall g | LOW <= g < HIGH ensures s'.count[g - LOW] == Owners(s', g) {
      ClearPteCount(s, d, e, g);
    }
    forall d', e' | Mapped(s, d', e') ensures Pte(s, d', e').frame != s.mem[0][d].frame {
      DataFrameIsNoTable(s, d', e', d);
    }
    forall f | f in s.held ensures s.mem[0][d].frame != f {
      TableFrameIsPrivate(s, d);
    }
    if Mapped(s, d, e) {
      DataFrameIsNotHeld(s, d, e);
      assert (d, e) in Refs(s, w.frame);
      forall d', e' | Mapped(s', d', e') && Pte(s', d', e').rw ensures Pte(s', d', e').frame != w.frame {
        if Pte(s', d', e').frame == w.frame {
          SoleOwner(s, d', e');
        }
      }
    }
  }

  /** The last reference of two is shared: both entries lose the right to write. */
  ghost function Share(s: State, d: int, d2: int, e: int): State
    requires Shape(s) && DirsOk(s) && HasDir(s, d) && HasDir(s, d2) && 0 <= e < ENTRIES
    requires LOW <= Pte(s, d, e).frame < HIGH
  {
    var w := Pte(s, d, e).(rw := false);
    var s1 := SetPte(s, d2, e, w);
    var t := s.mem[0][d].frame;
    s1.(mem := s1.mem[t := s1.mem[t][e := w]], count := s.count[w.frame - LOW := s.count[w.frame - LOW] + 1])
  }

  lemma ShareTables(s: State, d: int, d2: int, e: int)
    requires Inv(s) && HasDir(s, d2) && Mapped(s, d, e) && !Mapped(s, d2, e)
    requires LOW <= Pte(s, d, e).frame
    ensures var s' := Share(s, d, d2, e);
      && Shape(s') && DirsOk(s')
      && (forall d' :: HasDir(s', d') <==> HasDir(s, d'))
      && (forall d', e' :: Mapped(s', d', e') <==> Mapped(s, d', e') || (d' == d2 && e' == e))
      && (forall d', e' :: Mapped(s', d', e') ==>
            Pte(s', d', e') == if (d' == d || d' == d2) && e' == e then Pte(s, d, e).(rw := false)
                               else Pte(s, d', e'))
  {
    InvDistinct(s);
    var w := Pte(s, d, e).(rw := false);
    SetPteReads(s, d2, e, w);
    var s1 := SetPte(s, d2, e, w);
    SetPteReads(s1, d, e, w);
    var s2 := SetPte(s1, d, e, w);
    var s' := Share(s, d, d2, e);
    forall d' | HasDir(s, d') ensures s.mem[0][d'].frame != w.frame {
      DataFrameIsNoTable(s, d, e, d');
    }
    assert s'.mem == s2.mem;
    assert DirsOk(s');
    TablesUntouched(s2, s');
    MappedSame(s2, s');
  }

  lemma ShareCount(s: State, d: int, d2: int, e: int, g: nat)
    requires Inv(s) && HasDir(s, d2) && Mapped(s, d, e) && !Mapped(s, d2, e)
    requires LOW <= Pte(s, d, e).frame && LOW <= g < HIGH
    ensures var s' := Share(s, d, d2, e); Shape(s') && DirsOk(s') && s'.count[g - LOW] == Owners(s', g)
  {
    InvDistinct(s);
    ShareTables(s, d, d2, e);
    var w := Pte(s, d, e).(rw := false);
    SetPteReads(s, d2, e, w);
    var s1 := SetPte(s, d2, e, w);
    SetPteReads(s1, d, e, w);
    var s2 := SetPte(s1, d, e, w);
    assert s.count[g - LOW] == Owners(s, g);
    SetPteOwners(s, d2, e, w, g);
    SetPteOwners(s1, d, e, w, g);
    assert MappedTo(s1, d, e, g) <==> MappedTo(s, d, e, g);
    var s' := Share(s, d, d2, e);
    assert s'.mem == s2.mem && s'.held == s2.held;
    TablesUntouched(s2, s');
    SameRefs(s2, s', g);
  }

  lemma ShareEntries(s: State, d: int, d2: int, e: int)
    requires Inv(s) && HasDir(s, d2) && Mapped(s, d, e) && !Mapped(s, d2, e)
    requires LOW <= Pte(s, d, e).frame && d % DIRS == d2 % DIRS
    ensures var s' := Share(s, d, d2, e); Shape(s') && DirsOk(s') && EntriesOk(s') && HeldOk(s') && Aligned(s')
  {
    ShareTables(s, d, d2, e);
    var s', f := Share(s, d, d2, e), Pte(s, d, e).frame;
    DataFrameIsNotHeld(s, d, e);
    assert (d, e) in Refs(s, f);
    forall d', e' | Mapped(s', d', e') && Pte(s', d', e').rw ensures Pte(s', d', e').frame != f {
      if Pte(s', d', e').frame == f {
        SoleOwner(s, d', e');
      }
    }
  }

  lemma ShareStep(s: State, d: int, d2: int, e: int)
    requires Inv(s) && HasDir(s, d2) && Mapped(s, d, e) && !Mapped(s, d2, e)
    requires LOW <= Pte(s, d, e).frame && d % DIRS == d2 % DIRS
    ensures var s' := Share(s, d, d2, e);
      && Inv(s') && OnlyPage(s, s', d2, e) && PageView(s', d2, e) == PageView(s, d, e)
      && FrameAt(s', d2, e) == FrameAt(s, d, e)
  {
    ShareEntries(s, d, d2, e);
    var s' := Share(s, d, d2, e);
    forall g | LOW <= g < HIGH ensures s'.count[g - LOW] == Owners(s', g) {
      ShareCount(s, d, d2, e, g);
    }
    ShareViews(s, d, d2, e);
  }

  lemma ShareViews(s: State, d: int, d2: int, e: int)
    requires Inv(s) && HasDir(s, d2) && Mapped(s, d, e) && !Mapped(s, d2, e)
    requires LOW <= Pte(s, d, e).frame && Inv(Share(s, d, d2, e))
    ensures var s' := Share(s, d, d2, e);
      && OnlyPage(s, s', d2, e) && PageView(s', d2, e) == PageView(s, d, e) && FrameAt(s', d2, e) == FrameAt(s, d, e)
  {
    ShareTables(s, d, d2, e);
    forall d', e' | Mapped(s, d', e')
      ensures Pte(s, d', e').frame != s.mem[0][d].frame && Pte(s, d', e').frame != s.mem[0][d2].frame
    {
      DataFrameIsNoTable(s, d', e', d);
      DataFrameIsNoTable(s, d', e', d2);
    }
  }

  /** A low frame is shared with the kernel, read-only and uncounted. */
  lemma ShareLowStep(s: State, d2: int, e: int, w: Word)
    requires Inv(s) && HasDir(s, d2) && 0 <= e < ENTRIES && !Mapped(s, d2, e)
    requires w.present && w.frame < LOW && !w.rw
    ensures var s' := SetPte(s, d2, e, w);
      && Inv(s') && OnlyPage(s, s', d2, e) && PageView(s', d2, e) == Low(w.frame)
  {
    InvDistinct(s);
    SetPteReads(s, d2, e, w);
    var s' := SetPte(s, d2, e, w);
    forall g | LOW <= g < HIGH ensures s'.count[g - LOW] == Owners(s', g) {
      assert s.count[g - LOW] == Owners(s, g);
      SetPteOwners(s, d2, e, w, g);
    }
    forall d', e' | Mapped(s, d', e') ensures Pte(s, d', e').frame != s.mem[0][d2].frame {
      DataFrameIsNoTable(s, d', e', d2);
    }
    assert forall d', e' :: Mapped(s', d', e') <==> Mapped(s, d', e') || (d' == d2 && e' == e);
  }

  /** The only owner of a frame gets the right to write back. */
  lemma GrantStep(s: State, d: int, e: int)
    requires Inv(s) && Mapped(s, d, e) && LOW <= Pte(s, d, e).frame && s.count[Pte(s, d, e).frame - LOW] == 1
    ensures var s' := SetPte(s, d, e, Pte(s, d, e).(rw := true));
      && Inv(s') && OnlyPage(s, s', d, e) && PageView(s', d, e) == PageView(s, d, e)
      && FrameAt(s', d, e) == FrameAt(s, d, e)
  {
    var w := Pte(s, d, e).(rw := true);
    InvDistinct(s);
    SetPteReads(s, d, e, w);
    var s' := SetPte(s, d, e, w);
    forall g | LOW <= g < HIGH ensures s'.count[g - LOW] == Owners(s', g) {
      assert s.count[g - LOW] == Owners(s, g);
      SetPteOwners(s, d, e, w, g);
    }
    forall d', e' | Mapped(s, d', e') ensures Pte(s, d', e').frame != s.mem[0][d].frame {
      DataFrameIsNoTable(s, d', e', d);
    }
    assert forall d', e' :: Mapped(s', d', e') <==> Mapped(s, d', e');
  }

  // ---------------------------------------------------------------- contents

  /** The contents of a frame that holds no table change. */
  lemma WriteStep(s: State, f: nat, page: Page)
    requires Inv(s) && 0 < f < HIGH && |page| == ENTRIES
    requires forall d :: HasDir(s, d) ==> s.mem[0][d].frame != f
    ensures var s' := s.(mem := s.mem[f := page]);
      && Inv(s') && SameMappings(s, s')
      && (forall d :: SameDir(s, s', d))
      && (forall d, e :: Slot(d, e) ==> FrameAt(s', d, e) == FrameAt(s, d, e))
      && (forall d, e :: Slot(d, e) && !(f >= LOW && MappedTo(s, d, e, f)) ==> PageView(s', d, e) == PageView(s, d, e))
  {
    var s' := s.(mem := s.mem[f := page]);
    assert forall g :: 0 <= g < HIGH ==> |s'.mem[g]| == ENTRIES;
    assert DirsOk(s');
    TablesUntouched(s, s');
    MappedSame(s, s');
    forall g | LOW <= g < HIGH ensures s'.count[g - LOW] == Owners(s', g) {
      assert s.count[g - LOW] == Owners(s, g);
      SameRefs(s, s', g);
    }
  }
}
