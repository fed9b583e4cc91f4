/** Reference-count conservation: each object's count is the number of references that callers hold
    plus the number of owning slots that point at it, through arbitrarily deep cascades. */
module Counts {
  import opened Options
  import opened Classes
  import opened Heaps
  import opened Cascade

  /** A slot of a particular object. */
  datatype Edge = Edge(holder: Ref, slot: Slot)

  ghost function Edges(h: Heap): set<Edge> {
    set r, s | r in h.objs && s in {WeakSlot, CauseSlot, CSlot} :: Edge(r, s)
  }

  ghost function Points(h: Heap, e: Edge): Option<Ref>
    requires e.holder in h.objs
  {
    Get(h.objs[e.holder].body, e.slot)
  }

  /** The owning slots that point at `o`, except those whose reference has been handed to a call that
      is still running. */
  ghost function Owners(h: Heap, o: Ref, given: set<Edge>): set<Edge> {
    set e | e in Edges(h) && e !in given && Points(h, e) == Some(o)
  }

  /** Callers hold `held`; every count is what callers and slots account for. */
  ghost predicate Counted(h: Heap, held: multiset<Ref>, given: set<Edge>) {
    && (forall r :: r in held ==> r in h.objs)
    && (forall e :: e in Edges(h) && Points(h, e).Some? ==> Points(h, e).value in h.objs)
    && (forall o {:trigger Owners(h, o, given)} :: o in h.objs ==>
          h.objs[o].refcount == held[o] + |Owners(h, o, given)|)
  }

  /** A slot's share is handed over to the call that is about to drop it. */
  lemma CountsHandOver(h: Heap, held: multiset<Ref>, given: set<Edge>, e: Edge, t: Ref)
    requires Counted(h, held, given)
    requires e in Edges(h) && e !in given && Points(h, e) == Some(t)
    ensures t in h.objs && Counted(h, held + multiset{t}, given + {e})
  {
    forall o | o in h.objs
      ensures h.objs[o].refcount == (held + multiset{t})[o] + |Owners(h, o, given + {e})|
    {
      if o == t {
        assert Owners(h, o, given) == Owners(h, o, given + {e}) + {e};
      } else {
        assert Owners(h, o, given) == Owners(h, o, given + {e});
      }
    }
  }

  /** Nulling a slot whose share has been handed over. */
  lemma CountsNull(h: Heap, held: multiset<Ref>, given: set<Edge>, e: Edge)
    requires Counted(h, held, given + {e}) && e in Edges(h) && e !in given
    ensures Counted(SetSlot(h, e.holder, e.slot, None), held, given)
  {
    var h' := SetSlot(h, e.holder, e.slot, None);
    assert Edges(h') == Edges(h);
    forall d | d in Edges(h)
      ensures Points(h', d) == if d == e then None else Points(h, d)
    {}
    forall o | o in h.objs
      ensures Owners(h', o, given) == Owners(h, o, given + {e})
    {}
  }

  /** One reference is dropped. */
  lemma CountsDrop(h: Heap, held: multiset<Ref>, given: set<Edge>, r: Ref)
    requires Counted(h, held + multiset{r}, given)
    ensures r in h.objs && h.objs[r].refcount > 0
    ensures Counted(SetCount(h, r, h.objs[r].refcount - 1), held, given)
  {
    assert r in held + multiset{r};
    assert h.objs[r].refcount == (held + multiset{r})[r] + |Owners(h, r, given)|;
    var h' := SetCount(h, r, h.objs[r].refcount - 1);
    assert Edges(h') == Edges(h);
    forall o | o in h.objs
      ensures Owners(h', o, given) == Owners(h, o, given)
    {}
  }

  /** Writes that touch neither counts nor slots. */
  lemma CountsKept(h: Heap, h': Heap, held: multiset<Ref>, given: set<Edge>)
    requires Counted(h, held, given) && h'.objs.Keys == h.objs.Keys
    requires forall x :: x in h.objs ==> h'.objs[x].refcount == h.objs[x].refcount
    requires forall x, s :: x in h.objs ==> Get(h'.objs[x].body, s) == Get(h.objs[x].body, s)
    ensures Counted(h', held, given)
  {
    assert Edges(h') == Edges(h);
    forall e | e in Edges(h)
      ensures Points(h', e) == Points(h, e)
    {}
    forall o | o in h.objs
      ensures Owners(h', o, given) == Owners(h, o, given)
    {}
  }

  // ---------------------------------------------------------------------------------------
  // Clear chains release every slot
  // ---------------------------------------------------------------------------------------

  /** The clear method that releases a slot. */
  ghost function Releaser(s: Slot): Method<ClearExec> {
    match s
    case WeakSlot => Method(ObjectT, ObjectClear)
    case CauseSlot => Method(ErrorT, ErrorClear)
    case CSlot => Method(DeltaT, DeltaClear)
  }

  /** An object's class is known, and knows how to release each slot that the object uses. */
  ghost predicate Covered(h: Heap, b: Body) {
    b.ty in h.types && forall s :: Get(b, s).Some? ==> Releaser(s) in ClearList(h, b.ty)
  }

  lemma {:induction false} ClearErrorReleases(h: Heap, r: Ref)
    requires r in h.objs && PoolsSound(h) && ErrorT in h.types && h.objs[r].body.ty == ErrorT
    ensures ClearError(h, r).objs[r].body.cause == None
  {
    hide PoolsSound, Frame, Release;
    var h1 := SetData(h, r, h.objs[r].body.data.(code := 0, description := None));
    PoolsSoundKept(h, h1);
    ReleaseFrame(h1, r, CauseSlot);
  }

  lemma ClearDeltaReleases(h: Heap, r: Ref)
    requires r in h.objs && PoolsSound(h) && DeltaT in h.types && h.objs[r].body.ty == DeltaT
    ensures ClearDelta(h, r, true).objs[r].body.c == None
  {
    hide PoolsSound, Frame, Release;
    var h1 := SetData(h, r, h.objs[r].body.data.(b := None));
    PoolsSoundKept(h, h1);
    ReleaseFrame(h1, r, CSlot);
  }

  lemma ExecClearReleases(h: Heap, r: Ref, s: Slot)
    requires r in h.objs && PoolsSound(h) && Releaser(s).ty in h.types
    requires h.objs[r].body.ty == Releaser(s).ty
    ensures Get(ExecClear(h, r, Releaser(s).exec, true).objs[r].body, s) == None
  {
    hide PoolsSound, Release, ClearError, ClearDelta;
    match s
    case WeakSlot => ReleaseFrame(h, r, WeakSlot);
    case CauseSlot => ClearErrorReleases(h, r);
    case CSlot => ClearDeltaReleases(h, r);
  }

  lemma ClearStepReleases(h: Heap, r: Ref, m: Method<ClearExec>, s: Slot)
    requires r in h.objs && PoolsSound(h) && Releaser(s).ty in h.types
    requires Get(h.objs[r].body, s) == None || m == Releaser(s)
    ensures Get(ExecClear(Bless(h, r, m.ty), r, m.exec, true).objs[r].body, s) == None
  {
    hide PoolsSound, Frame, ExecClear;
    if m == Releaser(s) {
      PoolsSoundKept(h, Bless(h, r, m.ty));
      ExecClearReleases(Bless(h, r, m.ty), r, s);
    } else {
      ClearStepFrame(h, r, m, true);
      FrameAt(h, ExecClear(Bless(h, r, m.ty), r, m.exec, true), {r}, r);
    }
  }

  lemma {:induction false} ClearFromReleases(h: Heap, r: Ref, chain: seq<Method<ClearExec>>, i: nat, s: Slot)
    requires r in h.objs && i <= |chain| && PoolsSound(h) && Releaser(s).ty in h.types
    requires Get(h.objs[r].body, s) == None || Releaser(s) in chain[..i]
    ensures Get(ClearFrom(h, r, chain, i, true).objs[r].body, s) == None
    decreases i
  {
    hide PoolsSound, Frame, ExecClear, Bless;
    if i > 0 {
      var m := chain[i - 1];
      var h1 := ExecClear(Bless(h, r, m.ty), r, m.exec, true);
      ClearStepFrame(h, r, m, true);
      FrameAt(h, h1, {r}, r);
      if Get(h.objs[r].body, s) == None || m == Releaser(s) {
        ClearStepReleases(h, r, m, s);
      } else {
        assert chain[..i] == chain[..i - 1] + [m];
      }
      ClearFromReleases(h1, r, chain, i - 1, s);
    }
  }

  lemma EntryTyped(h: Heap, ty: TypeId, m: Method<ClearExec>)
    requires Sound(h.types) && m in ClearList(h, ty)
    ensures m.ty in h.types
  {}

  /** The clear chain of an object leaves none of its slots set, wherever in the chain the class that
      owns the slot comes. */
  lemma ClearObjectReleases(h: Heap, r: Ref)
    requires r in h.objs && PoolsSound(h) && Covered(h, h.objs[r].body)
    requires Sound(h.types)
    ensures forall s :: Get(ClearObject(h, r, true).objs[r].body, s) == None
  {
    hide PoolsSound, ClearFrom, Sound;
    var chain := ClearList(h, h.objs[r].body.ty);
    forall s
      ensures Get(ClearObject(h, r, true).objs[r].body, s) == None
    {
      if chain != [] && Get(h.objs[r].body, s).Some? {
        EntryTyped(h, h.objs[r].body.ty, Releaser(s));
        assert chain[..|chain|] == chain;
        ClearFromReleases(h, r, chain, |chain|, s);
      } else {
        ClearObjectFrame(h, r, true);
        FrameAt(h, ClearObject(h, r, true), {r}, r);
      }
    }
  }

  // ---------------------------------------------------------------------------------------
  // The invariant of a cascade
  // ---------------------------------------------------------------------------------------

  /** An object that is not just being cleared is either live, and of a class that can release its
      slots, or it is gone: deleted, with every slot null. */
  ghost predicate Settled(h: Heap, o: Obj) {
    if o.refcount > 0 then !o.body.deleted && Covered(h, o.body)
    else o.body.deleted && forall s :: Get(o.body, s) == None
  }

  /** The state of the heap in the middle of a cascade. The objects in `busy` are being cleared; the
      slots in `given`, all of busy objects, are about to be nulled. */
  ghost predicate Balanced(h: Heap, held: multiset<Ref>, given: set<Edge>, busy: set<Ref>) {
    && Sound(h.types)
    && PoolsSound(h)
    && Counted(h, held, given)
    && (forall r :: r in h.objs && r !in busy ==> Settled(h, h.objs[r]))
    && (forall e :: e in given ==> e.holder in busy)
  }

  /** A busy object cannot be destroyed under the call that is clearing it: its count is zero already,
      or a caller holds on to it. */
  ghost predicate Pinned(h: Heap, held: multiset<Ref>, busy: set<Ref>) {
    forall r :: r in busy ==> Alive(h, r) && (h.objs[r].refcount == 0 || r in held)
  }

  lemma CoveredKept(h: Heap, h': Heap, b: Body)
    requires h'.types == h.types
    ensures Covered(h, b) <==> Covered(h', b)
  {}

  /** Writing members or class of a busy object. */
  lemma BalancedWrite(h: Heap, r: Ref, b: Body, held: multiset<Ref>, given: set<Edge>, busy: set<Ref>)
    requires Balanced(h, held, given, busy) && Pinned(h, held, busy) && r in busy
    requires var was := h.objs[r].body;
             && b.pool == was.pool && b.deleted == was.deleted && b.teardowns == was.teardowns
             && forall s :: Get(b, s) == Get(was, s)
    ensures Balanced(SetBody(h, r, b), held, given, busy) && Pinned(SetBody(h, r, b), held, busy)
  {
    hide PoolsSound, Counted, Sound;
    var h' := SetBody(h, r, b);
    PoolsSoundKept(h, h');
    CountsKept(h, h', held, given);
    forall x | x in h'.objs && x !in busy
      ensures Settled(h', h'.objs[x])
    {
      assert Settled(h, h.objs[x]);
    }
  }

  /** Dropping a reference that the caller holds keeps every count right: the whole cascade it sets off
      gives back exactly the references that the destroyed objects held. */
  lemma {:induction false} UnrefBalances(h: Heap, r: Ref, held: multiset<Ref>, given: set<Edge>, busy: set<Ref>)
    requires Balanced(h, held + multiset{r}, given, busy) && Pinned(h, held, busy)
    ensures Balanced(Unref(h, r), held, given, busy) && Pinned(Unref(h, r), held, busy)
    decreases Positive(h), 0
  {
    hide PoolsSound, Counted, Settled, Sound, Destroy, Unset, Frame;
    CountsDrop(h, held, given, r);
    var h1 := SetCount(h, r, h.objs[r].refcount - 1);
    DecrementFrame(h, r);
    if h1.objs[r].refcount > 0 {
      DecrementSettles(h, h1, r, busy);
    } else {
      var h2 := Unset(h1, h1.objs[r].body.weakRef);
      UnsetSettles(h, r, held, given, busy);
      assert r in Positive(h) && r !in Positive(h2);
      NotGiven(r, given, busy);
      DestroyBalances(h2, r, held, given, busy);
    }
  }

  lemma NotGiven(r: Ref, given: set<Edge>, busy: set<Ref>)
    requires r !in busy && forall e :: e in given ==> e.holder in busy
    ensures Owning(r, given)
  {}

  lemma DecrementSettles(h: Heap, h1: Heap, r: Ref, busy: set<Ref>)
    requires r in h.objs && h.objs[r].refcount > 1 && h1 == SetCount(h, r, h.objs[r].refcount - 1)
    requires forall x :: x in h.objs && x !in busy ==> Settled(h, h.objs[x])
    ensures forall x :: x in h1.objs && x !in busy ==> Settled(h1, h1.objs[x])
  {}

  /** A busy object never loses its last reference. */
  lemma LastIsNotBusy(h: Heap, r: Ref, held: multiset<Ref>, given: set<Edge>, busy: set<Ref>)
    requires r in h.objs && h.objs[r].refcount == 1 && Pinned(h, held, busy)
    requires Counted(SetCount(h, r, 0), held, given)
    ensures r !in busy
  {
    var h1 := SetCount(h, r, 0);
    assert h1.objs[r].refcount == held[r] + |Owners(h1, r, given)|;
  }

  lemma PinnedLater(h: Heap, h': Heap, r: Ref, held: multiset<Ref>, busy: set<Ref>)
    requires Pinned(h, held, busy) && r !in busy && Alive(h', r) && h'.objs[r].refcount == 0
    requires h'.objs.Keys == h.objs.Keys
    requires forall x :: x in h.objs && x != r ==>
               h'.objs[x].refcount == h.objs[x].refcount && h'.objs[x].body == h.objs[x].body
    ensures Pinned(h', held, busy + {r})
  {}

  lemma SettledLater(h: Heap, h': Heap, r: Ref, busy: set<Ref>)
    requires h'.objs.Keys == h.objs.Keys && h'.types == h.types
    requires forall x :: x in h.objs && x != r ==>
               h'.objs[x].refcount == h.objs[x].refcount && h'.objs[x].body == h.objs[x].body
    requires forall x :: x in h.objs && x !in busy ==> Settled(h, h.objs[x])
    ensures forall x :: x in h'.objs && x !in busy + {r} ==> Settled(h', h'.objs[x])
  {}

  /** The last reference is gone and the weak reference is unset: the object becomes busy. */
  lemma UnsetSettles(h: Heap, r: Ref, held: multiset<Ref>, given: set<Edge>, busy: set<Ref>)
    requires Balanced(h, held + multiset{r}, given, busy) && Pinned(h, held, busy)
    requires r in h.objs && h.objs[r].refcount == 1
    requires Counted(SetCount(h, r, 0), held, given)
    ensures var h2 := Unset(SetCount(h, r, 0), h.objs[r].body.weakRef);
            && r !in busy
            && r in h2.objs && h2.objs[r].refcount == 0 && h2.objs[r].body == h.objs[r].body
            && !h2.objs[r].body.deleted && Covered(h2, h2.objs[r].body)
            && Balanced(h2, held, given, busy + {r}) && Pinned(h2, held, busy + {r})
  {
    hide PoolsSound, Sound, Counted, Pinned, Covered;
    var h1 := SetCount(h, r, 0);
    var h2 := Unset(h1, h.objs[r].body.weakRef);
    LastIsNotBusy(h, r, held, given, busy);
    DecrementFrame(h, r);
    assert Settled(h, h.objs[r]);
    CoveredKept(h, h2, h.objs[r].body);
    CountsKept(h1, h2, held, given);
    PinnedLater(h, h2, r, held, busy);
    SettledLater(h, h2, r, busy);
  }

  /** None of an object's slots has been handed over. */
  ghost predicate Owning(r: Ref, given: set<Edge>) {
    forall s :: Edge(r, s) !in given
  }

  lemma HandOver(h: Heap, e: Edge, t: Ref, held: multiset<Ref>, given: set<Edge>, busy: set<Ref>)
    requires Balanced(h, held, given, busy) && Pinned(h, held, busy)
    requires e.holder in busy && e !in given && Points(h, e) == Some(t)
    ensures t in h.objs && Balanced(h, held + multiset{t}, given + {e}, busy)
  {
    hide PoolsSound, Counted, Settled, Sound;
    CountsHandOver(h, held, given, e, t);
  }

  /** The slot of a busy object is still what it was after the call that drops its reference. */
  lemma BusyUntouched(h: Heap, h1: Heap, r: Ref, held: multiset<Ref>, given: set<Edge>, busy: set<Ref>)
    requires Frame(h, h1, {}) && r in busy && r in h.objs
    requires Pinned(h, held, busy) && Counted(h1, held, given)
    ensures h1.objs[r].body == h.objs[r].body
  {
    assert Untouched(h.objs[r], h1.objs[r]);
    if h.objs[r].refcount > 0 {
      assert h1.objs[r].refcount == held[r] + |Owners(h1, r, given)|;
    }
  }

  lemma TakeBack(h: Heap, e: Edge, held: multiset<Ref>, given: set<Edge>, busy: set<Ref>)
    requires Balanced(h, held, given + {e}, busy) && Pinned(h, held, busy)
    requires e.holder in busy && e !in given
    ensures Balanced(SetSlot(h, e.holder, e.slot, None), held, given, busy)
    ensures Pinned(SetSlot(h, e.holder, e.slot, None), held, busy)
  {
    hide PoolsSound, Counted, Sound;
    var h' := SetSlot(h, e.holder, e.slot, None);
    CountsNull(h, held, given, e);
    PoolsSoundKept(h, h');
    forall x | x in h'.objs && x !in busy
      ensures Settled(h', h'.objs[x])
    {
      assert Settled(h, h.objs[x]);
      CoveredKept(h, h', h.objs[x].body);
    }
    forall d | d in given
      ensures d.holder in busy
    {
      assert d in given + {e};
    }
  }

  lemma {:induction false} ReleaseBalances(h: Heap, r: Ref, s: Slot, held: multiset<Ref>, given: set<Edge>,
                                           busy: set<Ref>)
    requires Balanced(h, held, given, busy) && Pinned(h, held, busy) && r in busy && Owning(r, given)
    ensures Balanced(Release(h, r, s), held, given, busy) && Pinned(Release(h, r, s), held, busy)
    decreases Positive(h), 1
  {
    hide PoolsSound, Counted, Settled, Sound, Unref, Frame;
    var v := Get(h.objs[r].body, s);
    if v.Some? {
      var e := Edge(r, s);
      HandOver(h, e, v.value, held, given, busy);
      UnrefFrame(h, v.value);
      var h1 := Unref(h, v.value);
      UnrefBalances(h, v.value, held, given + {e}, busy);
      BusyUntouched(h, h1, r, held, given + {e}, busy);
      TakeBack(h1, e, held, given, busy);
    }
  }

  lemma {:induction false} ClearErrorBalances(h: Heap, r: Ref, held: multiset<Ref>, given: set<Edge>, busy: set<Ref>)
    requires Balanced(h, held, given, busy) && Pinned(h, held, busy) && r in busy && Owning(r, given)
    ensures Balanced(ClearError(h, r), held, given, busy) && Pinned(ClearError(h, r), held, busy)
    decreases Positive(h), 2
  {
    hide Balanced, Pinned, Release;
    assert r in h.objs by { PinnedAt(h, r, held, busy); }
    if Casts(h, r, ErrorT) {
      var h1 := SetData(h, r, h.objs[r].body.data.(code := 0, description := None));
      BalancedWrite(h, r, h1.objs[r].body, held, given, busy);
      ReleaseBalances(h1, r, CauseSlot, held, given, busy);
    }
  }

  lemma PinnedAt(h: Heap, r: Ref, held: multiset<Ref>, busy: set<Ref>)
    requires Pinned(h, held, busy) && r in busy
    ensures r in h.objs
  {}

  lemma {:induction false} ClearDeltaBalances(h: Heap, r: Ref, unrefObjects: bool, held: multiset<Ref>,
                                              given: set<Edge>, busy: set<Ref>)
    requires Balanced(h, held, given, busy) && Pinned(h, held, busy) && r in busy && Owning(r, given)
    ensures Balanced(ClearDelta(h, r, unrefObjects), held, given, busy)
    ensures Pinned(ClearDelta(h, r, unrefObjects), held, busy)
    decreases Positive(h), 2
  {
    hide Balanced, Pinned, Release;
    assert r in h.objs by { PinnedAt(h, r, held, busy); }
    if Casts(h, r, DeltaT) {
      var h1 := SetData(h, r, h.objs[r].body.data.(b := None));
      BalancedWrite(h, r, h1.objs[r].body, held, given, busy);
      var h2 := if unrefObjects then Release(h1, r, CSlot) else h1;
      if unrefObjects { ReleaseBalances(h1, r, CSlot, held, given, busy); }
      BalancedWrite(h2, r, ClearDelta(h, r, unrefObjects).objs[r].body, held, given, busy);
    }
  }

  lemma ClearAlphaBalances(h: Heap, r: Ref, held: multiset<Ref>, given: set<Edge>, busy: set<Ref>)
    requires Balanced(h, held, given, busy) && Pinned(h, held, busy) && r in busy
    ensures Balanced(ClearAlpha(h, r), held, given, busy) && Pinned(ClearAlpha(h, r), held, busy)
  {
    hide Balanced, Pinned;
    PinnedAt(h, r, held, busy);
    BalancedWrite(h, r, ClearAlpha(h, r).objs[r].body, held, given, busy);
  }

  lemma {:induction false} ExecClearBalances(h: Heap, r: Ref, exec: ClearExec, unrefObjects: bool,
                                             held: multiset<Ref>, given: set<Edge>, busy: set<Ref>)
    requires Balanced(h, held, given, busy) && Pinned(h, held, busy) && r in busy && Owning(r, given)
    ensures Balanced(ExecClear(h, r, exec, unrefObjects), held, given, busy)
    ensures Pinned(ExecClear(h, r, exec, unrefObjects), held, busy)
    decreases Positive(h), 3
  {
    hide Balanced, Pinned, Release, ClearError, ClearDelta, ClearAlpha;
    PinnedAt(h, r, held, busy);
    match exec
    case ObjectClear => if unrefObjects { ReleaseBalances(h, r, WeakSlot, held, given, busy); }
    case ErrorClear => ClearErrorBalances(h, r, held, given, busy);
    case AlphaClear => ClearAlphaBalances(h, r, held, given, busy);
    case DeltaClear => ClearDeltaBalances(h, r, unrefObjects, held, given, busy);
    case UserClear =>
  }

  lemma BalancedBless(h: Heap, r: Ref, ty: TypeId, held: multiset<Ref>, given: set<Edge>, busy: set<Ref>)
    requires Balanced(h, held, given, busy) && Pinned(h, held, busy) && r in busy && r in h.objs
    ensures Balanced(Bless(h, r, ty), held, given, busy) && Pinned(Bless(h, r, ty), held, busy)
  {
    hide Balanced, Pinned;
    BalancedWrite(h, r, h.objs[r].body.(ty := ty), held, given, busy);
  }

  lemma {:induction false} ClearFromBalances(h: Heap, r: Ref, chain: seq<Method<ClearExec>>, i: nat, unrefObjects: bool,
                                             held: multiset<Ref>, given: set<Edge>, busy: set<Ref>)
    requires Balanced(h, held, given, busy) && Pinned(h, held, busy) && r in busy && Owning(r, given)
    requires i <= |chain|
    ensures Balanced(ClearFrom(h, r, chain, i, unrefObjects), held, given, busy)
    ensures Pinned(ClearFrom(h, r, chain, i, unrefObjects), held, busy)
    decreases Positive(h), 4, i
  {
    hide Balanced, Pinned, ExecClear, Bless, Owning;
    PinnedAt(h, r, held, busy);
    if i > 0 {
      var h0 := Bless(h, r, chain[i - 1].ty);
      BalancedBless(h, r, chain[i - 1].ty, held, given, busy);
      ExecClearBalances(h0, r, chain[i - 1].exec, unrefObjects, held, given, busy);
      var h1 := ExecClear(h0, r, chain[i - 1].exec, unrefObjects);
      ClearFromBalances(h1, r, chain, i - 1, unrefObjects, held, given, busy);
    }
  }

  /** Clearing an object, whether it is being destroyed or just emptied, keeps every count right. */
  lemma {:induction false} ClearObjectBalances(h: Heap, r: Ref, unrefObjects: bool,
                                               held: multiset<Ref>, given: set<Edge>, busy: set<Ref>)
    requires Balanced(h, held, given, busy) && Pinned(h, held, busy) && r in busy && Owning(r, given)
    ensures Balanced(ClearObject(h, r, unrefObjects), held, given, busy)
    ensures Pinned(ClearObject(h, r, unrefObjects), held, busy)
    decreases Positive(h), 5
  {
    hide Balanced, Pinned, ClearFrom;
    PinnedAt(h, r, held, busy);
    var ty := h.objs[r].body.ty;
    var chain := ClearList(h, ty);
    if chain != [] {
      var h1 := ClearFrom(h, r, chain, |chain|, unrefObjects);
      ClearFromBalances(h, r, chain, |chain|, unrefObjects, held, given, busy);
      BalancedWrite(h1, r, h1.objs[r].body.(ty := ty), held, given, busy);
    }
  }

  /** An object whose slots are all null is marked deleted, and its pool recycled. */
  lemma BuryBalances(h: Heap, r: Ref, held: multiset<Ref>, given: set<Edge>, busy: set<Ref>)
    requires Balanced(h, held, given, busy + {r}) && Pinned(h, held, busy + {r})
    requires r !in busy && Alive(h, r) && h.objs[r].refcount == 0
    requires forall s :: Get(h.objs[r].body, s) == None
    requires Owning(r, given)
    ensures var b := h.objs[r].body;
            var h' := FreePool(SetBody(h, r, b.(deleted := true, teardowns := b.teardowns + 1)), b.pool);
            Balanced(h', held, given, busy) && Pinned(h', held, busy)
  {
    hide PoolsSound, Counted, Sound, FreePool, LastResort, Positive, Frame;
    var b := h.objs[r].body;
    var marked := SetBody(h, r, b.(deleted := true, teardowns := b.teardowns + 1));
    var h' := FreePool(marked, b.pool);
    Retire(h, r);
    FrameFree(marked, b.pool, {});
    FrameAt(marked, h', {}, r);
    CountsKept(h, h', held, given);
    forall x | x in h'.objs && x !in busy
      ensures Settled(h', h'.objs[x])
    {
      if x != r {
        assert Settled(h, h.objs[x]);
        CoveredKept(h, h', h.objs[x].body);
      }
    }
    forall e | e in given
      ensures e.holder in busy
    {
      assert e == Edge(e.holder, e.slot);
    }
  }

  lemma {:induction false} DestroyBalances(h: Heap, r: Ref, held: multiset<Ref>, given: set<Edge>, busy: set<Ref>)
    requires r !in busy && Balanced(h, held, given, busy + {r}) && Pinned(h, held, busy + {r})
    requires r in h.objs && h.objs[r].refcount == 0 && !h.objs[r].body.deleted && Covered(h, h.objs[r].body)
    requires Owning(r, given)
    ensures Balanced(Destroy(h, r), held, given, busy) && Pinned(Destroy(h, r), held, busy)
    decreases Positive(h), 9
  {
    hide PoolsSound, Counted, Settled, Sound, Pinned, ClearObject, FreePool, Frame;
    var h1 := ClearObject(h, r, true);
    ClearObjectBalances(h, r, true, held, given, busy + {r});
    ClearObjectReleases(h, r);
    ClearObjectFrame(h, r, true);
    FrameAt(h, h1, {r}, r);
    BuryBalances(h1, r, held, given, busy);
  }
}
