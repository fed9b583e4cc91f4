/** Which objects a release destroys: exactly those that nothing but the object released keeps alive
    (yakka/Object.c). */
module Doom {
  import opened Options
  import opened Classes
  import opened Heaps
  import opened Cascade
  import opened Counts
  import opened Accounts
  import opened Calls

  /** A set that contains `r`, and every object that no caller holds and whose owning slots are all in objects of the
      set. */
  ghost predicate Closed(h: Heap, held: multiset<Ref>, given: set<Edge>, r: Ref, s: set<Ref>) {
    && r in s
    && forall x {:trigger Owners(h, x, given)} ::
         x in h.objs && held[x] == 0 && Owners(h, x, given) != {}
         && (forall e :: e in Owners(h, x, given) ==> e.holder in s)
         ==> x in s
  }

  /** The object is in the least such set: it goes when `r` does. */
  ghost predicate Doomed(h: Heap, held: multiset<Ref>, given: set<Edge>, r: Ref, x: Ref) {
    forall s: set<Ref> :: Closed(h, held, given, r, s) ==> x in s
  }

  // ---------------------------------------------------------------------------------------
  // Nothing outside a closed set falls
  // ---------------------------------------------------------------------------------------

  /** Some object outside the set owns the object. */
  ghost predicate Propped(h: Heap, x: Ref, given: set<Edge>, s: set<Ref>) {
    exists e :: e in Owners(h, x, given) && e.holder !in s
  }

  /** Every live object outside the set is held by a caller, or owned by another object outside the set. */
  ghost predicate Supported(h: Heap, held: multiset<Ref>, given: set<Edge>, s: set<Ref>) {
    forall x :: x in h.objs && x !in s && h.objs[x].refcount > 0 ==> held[x] > 0 || Propped(h, x, given, s)
  }

  /** The objects outside the set stay alive. */
  ghost predicate Spared(h: Heap, h': Heap, s: set<Ref>) {
    forall x :: x in h.objs && x !in s && h.objs[x].refcount > 0 ==> x in h'.objs && h'.objs[x].refcount > 0
  }

  lemma SparedRefl(h: Heap, s: set<Ref>)
    ensures Spared(h, h, s)
  {}

  lemma SparedTrans(h0: Heap, h1: Heap, h2: Heap, s: set<Ref>)
    requires Spared(h0, h1, s) && Spared(h1, h2, s)
    ensures Spared(h0, h2, s)
  {}

  lemma ClosedSupports(h: Heap, held: multiset<Ref>, given: set<Edge>, r: Ref, s: set<Ref>)
    requires Counted(h, held + multiset{r}, given) && Closed(h, held, given, r, s)
    ensures Supported(h, held, given, s)
  {
    forall x | x in h.objs && x !in s && h.objs[x].refcount > 0 && held[x] == 0
      ensures Propped(h, x, given, s)
    {
      assert h.objs[x].refcount == (held + multiset{r})[x] + |Owners(h, x, given)|;
    }
  }

  /** A slot of an object in the set supports nothing outside it. */
  lemma SupportedGiven(h: Heap, held: multiset<Ref>, given: set<Edge>, e: Edge, s: set<Ref>)
    requires e.holder in s && Supported(h, held, given, s)
    ensures Supported(h, held, given + {e}, s)
  {
    forall x | x in h.objs && x !in s && h.objs[x].refcount > 0 && held[x] == 0
      ensures Propped(h, x, given + {e}, s)
    {
      assert Propped(h, x, given, s);
      var d :| d in Owners(h, x, given) && d.holder !in s;
      assert d in Owners(h, x, given + {e});
    }
  }

  lemma SupportedKept(h: Heap, h': Heap, held: multiset<Ref>, given: set<Edge>, s: set<Ref>, busy: set<Ref>)
    requires Supported(h, held, given, s) && Frame(h, h', busy) && Spared(h, h', s) && busy <= s
    ensures Supported(h', held, given, s)
  {
    forall x | x in h'.objs && x !in s && h'.objs[x].refcount > 0 && held[x] == 0
      ensures Propped(h', x, given, s)
    {
      FrameAt(h, h', busy, x);
      assert Propped(h, x, given, s);
      var e :| e in Owners(h, x, given) && e.holder !in s;
      FrameAt(h, h', busy, e.holder);
      EdgesThere(h');
      assert e in Owners(h', x, given);
    }
  }

  /** The last reference to an object goes only if the object is in the set. */
  lemma LastIsInside(h: Heap, r: Ref, held: multiset<Ref>, given: set<Edge>, s: set<Ref>)
    requires Counted(h, held + multiset{r}, given) && Supported(h, held, given, s)
    requires r in h.objs && h.objs[r].refcount == 1
    ensures r in s
  {
    assert h.objs[r].refcount == (held + multiset{r})[r] + |Owners(h, r, given)|;
    assert held[r] == 0 && Owners(h, r, given) == {};
  }

  lemma {:induction false} UnrefSpares(h: Heap, r: Ref, held: multiset<Ref>, given: set<Edge>, busy: set<Ref>,
                                       s: set<Ref>)
    requires Balanced(h, held + multiset{r}, given, busy) && Pinned(h, held, busy) && Supported(h, held, given, s)
    ensures Spared(h, Unref(h, r), s)
    decreases Positive(h), 0
  {
    hide PoolsSound, Counted, Settled, Sound, Destroy, Unset, Frame, Supported, Balanced, Pinned;
    BalancedParts(h, held + multiset{r}, given, busy);
    CountsDrop(h, held, given, r);
    if h.objs[r].refcount == 1 {
      LastIsInside(h, r, held, given, s);
      var h2 := Unset(SetCount(h, r, 0), h.objs[r].body.weakRef);
      UnsetSettles(h, r, held, given, busy);
      assert r in Positive(h) && r !in Positive(h2);
      NotGiven(r, given, busy) by { GivenBusy(h, held + multiset{r}, given, busy); }
      DecrementFrame(h, r);
      DyingSpares(h, r, s);
      SupportedKept(h, h2, held, given, s, {});
      DestroySpares(h2, r, held, given, busy, s);
      SparedTrans(h, h2, Destroy(h2, r), s);
    }
  }

  lemma GivenBusy(h: Heap, held: multiset<Ref>, given: set<Edge>, busy: set<Ref>)
    requires Balanced(h, held, given, busy)
    ensures forall e :: e in given ==> e.holder in busy
  {}

  lemma DyingSpares(h: Heap, r: Ref, s: set<Ref>)
    requires r in h.objs && r in s
    ensures Spared(h, Unset(SetCount(h, r, 0), h.objs[r].body.weakRef), s)
  {
    hide Positive;
  }

  lemma BodySpares(h: Heap, r: Ref, b: Body, s: set<Ref>)
    requires r in h.objs
    ensures Spared(h, SetBody(h, r, b), s)
  {}

  lemma {:induction false} ReleaseSpares(h: Heap, r: Ref, slot: Slot, held: multiset<Ref>, given: set<Edge>,
                                         busy: set<Ref>, s: set<Ref>)
    requires Balanced(h, held, given, busy) && Pinned(h, held, busy) && r in busy && Owning(r, given)
    requires Supported(h, held, given, s) && r in s
    ensures Spared(h, Release(h, r, slot), s)
    decreases Positive(h), 1
  {
    hide Balanced, Supported, Unref, Spared;
    assert r in h.objs by { PinnedAt(h, r, held, busy); }
    SparedRefl(h, s);
    var v := Get(h.objs[r].body, slot);
    if v.Some? {
      var e := Edge(r, slot);
      HandOver(h, e, v.value, held, given, busy);
      SupportedGiven(h, held, given, e, s);
      UnrefSpares(h, v.value, held, given + {e}, busy, s);
      var h1 := Unref(h, v.value);
      BodySpares(h1, r, Put(h1.objs[r].body, slot, None), s);
      SparedTrans(h, h1, Release(h, r, slot), s);
    }
  }

  /** Writing members or class of an object in the set. */
  lemma WriteSpares(h: Heap, r: Ref, b: Body, held: multiset<Ref>, given: set<Edge>, busy: set<Ref>, s: set<Ref>)
    requires Balanced(h, held, given, busy) && Pinned(h, held, busy) && r in busy && r in h.objs
    requires Supported(h, held, given, s) && r in s && Dims(h.objs[r].body.data, b.data)
    requires var was := h.objs[r].body;
             && b.pool == was.pool && b.deleted == was.deleted && b.teardowns == was.teardowns
             && forall t :: Get(b, t) == Get(was, t)
    ensures var h' := SetBody(h, r, b);
            && Balanced(h', held, given, busy) && Pinned(h', held, busy)
            && Supported(h', held, given, s) && Spared(h, h', s)
  {
    hide Balanced, Supported, Spared, Frame;
    BalancedWrite(h, r, b, held, given, busy);
    BodySpares(h, r, b, s);
    FrameBody(h, r, b);
    SupportedKept(h, SetBody(h, r, b), held, given, s, {r});
  }

  lemma {:induction false} ClearErrorSpares(h: Heap, r: Ref, held: multiset<Ref>, given: set<Edge>, busy: set<Ref>,
                                            s: set<Ref>)
    requires Balanced(h, held, given, busy) && Pinned(h, held, busy) && r in busy && Owning(r, given)
    requires Supported(h, held, given, s) && r in s && r in h.objs
    ensures Spared(h, ClearError(h, r), s)
    decreases Positive(h), 2
  {
    hide Balanced, Pinned, Supported, Release, Spared;
    SparedRefl(h, s);
    if Casts(h, r, ErrorT) {
      var h1 := SetData(h, r, h.objs[r].body.data.(code := 0, description := None));
      WriteSpares(h, r, h1.objs[r].body, held, given, busy, s);
      ReleaseSpares(h1, r, CauseSlot, held, given, busy, s);
      SparedTrans(h, h1, ClearError(h, r), s);
    }
  }

  lemma {:induction false} ClearDeltaSpares(h: Heap, r: Ref, unrefObjects: bool, held: multiset<Ref>, given: set<Edge>,
                                            busy: set<Ref>, s: set<Ref>)
    requires Balanced(h, held, given, busy) && Pinned(h, held, busy) && r in busy && Owning(r, given)
    requires Supported(h, held, given, s) && r in s && r in h.objs
    ensures Spared(h, ClearDelta(h, r, unrefObjects), s)
    decreases Positive(h), 2
  {
    hide Balanced, Pinned, Supported, Release, Spared;
    SparedRefl(h, s);
    if Casts(h, r, DeltaT) {
      var h1 := SetData(h, r, h.objs[r].body.data.(b := None));
      WriteSpares(h, r, h1.objs[r].body, held, given, busy, s);
      var h2 := if unrefObjects then Release(h1, r, CSlot) else h1;
      SparedRefl(h1, s);
      if unrefObjects { ReleaseSpares(h1, r, CSlot, held, given, busy, s); }
      SparedTrans(h, h1, h2, s);
      BodySpares(h2, r, ClearDelta(h, r, unrefObjects).objs[r].body, s);
      SparedTrans(h, h2, ClearDelta(h, r, unrefObjects), s);
    }
  }

  lemma {:induction false} ExecClearSpares(h: Heap, r: Ref, exec: ClearExec, unrefObjects: bool, held: multiset<Ref>,
                                           given: set<Edge>, busy: set<Ref>, s: set<Ref>)
    requires Balanced(h, held, given, busy) && Pinned(h, held, busy) && r in busy && Owning(r, given)
    requires Supported(h, held, given, s) && r in s && r in h.objs
    ensures Spared(h, ExecClear(h, r, exec, unrefObjects), s)
    decreases Positive(h), 3
  {
    hide Balanced, Pinned, Supported, Release, ClearError, ClearDelta, Spared;
    SparedRefl(h, s);
    match exec
    case ObjectClear => if unrefObjects { ReleaseSpares(h, r, WeakSlot, held, given, busy, s); }
    case ErrorClear => ClearErrorSpares(h, r, held, given, busy, s);
    case AlphaClear => BodySpares(h, r, ClearAlpha(h, r).objs[r].body, s);
    case DeltaClear => ClearDeltaSpares(h, r, unrefObjects, held, given, busy, s);
    case UserClear =>
  }

  lemma TypeSpares(h: Heap, r: Ref, ty: TypeId, held: multiset<Ref>, given: set<Edge>, busy: set<Ref>, s: set<Ref>)
    requires Balanced(h, held, given, busy) && Pinned(h, held, busy) && r in busy && r in h.objs
    requires Supported(h, held, given, s) && r in s
    ensures var h' := Bless(h, r, ty);
            && Balanced(h', held, given, busy) && Pinned(h', held, busy)
            && Supported(h', held, given, s) && Spared(h, h', s)
  {
    hide Balanced, Pinned, Supported, Spared;
    WriteSpares(h, r, h.objs[r].body.(ty := ty), held, given, busy, s);
  }

  lemma {:induction false} ClearFromSpares(h: Heap, r: Ref, chain: seq<Method<ClearExec>>, i: nat, unrefObjects: bool,
                                           held: multiset<Ref>, given: set<Edge>, busy: set<Ref>, s: set<Ref>)
    requires Balanced(h, held, given, busy) && Pinned(h, held, busy) && r in busy && Owning(r, given)
    requires Supported(h, held, given, s) && r in s && r in h.objs && i <= |chain|
    ensures Spared(h, ClearFrom(h, r, chain, i, unrefObjects), s)
    decreases Positive(h), 4, i
  {
    hide Balanced, Pinned, Supported, ExecClear, Spared, Owning, Frame, PoolsSound, Settled, Counted, Sound, Undecided,
         Bless, Fades, Untouched, Positive, Young;
    SparedRefl(h, s);
    if i > 0 {
      var m := chain[i - 1];
      var h0 := Bless(h, r, m.ty);
      TypeSpares(h, r, m.ty, held, given, busy, s);
      ExecClearSpares(h0, r, m.exec, unrefObjects, held, given, busy, s);
      ExecClearBalances(h0, r, m.exec, unrefObjects, held, given, busy);
      var h1 := ExecClear(h0, r, m.exec, unrefObjects);
      BalancedParts(h0, held, given, busy);
      ExecClearFrame(h0, r, m.exec, unrefObjects);
      SupportedKept(h0, h1, held, given, s, {r});
      ClearFromSpares(h1, r, chain, i - 1, unrefObjects, held, given, busy, s);
      SparedTrans(h, h0, h1, s);
      SparedTrans(h, h1, ClearFrom(h, r, chain, i, unrefObjects), s);
    }
  }

  lemma {:induction false} ClearSpares(h: Heap, r: Ref, unrefObjects: bool, held: multiset<Ref>, given: set<Edge>,
                                       busy: set<Ref>, s: set<Ref>)
    requires Balanced(h, held, given, busy) && Pinned(h, held, busy) && r in busy && Owning(r, given)
    requires Supported(h, held, given, s) && r in s && r in h.objs
    ensures Spared(h, ClearObject(h, r, unrefObjects), s)
    decreases Positive(h), 5
  {
    hide Balanced, Pinned, Supported, ClearFrom, Spared;
    SparedRefl(h, s);
    var chain := ClearList(h, h.objs[r].body.ty);
    if chain != [] {
      var h1 := ClearFrom(h, r, chain, |chain|, unrefObjects);
      ClearFromSpares(h, r, chain, |chain|, unrefObjects, held, given, busy, s);
      BodySpares(h1, r, h1.objs[r].body.(ty := h.objs[r].body.ty), s);
      SparedTrans(h, h1, ClearObject(h, r, unrefObjects), s);
    }
  }

  lemma {:induction false} DestroySpares(h: Heap, r: Ref, held: multiset<Ref>, given: set<Edge>, busy: set<Ref>,
                                         s: set<Ref>)
    requires r !in busy && Balanced(h, held, given, busy + {r}) && Pinned(h, held, busy + {r}) && Owning(r, given)
    requires r in h.objs && h.objs[r].refcount == 0 && !h.objs[r].body.deleted
    requires Supported(h, held, given, s) && r in s
    ensures Spared(h, Destroy(h, r), s)
    decreases Positive(h), 9
  {
    hide Balanced, Pinned, Supported, ClearObject, FreePool, Spared, PoolsSound, Counted, Settled, Sound, Frame,
         Positive, Fades, Untouched;
    var h1 := ClearObject(h, r, true);
    ClearSpares(h, r, true, held, given, busy + {r}, s);
    BalancedParts(h, held, given, busy + {r});
    ClearObjectFrame(h, r, true);
    FrameAt(h, h1, {r}, r);
    BurySpares(h1, r, s);
    var b := h1.objs[r].body;
    assert TearDown(h, r, true) == SetBody(h1, r, b.(deleted := true, teardowns := b.teardowns + 1));
    SparedTrans(h, h1, Destroy(h, r), s);
  }

  lemma BurySpares(h: Heap, r: Ref, s: set<Ref>)
    requires PoolsSound(h) && Alive(h, r)
    ensures var b := h.objs[r].body;
            Spared(h, FreePool(SetBody(h, r, b.(deleted := true, teardowns := b.teardowns + 1)), b.pool), s)
  {
    hide PoolsSound, FreePool, LastResort, Spared, Frame;
    var b := h.objs[r].body;
    var marked := SetBody(h, r, b.(deleted := true, teardowns := b.teardowns + 1));
    Retire(h, r);
    FrameFree(marked, b.pool, {});
    BodySpares(h, r, marked.objs[r].body, s);
    SameSpares(h, marked, FreePool(marked, b.pool), s);
  }

  lemma SameSpares(h: Heap, h1: Heap, h2: Heap, s: set<Ref>)
    requires Spared(h, h1, s) && h2.objs == h1.objs
    ensures Spared(h, h2, s)
  {}

  // ---------------------------------------------------------------------------------------
  // Everything in the least closed set falls
  // ---------------------------------------------------------------------------------------

  /** The objects that were alive and are not any more. */
  ghost function Fallen(h: Heap, h': Heap): set<Ref> {
    set x | x in h.objs && h.objs[x].refcount > 0 && x in h'.objs && h'.objs[x].refcount == 0
  }

  /** What is owned by emptied objects only, and held by nobody, has fallen. */
  lemma FallenAt(h: Heap, h': Heap, held: multiset<Ref>, given: set<Edge>, emptied: set<Ref>, busy: set<Ref>, x: Ref)
    requires Frame(h, h', busy) && Counted(h', held, given) && x in h.objs
    requires held[x] == 0 && (forall e :: e in Owners(h, x, given) ==> e.holder in emptied)
    requires forall d, t :: d in emptied && d in h'.objs ==> Get(h'.objs[d].body, t) == None
    ensures x in h'.objs && h'.objs[x].refcount == 0
  {
    FrameParts(h, h', busy);
    assert Owners(h', x, given) == {} by {
      EdgesThere(h);
      forall e: Edge | e.holder in h.objs
        ensures e !in Owners(h', x, given)
      {
        FrameAt(h, h', busy, e.holder);
        if Points(h, e) == Some(x) && e !in given { assert e in Owners(h, x, given); }
      }
    }
    assert h'.objs[x].refcount == held[x] + |Owners(h', x, given)|;
  }

  /** An object that falls is emptied. */
  lemma FallenIsEmpty(h: Heap, h': Heap, held: multiset<Ref>, given: set<Edge>, busy: set<Ref>, d: Ref)
    requires Pinned(h, held, busy) && Balanced(h', held, given, busy) && d in Fallen(h, h')
    ensures forall t :: Get(h'.objs[d].body, t) == None
  {
    hide PoolsSound, Sound, Covered;
    assert h'.objs[d].refcount == held[d] + |Owners(h', d, given)|;
    assert d !in busy;
    assert Settled(h', h'.objs[d]);
  }

  /** Dropping a reference destroys exactly the objects that go with the one released, and only if that reference was
      its last: the object itself, and the least set of objects that no caller holds and that are owned by objects of
      the set alone. */
  lemma UnrefDestroys(h: Heap, r: Ref, held: multiset<Ref>, given: set<Edge>, busy: set<Ref>, x: Ref)
    requires Balanced(h, held + multiset{r}, given, busy) && Pinned(h, held, busy)
    requires x in h.objs && h.objs[x].refcount > 0
    ensures x in Unref(h, r).objs && r in h.objs
    ensures Unref(h, r).objs[x].refcount == 0 <==> h.objs[r].refcount == 1 && Doomed(h, held, given, r, x)
  {
    hide PoolsSound, Sound, Settled, Counted, Balanced, Pinned, Unref, Frame, Closed;
    var h' := Unref(h, r);
    BalancedParts(h, held + multiset{r}, given, busy);
    CountsDrop(h, held, given, r);
    UnrefFrame(h, r);
    FrameParts(h, h', {});
    if h.objs[r].refcount == 1 {
      if h'.objs[x].refcount == 0 {
        forall s | Closed(h, held, given, r, s)
          ensures x in s
        {
          ClosedSupports(h, held, given, r, s);
          UnrefSpares(h, r, held, given, busy, s);
        }
      } else {
        FallenIsClosed(h, r, held, given, busy);
        assert x !in Fallen(h, h');
      }
    } else {
      assert h' == SetCount(h, r, h.objs[r].refcount - 1) by { NotLast(h, r); }
    }
  }

  lemma NotLast(h: Heap, r: Ref)
    requires r in h.objs && h.objs[r].refcount > 1
    ensures Unref(h, r) == SetCount(h, r, h.objs[r].refcount - 1)
  {}

  lemma FallenIsClosed(h: Heap, r: Ref, held: multiset<Ref>, given: set<Edge>, busy: set<Ref>)
    requires Balanced(h, held + multiset{r}, given, busy) && Pinned(h, held, busy)
    requires r in h.objs && h.objs[r].refcount == 1
    ensures Closed(h, held, given, r, Fallen(h, Unref(h, r)))
  {
    hide PoolsSound, Sound, Settled, Counted, Balanced, Pinned, Unref, Frame, Owners;
    var h' := Unref(h, r);
    BalancedParts(h, held + multiset{r}, given, busy);
    UnrefBalances(h, r, held, given, busy);
    BalancedParts(h', held, given, busy);
    UnrefFrame(h, r);
    FrameParts(h, h', {});
    forall d, t | d in Fallen(h, h') && d in h'.objs
      ensures Get(h'.objs[d].body, t) == None
    {
      FallenIsEmpty(h, h', held, given, busy, d);
    }
    LastFalls(h, r);
    forall x {:trigger Owners(h, x, given)} | x in h.objs && held[x] == 0 && Owners(h, x, given) != {}
               && (forall e :: e in Owners(h, x, given) ==> e.holder in Fallen(h, h'))
      ensures x in Fallen(h, h')
    {
      FallenAt(h, h', held, given, Fallen(h, h'), {}, x);
      OwnedIsLive(h, held + multiset{r}, given, x);
    }
  }

  lemma LastFalls(h: Heap, r: Ref)
    requires PoolsSound(h) && r in h.objs && h.objs[r].refcount == 1
    ensures r in Unref(h, r).objs && Unref(h, r).objs[r].refcount == 0
  {
    hide Destroy, Unset;
    assert r !in Positive(Unref(h, r));
  }

  lemma OwnedIsLive(h: Heap, held: multiset<Ref>, given: set<Edge>, x: Ref)
    requires Counted(h, held, given) && x in h.objs && Owners(h, x, given) != {}
    ensures h.objs[x].refcount > 0
  {
    assert h.objs[x].refcount == held[x] + |Owners(h, x, given)|;
  }

  /** Clearing an object that lives on destroys exactly the objects that would go with it. */
  lemma ClearDestroys(h: Heap, r: Ref, held: multiset<Ref>, x: Ref)
    requires Sane(h, held, {}) && r in held && x in h.objs && h.objs[x].refcount > 0 && x != r
    ensures r in h.objs && x in ClearObject(h, r, true).objs
    ensures ClearObject(h, r, true).objs[x].refcount == 0 <==> Doomed(h, held, {}, r, x)
  {
    hide PoolsSound, Sound, Settled, Counted, Balanced, Pinned, ClearObject, Frame, Closed, Covered;
    HeldIsGranted(h, r, held, {});
    var h' := ClearObject(h, r, true);
    Engage(h, r, held, {});
    SaneParts(h, held, {} + {r});
    BalancedParts(h, held, {}, {} + {r});
    ClearObjectFrame(h, r, true);
    FrameParts(h, h', {r});
    if h'.objs[x].refcount == 0 {
      forall s | Closed(h, held, {}, r, s)
        ensures x in s
      {
        ClosedHeld(h, held, r, s);
        OwningNothing(r);
        ClearSpares(h, r, true, held, {}, {} + {r}, s);
      }
    } else {
      ClearedIsClosed(h, r, held);
      assert x !in Fallen(h, h') + {r};
    }
  }

  lemma ClosedHeld(h: Heap, held: multiset<Ref>, r: Ref, s: set<Ref>)
    requires Counted(h, held, {}) && Closed(h, held, {}, r, s)
    ensures Supported(h, held, {}, s) && r in s
  {
    forall x | x in h.objs && x !in s && h.objs[x].refcount > 0 && held[x] == 0
      ensures Propped(h, x, {}, s)
    {
      assert h.objs[x].refcount == held[x] + |Owners(h, x, {})|;
    }
  }

  lemma ClearedIsClosed(h: Heap, r: Ref, held: multiset<Ref>)
    requires Sane(h, held, {}) && r in held && r in h.objs
    ensures Closed(h, held, {}, r, Fallen(h, ClearObject(h, r, true)) + {r})
  {
    hide PoolsSound, Sound, Settled, Counted, Balanced, Pinned, ClearObject, Frame, Owners;
    var h' := ClearObject(h, r, true);
    SaneParts(h, held, {});
    BalancedParts(h, held, {}, {});
    ClearSane(h, r, held);
    SaneParts(h', held, {});
    BalancedParts(h', held, {}, {});
    ClearObjectFrame(h, r, true);
    FrameParts(h, h', {r});
    var emptied := Fallen(h, h') + {r};
    forall d, t | d in emptied && d in h'.objs
      ensures Get(h'.objs[d].body, t) == None
    {
      if d in Fallen(h, h') { FallenIsEmpty(h, h', held, {}, {}, d); }
    }
    forall x {:trigger Owners(h, x, {})} | x in h.objs && held[x] == 0 && Owners(h, x, {}) != {}
               && (forall e :: e in Owners(h, x, {}) ==> e.holder in emptied)
      ensures x in emptied
    {
      FallenAt(h, h', held, {}, emptied, {r}, x);
      OwnedIsLive(h, held, {}, x);
    }
  }
}
