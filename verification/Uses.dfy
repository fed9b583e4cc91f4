/** No call reads or writes an object that has been destroyed, at any depth of the cascades that it sets off. Each
    `Safe` predicate follows a call step by step and asks that every object be alive at the moment at which the call
    locks it, or reads or writes its count, class, slots, members or target. */
module Uses {
  import opened Options
  import opened Classes
  import opened Heaps
  import opened Cascade
  import opened Counts
  import opened Accounts

  // ---------------------------------------------------------------------------------------
  // What a cascade uses
  // ---------------------------------------------------------------------------------------

  /** `y_ref`: the object, and its weak reference, which is locked around it. */
  ghost predicate SafeRef(h: Heap, r: Ref) {
    Alive(h, r) && (h.objs[r].body.weakRef.Some? ==> Alive(h, h.objs[r].body.weakRef.value))
  }

  /** `y_unref`: the object; its weak reference, which is locked around it and, at zero, unset; and whatever the
      destruction of the object uses. */
  ghost predicate SafeUnref(h: Heap, r: Ref)
    decreases Positive(h), 0
  {
    && SafeRef(h, r) && h.objs[r].refcount > 0
    && (h.objs[r].refcount == 1 ==>
          var h2 := Unset(SetCount(h, r, 0), h.objs[r].body.weakRef);
          assert r in Positive(h) && r !in Positive(h2);
          SafeDestroy(h2, r))
  }

  /** The object is still alive when its slot is nulled, after the release. */
  ghost predicate SafeRelease(h: Heap, r: Ref, s: Slot)
    decreases Positive(h), 1
  {
    && Alive(h, r)
    && var v := Get(h.objs[r].body, s);
       v.Some? ==> SafeUnref(h, v.value) && Alive(Unref(h, v.value), r)
  }

  ghost predicate SafeClearError(h: Heap, r: Ref)
    decreases Positive(h), 2
  {
    && Alive(h, r)
    && (Casts(h, r, ErrorT) ==>
          SafeRelease(SetData(h, r, h.objs[r].body.data.(code := 0, description := None)), r, CauseSlot))
  }

  ghost predicate SafeClearDelta(h: Heap, r: Ref, unrefObjects: bool)
    decreases Positive(h), 2
  {
    && Alive(h, r)
    && (Casts(h, r, DeltaT) ==>
          var h1 := SetData(h, r, h.objs[r].body.data.(b := None));
          unrefObjects ==> SafeRelease(h1, r, CSlot) && Alive(Release(h1, r, CSlot), r))
  }

  ghost predicate SafeExecClear(h: Heap, r: Ref, exec: ClearExec, unrefObjects: bool)
    decreases Positive(h), 3
  {
    match exec
    case ObjectClear => Alive(h, r) && (unrefObjects ==> SafeRelease(h, r, WeakSlot))
    case ErrorClear => SafeClearError(h, r)
    case DeltaClear => SafeClearDelta(h, r, unrefObjects)
    case _ => Alive(h, r)
  }

  ghost predicate SafeClearFrom(h: Heap, r: Ref, chain: seq<Method<ClearExec>>, i: nat, unrefObjects: bool)
    requires i <= |chain|
    decreases Positive(h), 4, i
  {
    && Alive(h, r)
    && (i > 0 ==>
          var h0 := Bless(h, r, chain[i - 1].ty);
          && SafeExecClear(h0, r, chain[i - 1].exec, unrefObjects)
          && SafeClearFrom(ExecClear(h0, r, chain[i - 1].exec, unrefObjects), r, chain, i - 1, unrefObjects))
  }

  /** `y_clear_object`: the object is alive in every turn of the loop, and when its class is restored. */
  ghost predicate SafeClear(h: Heap, r: Ref, unrefObjects: bool)
    decreases Positive(h), 5
  {
    && Alive(h, r)
    && var chain := ClearList(h, h.objs[r].body.ty);
       && SafeClearFrom(h, r, chain, |chain|, unrefObjects)
       && Alive(ClearFrom(h, r, chain, |chain|, unrefObjects), r)
  }

  /** `y_destroy`: the object has not been destroyed before, nor in the meantime when it is marked, and the cleanup
      that its pool fires is its own. */
  ghost predicate SafeDestroy(h: Heap, r: Ref)
    decreases Positive(h), 9
  {
    && SafeClear(h, r, true)
    && var h1 := ClearObject(h, r, true);
       && Alive(h1, r)
       && var p := h1.objs[r].body.pool;
          p in h1.cleanups ==> h1.cleanups[p] == r
  }

  // ---------------------------------------------------------------------------------------
  // Weak references on loan
  // ---------------------------------------------------------------------------------------

  // `y_ref` and `y_unref` lock the weak reference that an object's slot points at. While `y_clear` releases that slot
  // on an object that lives on, the weak reference may be gone already and the slot still set. That is harmless because
  // destroying a weak reference leads to younger weak references only, never back to the object.

  /** An object that owns at most a weak reference. */
  predicate Leaf(h: Heap, r: Ref) {
    r in h.objs && h.objs[r].body.c == None && h.objs[r].body.cause == None
  }

  /** Weak references own nothing but weak references, and each is younger than its referent. */
  ghost predicate Weakly(h: Heap) {
    Aging(h) && forall x :: x in h.objs && h.objs[x].body.weakRef.Some? ==> Leaf(h, h.objs[x].body.weakRef.value)
  }

  /** The slot is a weak reference slot on loan, of an object that lives on. */
  predicate OnLoan(h: Heap, e: Edge) {
    e.slot == WeakSlot && e.holder in h.objs && h.objs[e.holder].refcount > 0
  }

  /** No weak reference slot of an object that lives on is on loan, or only such of objects older than `r`, from which
      the cascade leads to younger weak references only. */
  ghost predicate Calm(h: Heap, given: set<Edge>, r: Ref) {
    || (forall e :: e in given ==> !OnLoan(h, e))
    || (Weakly(h) && Leaf(h, r) && forall e :: e in given && OnLoan(h, e) ==> e.holder < r)
  }

  /** The same for an object that is about to be cleared. */
  ghost predicate CalmClear(h: Heap, given: set<Edge>, r: Ref) {
    Calm(h, given, r) && r in h.objs && (h.objs[r].refcount > 0 ==> Weakly(h))
  }

  lemma WeaklyKept(h: Heap, h': Heap, busy: set<Ref>)
    requires Weakly(h) && Frame(h, h', busy)
    ensures Weakly(h')
  {
    forall x | x in h'.objs && h'.objs[x].body.weakRef.Some?
      ensures x < h'.objs[x].body.weakRef.value && Leaf(h', h'.objs[x].body.weakRef.value)
    {
      LeafKept(h, h', busy, x);
      LeafKept(h, h', busy, h.objs[x].body.weakRef.value);
    }
  }

  /** Slots are only ever nulled. */
  lemma LeafKept(h: Heap, h': Heap, busy: set<Ref>, x: Ref)
    requires Frame(h, h', busy) && x in h.objs
    ensures x in h'.objs && (h'.objs[x].body.weakRef == h.objs[x].body.weakRef || h'.objs[x].body.weakRef == None)
    ensures Leaf(h, x) ==> Leaf(h', x)
    ensures h'.objs[x].refcount <= h.objs[x].refcount
  {
    FrameAt(h, h', busy, x);
    var b, b' := h.objs[x].body, h'.objs[x].body;
    assert Get(b', WeakSlot) == Get(b, WeakSlot) || Get(b', WeakSlot) == None;
    assert Get(b', CSlot) == Get(b, CSlot) || Get(b', CSlot) == None;
    assert Get(b', CauseSlot) == Get(b, CauseSlot) || Get(b', CauseSlot) == None;
  }

  lemma CalmKept(h: Heap, h': Heap, given: set<Edge>, r: Ref, busy: set<Ref>)
    requires CalmClear(h, given, r) && Frame(h, h', busy)
    ensures CalmClear(h', given, r)
  {
    hide Frame, Weakly, Leaf;
    FrameParts(h, h', busy);
    LeafKept(h, h', busy, r);
    if Weakly(h) { WeaklyKept(h, h', busy); }
    forall e | e in given && OnLoan(h', e)
      ensures OnLoan(h, e)
    {
      LeafKept(h, h', busy, e.holder);
    }
  }

  /** Releasing a slot of an object that is being cleared. */
  lemma CalmRelease(h: Heap, given: set<Edge>, r: Ref, s: Slot)
    requires CalmClear(h, given, r) && Get(h.objs[r].body, s).Some?
    ensures Calm(h, given + {Edge(r, s)}, Get(h.objs[r].body, s).value)
  {
    var more := given + {Edge(r, s)};
    if exists e :: e in more && OnLoan(h, e) {
      var e :| e in more && OnLoan(h, e);
      assert e in given || e == Edge(r, s);
      assert Weakly(h);
      assert s == WeakSlot;
    }
  }

  // ---------------------------------------------------------------------------------------
  // Cascades are safe
  // ---------------------------------------------------------------------------------------

  lemma PinnedIsAlive(h: Heap, r: Ref, held: multiset<Ref>, busy: set<Ref>)
    requires Pinned(h, held, busy) && r in busy
    ensures r in h.objs && Alive(h, r)
  {}

  /** An object with a positive count is alive, whether or not it is being cleared. */
  lemma PositiveIsAlive(h: Heap, r: Ref, held: multiset<Ref>, given: set<Edge>, busy: set<Ref>, more: multiset<Ref>)
    requires Balanced(h, more, given, busy) && Pinned(h, held, busy) && r in h.objs && h.objs[r].refcount > 0
    ensures Alive(h, r)
  {
    hide PoolsSound, Counted, Sound, Covered;
    assert r !in busy ==> Settled(h, h.objs[r]);
  }

  /** What a slot that has not been handed over points at is alive. */
  lemma SlotIsAlive(h: Heap, e: Edge, held: multiset<Ref>, given: set<Edge>, busy: set<Ref>, more: multiset<Ref>)
    requires Balanced(h, more, given, busy) && Pinned(h, held, busy)
    requires e.holder in h.objs && e !in given && Points(h, e).Some?
    ensures Alive(h, Points(h, e).value)
  {
    hide PoolsSound, Settled, Sound, Pinned;
    EdgesThere(h);
    var t := Points(h, e).value;
    assert e in Owners(h, t, given);
    assert h.objs[t].refcount == more[t] + |Owners(h, t, given)|;
    PositiveIsAlive(h, t, held, given, busy, more);
  }

  /** Dropping a reference that the caller holds uses live objects only, however far the cascade goes. */
  lemma {:induction false} UnrefIsSafe(h: Heap, r: Ref, held: multiset<Ref>, given: set<Edge>, busy: set<Ref>)
    requires Balanced(h, held + multiset{r}, given, busy) && Pinned(h, held, busy) && Calm(h, given, r)
    ensures SafeUnref(h, r)
    decreases Positive(h), 0
  {
    hide PoolsSound, Counted, Settled, Sound, Destroy, Unset, SafeDestroy, Balanced, Pinned, Weakly, Leaf, Frame;
    BalancedParts(h, held + multiset{r}, given, busy);
    CountsDrop(h, held, given, r);
    PositiveIsAlive(h, r, held, given, busy, held + multiset{r});
    if h.objs[r].body.weakRef.Some? {
      assert Edge(r, WeakSlot) !in given by { assert OnLoan(h, Edge(r, WeakSlot)); }
      SlotIsAlive(h, Edge(r, WeakSlot), held, given, busy, held + multiset{r});
    }
    if h.objs[r].refcount == 1 {
      var h2 := Unset(SetCount(h, r, 0), h.objs[r].body.weakRef);
      UnsetSettles(h, r, held, given, busy);
      assert r in Positive(h) && r !in Positive(h2);
      NotBusyOwns(h, r, held + multiset{r}, given, busy);
      CalmDying(h, given, r);
      DestroyIsSafe(h2, r, held, given, busy);
    }
  }

  /** An object that is to be destroyed. */
  lemma CalmDying(h: Heap, given: set<Edge>, r: Ref)
    requires Calm(h, given, r) && PoolsSound(h) && r in h.objs && h.objs[r].refcount == 1
    ensures CalmClear(Unset(SetCount(h, r, 0), h.objs[r].body.weakRef), given, r)
  {
    hide PoolsSound, Weakly, Leaf, Frame, Unset;
    var h2 := Unset(SetCount(h, r, 0), h.objs[r].body.weakRef);
    DecrementFrame(h, r);
    FrameParts(h, h2, {});
    LeafKept(h, h2, {}, r);
    if Weakly(h) { WeaklyKept(h, h2, {}); }
    forall e | e in given && OnLoan(h2, e)
      ensures OnLoan(h, e)
    {
      LeafKept(h, h2, {}, e.holder);
    }
  }

  lemma NotBusyOwns(h: Heap, r: Ref, held: multiset<Ref>, given: set<Edge>, busy: set<Ref>)
    requires Balanced(h, held, given, busy) && r !in busy
    ensures Owning(r, given)
  {
    NotGiven(r, given, busy);
  }

  lemma {:induction false} ReleaseIsSafe(h: Heap, r: Ref, s: Slot, held: multiset<Ref>, given: set<Edge>,
                                         busy: set<Ref>)
    requires Balanced(h, held, given, busy) && Pinned(h, held, busy) && r in busy && Owning(r, given)
    requires CalmClear(h, given, r)
    ensures SafeRelease(h, r, s)
    decreases Positive(h), 1
  {
    hide Balanced, SafeUnref, Unref, Calm, CalmClear;
    assert r in h.objs by { PinnedIsAlive(h, r, held, busy); }
    var v := Get(h.objs[r].body, s);
    if v.Some? {
      var e := Edge(r, s);
      CalmRelease(h, given, r, s);
      HandOver(h, e, v.value, held, given, busy);
      UnrefIsSafe(h, v.value, held, given + {e}, busy);
      UnrefBalances(h, v.value, held, given + {e}, busy);
    }
  }

  lemma {:induction false} ClearErrorIsSafe(h: Heap, r: Ref, held: multiset<Ref>, given: set<Edge>, busy: set<Ref>)
    requires Balanced(h, held, given, busy) && Pinned(h, held, busy) && r in busy && Owning(r, given)
    requires CalmClear(h, given, r)
    ensures SafeClearError(h, r)
    decreases Positive(h), 2
  {
    hide Balanced, SafeRelease, CalmClear, Frame;
    if Casts(h, r, ErrorT) {
      var h1 := SetData(h, r, h.objs[r].body.data.(code := 0, description := None));
      BalancedWrite(h, r, h1.objs[r].body, held, given, busy);
      FrameBody(h, r, h1.objs[r].body);
      CalmKept(h, h1, given, r, {r});
      ReleaseIsSafe(h1, r, CauseSlot, held, given, busy);
    }
  }

  lemma {:induction false} ClearDeltaIsSafe(h: Heap, r: Ref, unrefObjects: bool, held: multiset<Ref>, given: set<Edge>,
                                            busy: set<Ref>)
    requires Balanced(h, held, given, busy) && Pinned(h, held, busy) && r in busy && Owning(r, given)
    requires CalmClear(h, given, r)
    ensures SafeClearDelta(h, r, unrefObjects)
    decreases Positive(h), 2
  {
    hide Balanced, SafeRelease, Release, CalmClear, Frame;
    if Casts(h, r, DeltaT) && unrefObjects {
      var h1 := SetData(h, r, h.objs[r].body.data.(b := None));
      BalancedWrite(h, r, h1.objs[r].body, held, given, busy);
      FrameBody(h, r, h1.objs[r].body);
      CalmKept(h, h1, given, r, {r});
      ReleaseIsSafe(h1, r, CSlot, held, given, busy);
      ReleaseBalances(h1, r, CSlot, held, given, busy);
    }
  }

  lemma {:induction false} ExecClearIsSafe(h: Heap, r: Ref, exec: ClearExec, unrefObjects: bool, held: multiset<Ref>,
                                           given: set<Edge>, busy: set<Ref>)
    requires Balanced(h, held, given, busy) && Pinned(h, held, busy) && r in busy && Owning(r, given)
    requires CalmClear(h, given, r)
    ensures SafeExecClear(h, r, exec, unrefObjects)
    decreases Positive(h), 3
  {
    hide Balanced, SafeRelease, SafeClearError, SafeClearDelta, CalmClear;
    match exec
    case ObjectClear => if unrefObjects { ReleaseIsSafe(h, r, WeakSlot, held, given, busy); }
    case ErrorClear => ClearErrorIsSafe(h, r, held, given, busy);
    case DeltaClear => ClearDeltaIsSafe(h, r, unrefObjects, held, given, busy);
    case _ =>
  }

  lemma BlessFrame(h: Heap, r: Ref, ty: TypeId)
    requires r in h.objs
    ensures Frame(h, Bless(h, r, ty), {r})
  {
    hide Frame;
    FrameBody(h, r, h.objs[r].body.(ty := ty));
  }

  lemma {:induction false} ClearFromIsSafe(h: Heap, r: Ref, chain: seq<Method<ClearExec>>, i: nat, unrefObjects: bool,
                                           held: multiset<Ref>, given: set<Edge>, busy: set<Ref>)
    requires Balanced(h, held, given, busy) && Pinned(h, held, busy) && r in busy && Owning(r, given)
    requires CalmClear(h, given, r)
    requires i <= |chain|
    ensures SafeClearFrom(h, r, chain, i, unrefObjects)
    decreases Positive(h), 4, i
  {
    hide Balanced, Pinned, Alive, Owning, SafeExecClear, ExecClear, Bless, CalmClear, Frame, PoolsSound, Settled,
         Counted, Sound, Undecided;
    PinnedIsAlive(h, r, held, busy);
    if i > 0 {
      var h0 := Bless(h, r, chain[i - 1].ty);
      BalancedBless(h, r, chain[i - 1].ty, held, given, busy);
      BlessFrame(h, r, chain[i - 1].ty);
      CalmKept(h, h0, given, r, {r});
      ExecClearIsSafe(h0, r, chain[i - 1].exec, unrefObjects, held, given, busy);
      ExecClearBalances(h0, r, chain[i - 1].exec, unrefObjects, held, given, busy);
      var h1 := ExecClear(h0, r, chain[i - 1].exec, unrefObjects);
      BalancedParts(h, held, given, busy);
      ClearStepFrame(h, r, chain[i - 1], unrefObjects);
      CalmKept(h, h1, given, r, {r});
      ClearFromIsSafe(h1, r, chain, i - 1, unrefObjects, held, given, busy);
    }
  }

  lemma {:induction false} ClearIsSafe(h: Heap, r: Ref, unrefObjects: bool, held: multiset<Ref>, given: set<Edge>,
                                       busy: set<Ref>)
    requires Balanced(h, held, given, busy) && Pinned(h, held, busy) && r in busy && Owning(r, given)
    requires CalmClear(h, given, r)
    ensures SafeClear(h, r, unrefObjects)
    decreases Positive(h), 5
  {
    hide Balanced, SafeClearFrom, ClearFrom, CalmClear;
    var chain := ClearList(h, h.objs[r].body.ty);
    ClearFromIsSafe(h, r, chain, |chain|, unrefObjects, held, given, busy);
    ClearFromBalances(h, r, chain, |chain|, unrefObjects, held, given, busy);
  }

  lemma {:induction false} DestroyIsSafe(h: Heap, r: Ref, held: multiset<Ref>, given: set<Edge>, busy: set<Ref>)
    requires r !in busy && Balanced(h, held, given, busy + {r}) && Pinned(h, held, busy + {r})
    requires Owning(r, given) && CalmClear(h, given, r)
    ensures SafeDestroy(h, r)
    decreases Positive(h), 9
  {
    hide Balanced, SafeClear, ClearObject, PoolsSound, CalmClear;
    assert r in busy + {r};
    ClearIsSafe(h, r, true, held, given, busy + {r});
    ClearObjectBalances(h, r, true, held, given, busy + {r});
    var h1 := ClearObject(h, r, true);
    BalancedParts(h1, held, given, busy + {r});
    CleanupIsOwners(h1, h1.objs[r].body.pool, r);
  }
}
