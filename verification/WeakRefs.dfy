/** Weak references agree with their referents through every cascade (yakka/WeakRef.c and the weak
    reference handling of yakka/Object.c). */
module WeakRefs {
  import opened Options
  import opened Classes
  import opened Heaps
  import opened Cascade

  /** Somebody holds a reference to the object. */
  predicate Held(h: Heap, r: Ref) {
    r in h.objs && h.objs[r].refcount > 0
  }

  /** A held object's weak reference points back at it; a held weak reference that is set points at a
      held object whose weak reference it is, unless it is one of the `lost` ones; and a weak reference
      is younger than its referent. */
  ghost predicate AgreedBut(h: Heap, lost: set<Ref>) {
    && (forall o :: Held(h, o) && h.objs[o].body.weakRef.Some? ==>
          var w := h.objs[o].body.weakRef.value; w in h.objs && h.objs[w].target == Some(o))
    && (forall w :: Held(h, w) && h.objs[w].target.Some? && w !in lost ==>
          var o := h.objs[w].target.value; Held(h, o) && h.objs[o].body.weakRef == Some(w))
    && (forall o :: o in h.objs && h.objs[o].body.weakRef.Some? ==> o < h.objs[o].body.weakRef.value)
  }

  /** Weak references and referents agree. */
  ghost predicate Agreed(h: Heap) {
    AgreedBut(h, {})
  }

  /** Clearing the object cannot newly strand a weak reference: it has none, nobody holds the object,
      or its weak reference counts as lost anyway. */
  predicate Spare(h: Heap, r: Ref, lost: set<Ref>) {
    && r in h.objs
    && (h.objs[r].refcount == 0 || h.objs[r].body.weakRef == None || h.objs[r].body.weakRef.value in lost)
  }

  /** A weak reference stays set, unless it is that of an object that goes. */
  ghost predicate Lingers(h: Heap, h': Heap) {
    forall w :: w in h.objs && w in h'.objs && h.objs[w].target.Some? ==>
      var t := h.objs[w].target.value;
      t in h.objs && (Held(h', t) || h.objs[t].body.weakRef != Some(w)) ==> h'.objs[w].target == Some(t)
  }

  /** The same, with nothing having been revived, and no weak reference slot filled. */
  ghost predicate Kept(h: Heap, h': Heap) {
    && h'.objs.Keys == h.objs.Keys
    && (forall x :: Held(h', x) ==> Held(h, x))
    && (forall x :: x in h.objs ==>
          h'.objs[x].body.weakRef == h.objs[x].body.weakRef || h'.objs[x].body.weakRef == None)
    && Lingers(h, h')
  }

  lemma KeptBody(h: Heap, r: Ref, b: Body)
    requires r in h.objs && (b.weakRef == h.objs[r].body.weakRef || b.weakRef == None)
    ensures Kept(h, SetBody(h, r, b))
  {}

  /** An object has at most one weak reference that is held and set. */
  lemma OneWeakRef(h: Heap, v: Ref, w: Ref)
    requires Agreed(h) && Held(h, v) && Held(h, w)
    requires h.objs[v].target.Some? && h.objs[v].target == h.objs[w].target
    ensures v == w
  {}

  /** Writing the body of an object. */
  lemma AgreedWrite(h: Heap, r: Ref, b: Body, lost: set<Ref>)
    requires AgreedBut(h, lost) && r in h.objs
    requires b.weakRef == h.objs[r].body.weakRef
             || (Spare(h, r, lost) && b.weakRef == None)
    ensures AgreedBut(SetBody(h, r, b), lost)
  {}

  lemma {:induction false} AgreedDecrement(h: Heap, r: Ref, lost: set<Ref>)
    requires AgreedBut(h, lost) && r in h.objs && h.objs[r].refcount > 1
    ensures AgreedBut(SetCount(h, r, h.objs[r].refcount - 1), lost)
    ensures Kept(h, SetCount(h, r, h.objs[r].refcount - 1))
  {
    hide Positive;
    var h' := SetCount(h, r, h.objs[r].refcount - 1);
    assert forall x :: Held(h', x) <==> Held(h, x);
    hide Held;
  }

  /** The state just before `y_destroy`: the count is zero and the weak reference is unset. */
  ghost predicate Dying(h: Heap, r: Ref, h2: Heap)
    requires r in h.objs
  {
    && h2.objs.Keys == h.objs.Keys
    && (forall x :: x in h.objs ==> h2.objs[x].body == h.objs[x].body)
    && (forall x :: x in h.objs ==> h2.objs[x].refcount == if x == r then 0 else h.objs[x].refcount)
    && (forall x :: x in h.objs ==>
          h2.objs[x].target == if Some(x) == h.objs[r].body.weakRef then None else h.objs[x].target)
  }

  /** When the last reference goes, unsetting the weak reference restores agreement at once. */
  lemma {:induction false} AgreedDying(h: Heap, r: Ref, h2: Heap, lost: set<Ref>)
    requires AgreedBut(h, lost) && r in h.objs && h.objs[r].refcount == 1 && Dying(h, r, h2)
    ensures AgreedBut(h2, lost) && Kept(h, h2)
  {
    assert forall x :: Held(h2, x) <==> Held(h, x) && x != r;
    assert Held(h, r);
  }

  lemma AgreedUnset(h: Heap, r: Ref, lost: set<Ref>)
    requires AgreedBut(h, lost) && r in h.objs && h.objs[r].refcount == 1
    ensures After(h, Unset(SetCount(h, r, 0), h.objs[r].body.weakRef), lost)
  {
    hide AgreedBut, Kept;
    AgreedDying(h, r, Unset(SetCount(h, r, 0), h.objs[r].body.weakRef), lost);
  }

  // ---------------------------------------------------------------------------------------
  // Agreement through a cascade
  // ---------------------------------------------------------------------------------------

  ghost predicate After(h: Heap, h': Heap, lost: set<Ref>) {
    AgreedBut(h', lost) && Kept(h, h')
  }

  lemma AfterTrans(h0: Heap, h1: Heap, h2: Heap, lost: set<Ref>)
    requires After(h0, h1, lost) && After(h1, h2, lost)
    ensures After(h0, h2, lost)
  {}

  lemma {:induction false} AfterWrite(h: Heap, r: Ref, b: Body, lost: set<Ref>)
    requires AgreedBut(h, lost) && r in h.objs
    requires b.weakRef == h.objs[r].body.weakRef || (Spare(h, r, lost) && b.weakRef == None)
    ensures After(h, SetBody(h, r, b), lost)
  {
    hide AgreedBut, Kept;
    AgreedWrite(h, r, b, lost);
    KeptBody(h, r, b);
  }

  lemma AfterRefl(h: Heap, lost: set<Ref>)
    requires AgreedBut(h, lost)
    ensures After(h, h, lost)
  {}

  /** An unref, with everything it sets off, keeps weak references and referents in agreement. */
  lemma {:induction false} UnrefAgreed(h: Heap, r: Ref, lost: set<Ref>)
    requires AgreedBut(h, lost) && PoolsSound(h)
    ensures After(h, Unref(h, r), lost)
    decreases Positive(h), 0
  {
    hide AgreedBut, Kept, PoolsSound, Destroy, Unset, Frame;
    AfterRefl(h, lost);
    if r in h.objs && h.objs[r].refcount > 1 {
      AgreedDecrement(h, r, lost);
    } else if r in h.objs && h.objs[r].refcount == 1 {
      var h1 := SetCount(h, r, 0);
      var h2 := Unset(h1, h.objs[r].body.weakRef);
      AgreedUnset(h, r, lost);
      DecrementFrame(h, r);
      assert r in Positive(h) && r !in Positive(h2);
      DestroyAgreed(h2, r, lost);
      AfterTrans(h, h2, Destroy(h2, r), lost);
    }
  }

  lemma {:induction false} ReleaseAgreed(h: Heap, r: Ref, s: Slot, lost: set<Ref>)
    requires AgreedBut(h, lost) && PoolsSound(h) && Spare(h, r, lost)
    ensures After(h, Release(h, r, s), lost) && Spare(Release(h, r, s), r, lost)
    decreases Positive(h), 1
  {
    hide After, AgreedBut, PoolsSound, Unref, Frame;
    var v := Get(h.objs[r].body, s);
    if v.Some? {
      var h1 := Unref(h, v.value);
      UnrefAgreed(h, v.value, lost);
      UnrefFrame(h, v.value);
      FrameAt(h, h1, {}, r);
      AfterAgrees(h, h1, lost);
      AfterWrite(h1, r, Put(h1.objs[r].body, s, None), lost);
      AfterTrans(h, h1, Release(h, r, s), lost);
    } else {
      AfterRefl(h, lost);
    }
  }

  lemma AfterAgrees(h: Heap, h': Heap, lost: set<Ref>)
    requires After(h, h', lost)
    ensures AgreedBut(h', lost)
  {}

  lemma {:induction false} ClearErrorAgreed(h: Heap, r: Ref, lost: set<Ref>)
    requires AgreedBut(h, lost) && PoolsSound(h) && Spare(h, r, lost)
    ensures After(h, ClearError(h, r), lost) && Spare(ClearError(h, r), r, lost)
    decreases Positive(h), 2
  {
    hide After, AgreedBut, PoolsSound, Release;
    AfterRefl(h, lost);
    if Casts(h, r, ErrorT) {
      var h1 := SetData(h, r, h.objs[r].body.data.(code := 0, description := None));
      AfterWrite(h, r, h1.objs[r].body, lost);
      AfterAgrees(h, h1, lost);
      PoolsSoundKept(h, h1);
      ReleaseAgreed(h1, r, CauseSlot, lost);
      AfterTrans(h, h1, ClearError(h, r), lost);
    }
  }

  lemma {:induction false} ClearDeltaAgreed(h: Heap, r: Ref, unrefObjects: bool, lost: set<Ref>)
    requires AgreedBut(h, lost) && PoolsSound(h) && Spare(h, r, lost)
    ensures After(h, ClearDelta(h, r, unrefObjects), lost) && Spare(ClearDelta(h, r, unrefObjects), r, lost)
    decreases Positive(h), 2
  {
    hide After, AgreedBut, PoolsSound, Release;
    AfterRefl(h, lost);
    if Casts(h, r, DeltaT) {
      var h1 := SetData(h, r, h.objs[r].body.data.(b := None));
      AfterWrite(h, r, h1.objs[r].body, lost);
      AfterAgrees(h, h1, lost);
      PoolsSoundKept(h, h1);
      var h2 := if unrefObjects then Release(h1, r, CSlot) else h1;
      AfterRefl(h1, lost);
      if unrefObjects { ReleaseAgreed(h1, r, CSlot, lost); }
      AfterTrans(h, h1, h2, lost);
      AfterAgrees(h, h2, lost);
      var h3 := ClearDelta(h, r, unrefObjects);
      AfterWrite(h2, r, h3.objs[r].body, lost);
      AfterTrans(h, h2, h3, lost);
    }
  }

  lemma {:induction false} ClearAlphaAgreed(h: Heap, r: Ref, lost: set<Ref>)
    requires AgreedBut(h, lost) && Spare(h, r, lost)
    ensures After(h, ClearAlpha(h, r), lost) && Spare(ClearAlpha(h, r), r, lost)
  {
    hide After, AgreedBut;
    AfterRefl(h, lost);
    AfterWrite(h, r, ClearAlpha(h, r).objs[r].body, lost);
  }

  lemma {:induction false} ExecClearAgreed(h: Heap, r: Ref, exec: ClearExec, unrefObjects: bool, lost: set<Ref>)
    requires AgreedBut(h, lost) && PoolsSound(h) && Spare(h, r, lost)
    ensures After(h, ExecClear(h, r, exec, unrefObjects), lost)
    ensures Spare(ExecClear(h, r, exec, unrefObjects), r, lost)
    decreases Positive(h), 3
  {
    hide After, AgreedBut, PoolsSound, Release, ClearError, ClearDelta, ClearAlpha;
    AfterRefl(h, lost);
    match exec
    case ObjectClear => if unrefObjects { ReleaseAgreed(h, r, WeakSlot, lost); }
    case ErrorClear => ClearErrorAgreed(h, r, lost);
    case AlphaClear => ClearAlphaAgreed(h, r, lost);
    case DeltaClear => ClearDeltaAgreed(h, r, unrefObjects, lost);
    case UserClear =>
  }

  lemma {:induction false} ClearStepAgreed(h: Heap, r: Ref, m: Method<ClearExec>, unrefObjects: bool, lost: set<Ref>)
    requires AgreedBut(h, lost) && PoolsSound(h) && Spare(h, r, lost)
    ensures var h' := ExecClear(Bless(h, r, m.ty), r, m.exec, unrefObjects); After(h, h', lost) && Spare(h', r, lost)
    decreases Positive(h), 4, 0
  {
    hide After, AgreedBut, PoolsSound, ExecClear;
    var h0 := Bless(h, r, m.ty);
    AfterWrite(h, r, h0.objs[r].body, lost);
    AfterAgrees(h, h0, lost);
    PoolsSoundKept(h, h0);
    ExecClearAgreed(h0, r, m.exec, unrefObjects, lost);
    AfterTrans(h, h0, ExecClear(h0, r, m.exec, unrefObjects), lost);
  }

  lemma {:induction false} ClearFromAgreed(h: Heap, r: Ref, chain: seq<Method<ClearExec>>, i: nat, unrefObjects: bool,
                                           lost: set<Ref>)
    requires AgreedBut(h, lost) && PoolsSound(h) && Spare(h, r, lost) && i <= |chain|
    ensures After(h, ClearFrom(h, r, chain, i, unrefObjects), lost)
    ensures Spare(ClearFrom(h, r, chain, i, unrefObjects), r, lost)
    decreases Positive(h), 4, i
  {
    hide After, AgreedBut, PoolsSound, ExecClear, Bless, Frame;
    AfterRefl(h, lost);
    if i > 0 {
      var m := chain[i - 1];
      var h1 := ExecClear(Bless(h, r, m.ty), r, m.exec, unrefObjects);
      ClearStepAgreed(h, r, m, unrefObjects, lost);
      AfterAgrees(h, h1, lost);
      ClearStepFrame(h, r, m, unrefObjects);
      ClearFromAgreed(h1, r, chain, i - 1, unrefObjects, lost);
      AfterTrans(h, h1, ClearFrom(h, r, chain, i, unrefObjects), lost);
    }
  }

  /** Clearing an object keeps agreement, provided the object has no weak reference or is on its way
      out. */
  lemma {:induction false} ClearObjectAgreed(h: Heap, r: Ref, unrefObjects: bool, lost: set<Ref>)
    requires AgreedBut(h, lost) && PoolsSound(h) && Spare(h, r, lost)
    ensures After(h, ClearObject(h, r, unrefObjects), lost)
    ensures Spare(ClearObject(h, r, unrefObjects), r, lost)
    decreases Positive(h), 5
  {
    hide After, AgreedBut, PoolsSound, ClearFrom;
    AfterRefl(h, lost);
    var ty := h.objs[r].body.ty;
    var chain := ClearList(h, ty);
    if chain != [] {
      var h1 := ClearFrom(h, r, chain, |chain|, unrefObjects);
      ClearFromAgreed(h, r, chain, |chain|, unrefObjects, lost);
      AfterAgrees(h, h1, lost);
      var h2 := ClearObject(h, r, unrefObjects);
      AfterWrite(h1, r, h2.objs[r].body, lost);
      AfterTrans(h, h1, h2, lost);
    }
  }

  lemma AfterObjs(h: Heap, h': Heap, lost: set<Ref>)
    requires AgreedBut(h, lost) && h'.objs == h.objs
    ensures After(h, h', lost)
  {}

  lemma {:induction false} DestroyAgreed(h: Heap, r: Ref, lost: set<Ref>)
    requires AgreedBut(h, lost) && PoolsSound(h) && r in h.objs && h.objs[r].refcount == 0
    ensures After(h, Destroy(h, r), lost)
    decreases Positive(h), 9
  {
    hide After, AgreedBut, PoolsSound, ClearObject, FreePool, Frame;
    AfterRefl(h, lost);
    if !h.objs[r].body.deleted {
      var h1 := ClearObject(h, r, true);
      ClearObjectAgreed(h, r, true, lost);
      AfterAgrees(h, h1, lost);
      ClearObjectFrame(h, r, true);
      FrameAt(h, h1, {r}, r);
      BuryAgreed(h1, r, lost);
      var b := h1.objs[r].body;
      assert TearDown(h, r, true) == SetBody(h1, r, b.(deleted := true, teardowns := b.teardowns + 1));
      AfterTrans(h, h1, Destroy(h, r), lost);
    }
  }

  /** Marking an object deleted and recycling its pool. */
  lemma BuryAgreed(h: Heap, r: Ref, lost: set<Ref>)
    requires AgreedBut(h, lost) && PoolsSound(h) && Alive(h, r)
    ensures var b := h.objs[r].body;
            After(h, FreePool(SetBody(h, r, b.(deleted := true, teardowns := b.teardowns + 1)), b.pool), lost)
  {
    hide After, AgreedBut, PoolsSound, FreePool, LastResort, Frame;
    var b := h.objs[r].body;
    var marked := SetBody(h, r, b.(deleted := true, teardowns := b.teardowns + 1));
    Retire(h, r);
    AfterWrite(h, r, marked.objs[r].body, lost);
    AfterAgrees(h, marked, lost);
    FrameFree(marked, b.pool, {});
    AfterObjs(marked, FreePool(marked, b.pool), lost);
    AfterTrans(h, marked, FreePool(marked, b.pool), lost);
  }
}
