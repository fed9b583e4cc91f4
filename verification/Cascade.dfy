/** What dropping a reference leaves alone, whatever the heap looks like: cyclic, inconsistent or
    sound. Every later proof about a cascade of releases rests on this. */
module Cascade {
  import opened Options
  import opened Pools
  import opened Classes
  import opened Heaps

  // ---------------------------------------------------------------------------------------
  // Pools and objects
  // ---------------------------------------------------------------------------------------

  /** An object that has not been deleted. */
  predicate Alive(h: Heap, r: Ref) {
    r in h.objs && !h.objs[r].body.deleted
  }

  ghost predicate InUse(h: Heap, p: Pool) {
    exists r :: Alive(h, r) && h.objs[r].body.pool == p
  }

  /** Every pool ever made is in use by one live object, or buffered, or destroyed; no two live
      objects share one; a registered cleanup belongs to the live owner of its pool; and the clear
      chain ran once for each deleted object and never for another. */
  ghost predicate PoolsSound(h: Heap) {
    && |h.pools.stack| <= h.pools.capacity
    && Distinct(Idle(h.pools))
    && (forall p :: p in Idle(h.pools) ==> p < h.pools.made)
    && (forall r :: Alive(h, r) ==> h.objs[r].body.pool < h.pools.made)
    && (forall r :: Alive(h, r) ==> h.objs[r].body.pool !in Idle(h.pools))
    && (forall r, q :: Alive(h, r) && Alive(h, q) && r != q ==> h.objs[r].body.pool != h.objs[q].body.pool)
    && (forall p: Pool :: p < h.pools.made ==> p in Idle(h.pools) || InUse(h, p))
    && (forall p :: p in h.cleanups ==> Alive(h, h.cleanups[p]) && h.objs[h.cleanups[p]].body.pool == p)
    && (forall r :: r in h.objs ==> h.objs[r].body.teardowns == if h.objs[r].body.deleted then 1 else 0)
  }

  /** Writes that touch neither pools nor deletion marks. */
  lemma {:induction false} PoolsSoundKept(h: Heap, h': Heap)
    requires PoolsSound(h)
    requires h'.pools == h.pools && h'.cleanups == h.cleanups && h'.objs.Keys == h.objs.Keys
    requires forall r :: r in h.objs ==>
               && h'.objs[r].body.deleted == h.objs[r].body.deleted
               && h'.objs[r].body.pool == h.objs[r].body.pool
               && h'.objs[r].body.teardowns == h.objs[r].body.teardowns
    ensures PoolsSound(h')
  {
    hide InUse, Idle, Distinct;
    assert forall r :: Alive(h', r) <==> Alive(h, r);
    forall p: Pool | p < h.pools.made && InUse(h, p)
      ensures InUse(h', p)
    {
      InUseKept(h, h', p);
    }
  }

  lemma InUseKept(h: Heap, h': Heap, p: Pool)
    requires InUse(h, p)
    requires forall r :: Alive(h, r) ==> Alive(h', r) && h'.objs[r].body.pool == h.objs[r].body.pool
    ensures InUse(h', p)
  {
    var r :| Alive(h, r) && h.objs[r].body.pool == p;
    assert Alive(h', r);
  }

  lemma DistinctSnoc<T(!new)>(s: seq<T>, x: T)
    requires Distinct(s) && x !in s
    ensures Distinct(s + [x])
    ensures forall y :: y in s + [x] <==> y in s || y == x
  {}

  /** What marking an object deleted and recycling its pool amounts to. */
  ghost predicate Retired(h: Heap, r: Ref, h': Heap)
    requires r in h.objs
  {
    var b := h.objs[r].body;
    && h'.objs == h.objs[r := h.objs[r].(body := b.(deleted := true, teardowns := b.teardowns + 1))]
    && h'.cleanups == h.cleanups - {b.pool}
    && h'.pools == Recycle(h.pools, b.pool)
  }

  lemma RetiredInUse(h: Heap, r: Ref, h': Heap, p: Pool)
    requires Alive(h, r) && Retired(h, r, h') && InUse(h, p) && p != h.objs[r].body.pool
    ensures InUse(h', p)
  {
    var x :| Alive(h, x) && h.objs[x].body.pool == p;
    assert Alive(h', x);
  }

  lemma {:induction false} RetirePools(h: Heap, r: Ref, h': Heap)
    requires PoolsSound(h) && Alive(h, r) && Retired(h, r, h')
    ensures PoolsSound(h')
  {
    hide Recycle, InUse, Distinct, Idle;
    var gone := h.objs[r].body.pool;
    RetiredIdle(h, r, h');
    RetiredAlive(h, r, h');
    forall p: Pool | p < h.pools.made
      ensures p in Idle(h'.pools) || InUse(h', p)
    {
      if p !in Idle(h.pools) && p != gone {
        RetiredInUse(h, r, h', p);
      }
    }
  }

  lemma RetiredAlive(h: Heap, r: Ref, h': Heap)
    requires Alive(h, r) && Retired(h, r, h')
    ensures forall x :: Alive(h', x) <==> Alive(h, x) && x != r
    ensures forall x :: Alive(h', x) ==> h'.objs[x] == h.objs[x]
    ensures h'.cleanups == h.cleanups - {h.objs[r].body.pool}
  {
    hide Recycle;
  }

  /** The pool of a retired object is idle now. */
  lemma RetiredIdle(h: Heap, r: Ref, h': Heap)
    requires PoolsSound(h) && Alive(h, r) && Retired(h, r, h')
    ensures forall p :: p in Idle(h'.pools) <==> p in Idle(h.pools) || p == h.objs[r].body.pool
    ensures Distinct(Idle(h'.pools)) && |h'.pools.stack| <= h'.pools.capacity
    ensures h'.pools.made == h.pools.made
  {
    hide Recycle, InUse, Distinct, Idle;
    var gone := h.objs[r].body.pool;
    RecycleIdles(h.pools, gone);
    DistinctSnoc(Idle(h.pools), gone);
    RecycleKeeps(h.pools, gone);
  }

  lemma RecycleKeeps(ps: PoolState, p: Pool)
    ensures Recycle(ps, p).made == ps.made && Recycle(ps, p).capacity == ps.capacity
  {}

  /** The last steps of `y_destroy`: once the object is marked, clearing its pool finds nothing to
      clean up, and the pool goes back to the recycler. */
  lemma Retire(h: Heap, r: Ref)
    requires PoolsSound(h) && Alive(h, r)
    ensures var b := h.objs[r].body;
            var marked := SetBody(h, r, b.(deleted := true, teardowns := b.teardowns + 1));
            && LastResort(marked, b.pool) == marked.(cleanups := h.cleanups - {b.pool})
            && (b.pool in marked.cleanups ==> !Alive(marked, marked.cleanups[b.pool]))
            && PoolsSound(FreePool(marked, b.pool))
  {
    hide TearDown;
    var b := h.objs[r].body;
    var marked := SetBody(h, r, b.(deleted := true, teardowns := b.teardowns + 1));
    CleanupIsOwners(h, b.pool, r);
    if b.pool !in h.cleanups {
      assert h.cleanups - {b.pool} == h.cleanups;
    }
    hide PoolsSound;
    assert LastResort(marked, b.pool) == marked.(cleanups := h.cleanups - {b.pool});
    RetirePools(h, r, FreePool(marked, b.pool));
  }

  lemma CleanupIsOwners(h: Heap, p: Pool, r: Ref)
    requires PoolsSound(h) && Alive(h, r) && h.objs[r].body.pool == p
    ensures p in h.cleanups ==> h.cleanups[p] == r
  {}

  // ---------------------------------------------------------------------------------------
  // The frame of a cascade
  // ---------------------------------------------------------------------------------------

  /** Members through a cascade: each stays, or is zeroed; and Delta's private structure stays. */
  ghost predicate Dims(d: Data, e: Data) {
    && (e.code == d.code || e.code == 0) && (e.description == d.description || e.description == None)
    && (e.a == d.a || e.a == 0) && (e.b == d.b || e.b == None) && (e.d == d.d || e.d == None)
    && e.priv == d.priv
  }

  /** One object through a cascade: the count never grows, pointers are only ever nulled and members zeroed,
      and the pool and the deletion mark stay. */
  ghost predicate Fades(o: Obj, p: Obj) {
    && p.refcount <= o.refcount
    && Dims(o.body.data, p.body.data)
    && (p.target == o.target || p.target == None)
    && (forall s :: Get(p.body, s) == Get(o.body, s) || Get(p.body, s) == None)
    && p.body.pool == o.body.pool && (o.body.deleted ==> p.body.deleted)
  }

  /** An object whose count was already zero, or stays positive, is not written to. */
  ghost predicate Untouched(o: Obj, p: Obj) {
    o.refcount == 0 || p.refcount > 0 ==> p.body == o.body
  }

  /** Each registered cleanup stays registered unless its object has been deleted. */
  ghost predicate CleanupsKept(h: Heap, h': Heap) {
    forall p :: p in h.cleanups && Alive(h', h.cleanups[p]) ==> p in h'.cleanups && h'.cleanups[p] == h.cleanups[p]
  }

  /** The heap through a cascade that is clearing the objects in `busy`. */
  ghost predicate Frame(h: Heap, h': Heap, busy: set<Ref>) {
    && h'.types == h.types && h'.next == h.next && h'.objs.Keys == h.objs.Keys
    && h'.cleanups.Keys <= h.cleanups.Keys && CleanupsKept(h, h')
    && (forall x :: x in h.objs ==> Fades(h.objs[x], h'.objs[x]))
    && (forall x :: x in h.objs && x !in busy ==> Untouched(h.objs[x], h'.objs[x]))
  }

  /** An object being cleared keeps its deletion mark while its count is zero. */
  ghost predicate Undecided(h: Heap, h': Heap, r: Ref)
    requires r in h.objs && r in h'.objs
  {
    h.objs[r].refcount == 0 ==> && h'.objs[r].body.deleted == h.objs[r].body.deleted
                                && h'.objs[r].body.teardowns == h.objs[r].body.teardowns
  }

  lemma FrameRefl(h: Heap, busy: set<Ref>)
    ensures Frame(h, h, busy)
  {}

  /** What a frame says about one object. */
  lemma FrameAt(h: Heap, h': Heap, busy: set<Ref>, x: Ref)
    requires Frame(h, h', busy) && x in h.objs
    ensures x in h'.objs && Fades(h.objs[x], h'.objs[x])
    ensures x !in busy ==> Untouched(h.objs[x], h'.objs[x])
    ensures h'.types == h.types && h'.next == h.next && h'.objs.Keys == h.objs.Keys
  {}

  /** An object that was cleared after its count fell to zero is no exception. */
  lemma {:induction false} FrameZero(h0: Heap, h1: Heap, h2: Heap, r: Ref)
    requires Frame(h0, h1, {}) && Frame(h1, h2, {r})
    requires r in h0.objs && h0.objs[r].refcount > 0 && h1.objs[r].refcount == 0
    ensures Frame(h0, h2, {})
  {
    FrameWiden(h0, h1, {}, {r});
    FrameTrans(h0, h1, h2, {r});
    assert Fades(h1.objs[r], h2.objs[r]);
  }

  lemma {:induction false} FrameTrans(h0: Heap, h1: Heap, h2: Heap, busy: set<Ref>)
    requires Frame(h0, h1, busy) && Frame(h1, h2, busy)
    ensures Frame(h0, h2, busy)
  {
    CleanupsTrans(h0, h1, h2, busy);
    hide CleanupsKept;
    forall x | x in h0.objs
      ensures Fades(h0.objs[x], h2.objs[x])
      ensures x !in busy ==> Untouched(h0.objs[x], h2.objs[x])
    {
      assert Fades(h0.objs[x], h1.objs[x]) && Fades(h1.objs[x], h2.objs[x]);
    }
  }

  lemma CleanupsTrans(h0: Heap, h1: Heap, h2: Heap, busy: set<Ref>)
    requires Frame(h0, h1, busy) && Frame(h1, h2, busy)
    ensures CleanupsKept(h0, h2)
  {
    hide Untouched, Dims;
    forall p | p in h0.cleanups && Alive(h2, h0.cleanups[p])
      ensures p in h2.cleanups && h2.cleanups[p] == h0.cleanups[p]
    {
      assert Fades(h1.objs[h0.cleanups[p]], h2.objs[h0.cleanups[p]]);
    }
  }

  lemma FrameWiden(h: Heap, h': Heap, busy: set<Ref>, more: set<Ref>)
    requires Frame(h, h', busy) && busy <= more
    ensures Frame(h, h', more)
  {}

  /** Writing an object that is being cleared: members, class or a nulled slot. */
  lemma FrameBody(h: Heap, r: Ref, b: Body)
    requires r in h.objs && b.pool == h.objs[r].body.pool && (h.objs[r].body.deleted ==> b.deleted)
    requires forall s :: Get(b, s) == Get(h.objs[r].body, s) || Get(b, s) == None
    requires Dims(h.objs[r].body.data, b.data)
    ensures Frame(h, SetBody(h, r, b), {r})
  {}

  lemma {:induction false} FrameCount(h: Heap, r: Ref)
    requires r in h.objs && h.objs[r].refcount > 0
    ensures Frame(h, SetCount(h, r, h.objs[r].refcount - 1), {})
  {}

  lemma {:induction false} UnsetKeeps(h: Heap, w: Option<Ref>)
    ensures forall x :: x in h.objs ==>
              Unset(h, w).objs[x].refcount == h.objs[x].refcount && Unset(h, w).objs[x].body == h.objs[x].body
    ensures Unset(h, w) == h.(objs := Unset(h, w).objs)
    ensures forall x :: x in h.objs ==>
              Unset(h, w).objs[x].target == h.objs[x].target || Unset(h, w).objs[x].target == None
  {}

  lemma {:induction false} FrameUnset(h: Heap, w: Option<Ref>)
    requires PoolsSound(h)
    ensures Frame(h, Unset(h, w), {}) && PoolsSound(Unset(h, w))
  {
    hide PoolsSound, Unset;
    UnsetKeeps(h, w);
    PoolsSoundKept(h, Unset(h, w));
  }

  /** Dropping a reference writes to no object except those that it brings to zero, and keeps pools
      and objects in step. */
  lemma {:induction false} UnrefFrame(h: Heap, r: Ref)
    requires PoolsSound(h)
    ensures Frame(h, Unref(h, r), {}) && PoolsSound(Unref(h, r))
    decreases Positive(h), 0
  {
    hide PoolsSound, Frame, Destroy, Unset;
    if r in h.objs && h.objs[r].refcount > 0 {
      var h1 := SetCount(h, r, h.objs[r].refcount - 1);
      DecrementFrame(h, r);
      if h1.objs[r].refcount == 0 {
        var h2 := Unset(h1, h1.objs[r].body.weakRef);
        assert r in Positive(h) && r !in Positive(h2);
        DestroyFrame(h2, r);
        FrameZero(h, h2, Destroy(h2, r), r);
      }
    } else {
      FrameRefl(h, {});
    }
  }

  /** The count goes down by one and, at zero, the weak reference is unset. */
  lemma {:induction false} DecrementFrame(h: Heap, r: Ref)
    requires PoolsSound(h) && r in h.objs && h.objs[r].refcount > 0
    ensures var h1 := SetCount(h, r, h.objs[r].refcount - 1);
            var h2 := Unset(h1, h.objs[r].body.weakRef);
            && Frame(h, h1, {}) && PoolsSound(h1) && Frame(h, h2, {}) && PoolsSound(h2)
            && r in h2.objs && h2.objs[r].refcount == h1.objs[r].refcount && h2.objs[r].body == h.objs[r].body
  {
    hide PoolsSound, Frame, Unset;
    var h1 := SetCount(h, r, h.objs[r].refcount - 1);
    var h2 := Unset(h1, h.objs[r].body.weakRef);
    FrameCount(h, r);
    PoolsSoundKept(h, h1);
    FrameUnset(h1, h.objs[r].body.weakRef);
    UnsetKeeps(h1, h.objs[r].body.weakRef);
    FrameTrans(h, h1, h2, {});
  }

  /** Nulling a slot of an object that is being cleared. */
  lemma {:induction false} NullFrame(h: Heap, r: Ref, s: Slot)
    requires r in h.objs && PoolsSound(h)
    ensures var h' := SetSlot(h, r, s, None);
            && Frame(h, h', {r}) && PoolsSound(h') && Get(h'.objs[r].body, s) == None
            && h'.objs[r].body.deleted == h.objs[r].body.deleted
            && h'.objs[r].body.teardowns == h.objs[r].body.teardowns
  {
    hide PoolsSound, Frame, Put;
    FrameBody(h, r, Put(h.objs[r].body, s, None));
    PoolsSoundKept(h, SetSlot(h, r, s, None));
  }

  lemma {:induction false} ReleaseFrame(h: Heap, r: Ref, s: Slot)
    requires r in h.objs && PoolsSound(h)
    ensures Frame(h, Release(h, r, s), {r}) && Undecided(h, Release(h, r, s), r)
    ensures PoolsSound(Release(h, r, s))
    ensures Get(Release(h, r, s).objs[r].body, s) == None
    decreases Positive(h), 1
  {
    hide PoolsSound, Frame, Unref, Fades, SetSlot;
    var v := Get(h.objs[r].body, s);
    if v.Some? {
      var h1 := Unref(h, v.value);
      UnrefFrame(h, v.value);
      FrameAt(h, h1, {}, r);
      FrameWiden(h, h1, {}, {r});
      NullFrame(h1, r, s);
      FrameTrans(h, h1, Release(h, r, s), {r});
    } else {
      FrameRefl(h, {r});
    }
  }

  /** Zeroing members. */
  lemma {:induction false} DataFrame(h: Heap, r: Ref, d: Data)
    requires r in h.objs && PoolsSound(h)
    requires Dims(h.objs[r].body.data, d)
    ensures Frame(h, SetData(h, r, d), {r}) && PoolsSound(SetData(h, r, d)) && Undecided(h, SetData(h, r, d), r)
  {
    hide PoolsSound, Frame, Dims;
    FrameBody(h, r, h.objs[r].body.(data := d));
    PoolsSoundKept(h, SetData(h, r, d));
  }

  lemma {:induction false} ClearErrorFrame(h: Heap, r: Ref)
    requires r in h.objs && PoolsSound(h)
    ensures Frame(h, ClearError(h, r), {r}) && Undecided(h, ClearError(h, r), r)
    ensures PoolsSound(ClearError(h, r))
    decreases Positive(h), 2
  {
    hide PoolsSound, Frame, Release;
    if Casts(h, r, ErrorT) {
      var h1 := SetData(h, r, h.objs[r].body.data.(code := 0, description := None));
      DataFrame(h, r, h1.objs[r].body.data);
      ReleaseFrame(h1, r, CauseSlot);
      FrameTrans(h, h1, ClearError(h, r), {r});
    } else {
      FrameRefl(h, {r});
    }
  }

  lemma ClearAlphaFrame(h: Heap, r: Ref)
    requires r in h.objs && PoolsSound(h)
    ensures Frame(h, ClearAlpha(h, r), {r}) && Undecided(h, ClearAlpha(h, r), r)
    ensures PoolsSound(ClearAlpha(h, r))
  {
    hide PoolsSound, Frame;
    FrameBody(h, r, ClearAlpha(h, r).objs[r].body);
    FrameRefl(h, {r});
    PoolsSoundKept(h, ClearAlpha(h, r));
  }

  lemma {:induction false} ClearDeltaFrame(h: Heap, r: Ref, unrefObjects: bool)
    requires r in h.objs && PoolsSound(h)
    ensures Frame(h, ClearDelta(h, r, unrefObjects), {r}) && Undecided(h, ClearDelta(h, r, unrefObjects), r)
    ensures PoolsSound(ClearDelta(h, r, unrefObjects))
    decreases Positive(h), 2
  {
    hide PoolsSound, Frame, Release;
    FrameRefl(h, {r});
    if Casts(h, r, DeltaT) {
      var h1 := SetData(h, r, h.objs[r].body.data.(b := None));
      DataFrame(h, r, h1.objs[r].body.data);
      var h2 := if unrefObjects then Release(h1, r, CSlot) else h1;
      FrameRefl(h1, {r});
      if unrefObjects { ReleaseFrame(h1, r, CSlot); }
      FrameTrans(h, h1, h2, {r});
      var h3 := ClearDelta(h, r, unrefObjects);
      DataFrame(h2, r, h2.objs[r].body.data.(d := None));
      FrameTrans(h, h2, h3, {r});
    }
  }

  lemma {:induction false} ExecClearFrame(h: Heap, r: Ref, exec: ClearExec, unrefObjects: bool)
    requires r in h.objs && PoolsSound(h)
    ensures Frame(h, ExecClear(h, r, exec, unrefObjects), {r})
    ensures Undecided(h, ExecClear(h, r, exec, unrefObjects), r)
    ensures PoolsSound(ExecClear(h, r, exec, unrefObjects))
    decreases Positive(h), 3
  {
    hide PoolsSound, Frame, Release, ClearError, ClearDelta, ClearAlpha;
    FrameRefl(h, {r});
    match exec
    case ObjectClear => if unrefObjects { ReleaseFrame(h, r, WeakSlot); }
    case ErrorClear => ClearErrorFrame(h, r);
    case AlphaClear => ClearAlphaFrame(h, r);
    case DeltaClear => ClearDeltaFrame(h, r, unrefObjects);
    case UserClear =>
  }

  /** One turn of the loop in `y_clear_object`. */
  lemma {:induction false} ClearStepFrame(h: Heap, r: Ref, m: Method<ClearExec>, unrefObjects: bool)
    requires r in h.objs && PoolsSound(h)
    ensures var h' := ExecClear(Bless(h, r, m.ty), r, m.exec, unrefObjects);
            Frame(h, h', {r}) && Undecided(h, h', r) && PoolsSound(h')
    decreases Positive(h), 4, 0
  {
    hide PoolsSound, Frame, ExecClear;
    var h0 := Bless(h, r, m.ty);
    FrameBody(h, r, h0.objs[r].body);
    PoolsSoundKept(h, h0);
    ExecClearFrame(h0, r, m.exec, unrefObjects);
    FrameTrans(h, h0, ExecClear(h0, r, m.exec, unrefObjects), {r});
  }

  lemma {:induction false} ClearFromFrame(h: Heap, r: Ref, chain: seq<Method<ClearExec>>, i: nat, unrefObjects: bool)
    requires r in h.objs && i <= |chain| && PoolsSound(h)
    ensures Frame(h, ClearFrom(h, r, chain, i, unrefObjects), {r})
    ensures Undecided(h, ClearFrom(h, r, chain, i, unrefObjects), r)
    ensures PoolsSound(ClearFrom(h, r, chain, i, unrefObjects))
    decreases Positive(h), 4, i
  {
    hide PoolsSound, Frame, ExecClear, Bless;
    if i > 0 {
      var h1 := ExecClear(Bless(h, r, chain[i - 1].ty), r, chain[i - 1].exec, unrefObjects);
      ClearStepFrame(h, r, chain[i - 1], unrefObjects);
      FrameAt(h, h1, {r}, r);
      ClearFromFrame(h1, r, chain, i - 1, unrefObjects);
      FrameTrans(h, h1, ClearFrom(h, r, chain, i, unrefObjects), {r});
    } else {
      FrameRefl(h, {r});
    }
  }

  /** Clearing an object writes to it, and otherwise only to objects that it brings to zero; the
      object has its own class again afterwards. */
  lemma {:induction false} ClearObjectFrame(h: Heap, r: Ref, unrefObjects: bool)
    requires r in h.objs && PoolsSound(h)
    ensures Frame(h, ClearObject(h, r, unrefObjects), {r})
    ensures Undecided(h, ClearObject(h, r, unrefObjects), r)
    ensures ClearObject(h, r, unrefObjects).objs[r].body.ty == h.objs[r].body.ty
    ensures PoolsSound(ClearObject(h, r, unrefObjects))
    decreases Positive(h), 5
  {
    hide PoolsSound, Frame, ClearFrom;
    var ty := h.objs[r].body.ty;
    var chain := ClearList(h, ty);
    if chain != [] {
      var h1 := ClearFrom(h, r, chain, |chain|, unrefObjects);
      ClearFromFrame(h, r, chain, |chain|, unrefObjects);
      FrameBody(h1, r, h1.objs[r].body.(ty := ty));
      FrameTrans(h, h1, ClearObject(h, r, unrefObjects), {r});
      PoolsSoundKept(h1, ClearObject(h, r, unrefObjects));
    } else {
      FrameRefl(h, {r});
    }
  }

  /** Destroying an object that nothing refers to any more: it ends up deleted, and its pool is back
      with the recycler. */
  lemma {:induction false} DestroyFrame(h: Heap, r: Ref)
    requires PoolsSound(h) && r in h.objs && h.objs[r].refcount == 0
    ensures Frame(h, Destroy(h, r), {r}) && PoolsSound(Destroy(h, r))
    ensures Destroy(h, r).objs[r].body.deleted
    ensures Destroy(h, r).objs[r].body.ty == h.objs[r].body.ty
    decreases Positive(h), 9
  {
    hide PoolsSound, Frame, ClearObject, FreePool;
    if !h.objs[r].body.deleted {
      var h1 := ClearObject(h, r, true);
      ClearObjectFrame(h, r, true);
      var b := h1.objs[r].body;
      var h2 := SetBody(h1, r, b.(deleted := true, teardowns := b.teardowns + 1));
      assert h2 == TearDown(h, r, true);
      Retire(h1, r);
      FrameBody(h1, r, h2.objs[r].body);
      FrameTrans(h, h1, h2, {r});
      FrameFree(h2, b.pool, {r});
      FrameTrans(h, h2, Destroy(h, r), {r});
    } else {
      FrameRefl(h, {r});
    }
  }

  /** Freeing a pool with nothing to clean up writes to no object. */
  lemma FrameFree(h: Heap, p: Pool, busy: set<Ref>)
    requires LastResort(h, p) == h.(cleanups := h.cleanups - {p})
    requires p in h.cleanups ==> !Alive(h, h.cleanups[p])
    ensures FreePool(h, p).objs == h.objs && Frame(h, FreePool(h, p), busy)
  {}
}
