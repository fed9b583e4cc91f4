/** What each call of the library does to the references that callers hold. */
module Accounts {
  import opened Options
  import opened Pools
  import opened Classes
  import opened Heaps
  import opened Cascade
  import opened Counts

  /** Identities still to come are larger than those in use. */
  ghost predicate Young(h: Heap) {
    forall r :: r in h.objs ==> r < h.next
  }

  /** Weak references are younger than their referents. */
  ghost predicate Aging(h: Heap) {
    forall x :: x in h.objs && h.objs[x].body.weakRef.Some? ==> x < h.objs[x].body.weakRef.value
  }

  /** The heap between two steps of a call that is working on the objects in `busy`; with no busy
      objects, the heap between two calls. */
  ghost predicate Sane(h: Heap, held: multiset<Ref>, busy: set<Ref>) {
    Balanced(h, held, {}, busy) && Pinned(h, held, busy) && Young(h)
  }

  /** The reference, if any, that a pointer carries. */
  function One(r: Option<Ref>): multiset<Ref> {
    if r.Some? then multiset{r.value} else multiset{}
  }

  /** The reference that an error location holds. */
  function Stowed(err: ErrorLocation): multiset<Ref> {
    if err.Location? then One(err.error) else multiset{}
  }

  // ---------------------------------------------------------------------------------------
  // Single steps
  // ---------------------------------------------------------------------------------------

  lemma YoungKept(h: Heap, h': Heap)
    requires Young(h) && h'.objs.Keys <= h.objs.Keys && h'.next == h.next
    ensures Young(h')
  {}

  lemma PinnedKept(h: Heap, h': Heap, held: multiset<Ref>, more: multiset<Ref>, busy: set<Ref>)
    requires Pinned(h, held, busy) && h.objs.Keys <= h'.objs.Keys && held <= more
    requires forall x :: x in h.objs && x in busy ==>
               && h'.objs[x].body.deleted == h.objs[x].body.deleted
               && (h.objs[x].refcount == 0 ==> h'.objs[x].refcount == 0)
    ensures Pinned(h', more, busy)
  {}

  /** `y_unref` */
  lemma UnrefSane(h: Heap, r: Ref, held: multiset<Ref>, busy: set<Ref>)
    requires Sane(h, held + multiset{r}, busy) && Pinned(h, held, busy)
    ensures Sane(Unref(h, r), held, busy)
  {
    hide Balanced, Pinned, Unref, Frame, PoolsSound;
    UnrefBalances(h, r, held, {}, busy);
    assert PoolsSound(h) by { BalancedParts(h, held + multiset{r}, {}, busy); }
    UnrefFrame(h, r);
    FrameParts(h, Unref(h, r), {});
    YoungKept(h, Unref(h, r));
  }

  lemma BalancedParts(h: Heap, held: multiset<Ref>, given: set<Edge>, busy: set<Ref>)
    requires Balanced(h, held, given, busy)
    ensures Sound(h.types) && PoolsSound(h) && Counted(h, held, given)
    ensures forall r :: r in h.objs && r !in busy ==> Settled(h, h.objs[r])
  {}

  lemma FrameParts(h: Heap, h': Heap, busy: set<Ref>)
    requires Frame(h, h', busy)
    ensures h'.types == h.types && h'.next == h.next && h'.objs.Keys == h.objs.Keys
  {}

  lemma OwnersKept(h: Heap, h': Heap, o: Ref)
    requires h'.objs.Keys == h.objs.Keys
    requires forall x, s :: x in h.objs ==> Get(h'.objs[x].body, s) == Get(h.objs[x].body, s)
    ensures Owners(h', o, {}) == Owners(h, o, {}) && Edges(h') == Edges(h)
  {}

  lemma CountsUp(h: Heap, h': Heap, r: Ref, held: multiset<Ref>)
    requires Counted(h, held, {}) && r in h.objs
    requires h'.objs == h.objs[r := h.objs[r].(refcount := h.objs[r].refcount + 1)]
    ensures Counted(h', held + multiset{r}, {})
  {
    hide Owners, Edges;
    forall o | o in h.objs
      ensures h'.objs[o].refcount == (held + multiset{r})[o] + |Owners(h', o, {})|
    {
      OwnersKept(h, h', o);
    }
    OwnersKept(h, h', r);
    assert forall e :: e in Edges(h) ==> e.holder in h.objs by { EdgesThere(h); }
  }

  lemma EdgesThere(h: Heap)
    ensures forall e :: e in Edges(h) <==> e.holder in h.objs
  {
    forall e: Edge | e.holder in h.objs
      ensures e in Edges(h)
    {
      match e.slot
      case WeakSlot => assert e == Edge(e.holder, WeakSlot);
      case CauseSlot => assert e == Edge(e.holder, CauseSlot);
      case CSlot => assert e == Edge(e.holder, CSlot);
    }
  }

  /** `y_ref` on an object that is held. */
  lemma RefSane(h: Heap, r: Ref, held: multiset<Ref>, busy: set<Ref>)
    requires Sane(h, held, busy) && Granted(h, r)
    ensures Sane(AddRef(h, r), held + multiset{r}, busy)
  {
    hide Counted, PoolsSound, Sound, Covered, Young, Pinned;
    var h' := AddRef(h, r);
    CountsUp(h, h', r, held);
    PoolsSoundKept(h, h');
    PinnedKept(h, h', held, held + multiset{r}, busy);
    YoungKept(h, h');
    forall x | x in h'.objs && x !in busy
      ensures Settled(h', h'.objs[x])
    {
      assert Settled(h, h.objs[x]);
      CoveredKept(h, h', h.objs[x].body);
    }
  }

  /** A held object is there. */
  lemma HeldIsGranted(h: Heap, r: Ref, held: multiset<Ref>, busy: set<Ref>)
    requires Sane(h, held, busy) && r in held
    ensures Granted(h, r)
    ensures r !in busy ==> Alive(h, r) && Covered(h, h.objs[r].body) && h.objs[r].body.ty in h.types
  {
    hide PoolsSound, Sound;
    assert h.objs[r].refcount == held[r] + |Owners(h, r, {})|;
    assert r !in busy ==> Settled(h, h.objs[r]);
  }

  /** Writing an object without touching its slots, its pool or its deletion mark. */
  lemma WriteSane(h: Heap, r: Ref, b: Body, held: multiset<Ref>, busy: set<Ref>)
    requires Sane(h, held, busy) && r in h.objs
    requires var was := h.objs[r].body;
             && b.pool == was.pool && b.deleted == was.deleted && b.teardowns == was.teardowns
             && forall s :: Get(b, s) == Get(was, s)
    requires r !in busy && h.objs[r].refcount > 0 ==> Covered(h, b)
    ensures Sane(SetBody(h, r, b), held, busy)
  {
    hide Counted, PoolsSound, Sound, Covered, Young, Pinned;
    var h' := SetBody(h, r, b);
    CountsKept(h, h', held, {});
    PoolsSoundKept(h, h');
    PinnedKept(h, h', held, held, busy);
    YoungKept(h, h');
    CoveredKept(h, h', b);
    forall x | x in h'.objs && x !in busy
      ensures Settled(h', h'.objs[x])
    {
      assert Settled(h, h.objs[x]);
      CoveredKept(h, h', h.objs[x].body);
    }
  }

  /** Writing members only. */
  lemma DataSane(h: Heap, r: Ref, d: Data, held: multiset<Ref>, busy: set<Ref>)
    requires Sane(h, held, busy) && r in h.objs
    ensures Sane(SetData(h, r, d), held, busy)
  {
    hide Balanced, Pinned, Young;
    var b := h.objs[r].body.(data := d);
    if r !in busy && h.objs[r].refcount > 0 {
      SettledAt(h, r, held, busy);
    }
    WriteSane(h, r, b, held, busy);
  }

  lemma SettledAt(h: Heap, r: Ref, held: multiset<Ref>, busy: set<Ref>)
    requires Sane(h, held, busy) && r in h.objs && r !in busy
    ensures Settled(h, h.objs[r])
  {}

  lemma TargetSane(h: Heap, w: Ref, t: Option<Ref>, held: multiset<Ref>, busy: set<Ref>)
    requires Sane(h, held, busy) && w in h.objs
    ensures Sane(SetTarget(h, w, t), held, busy)
  {
    hide Counted, PoolsSound, Sound, Covered, Young, Pinned;
    var h' := SetTarget(h, w, t);
    CountsKept(h, h', held, {});
    PoolsSoundKept(h, h');
    PinnedKept(h, h', held, held, busy);
    YoungKept(h, h');
    forall x | x in h'.objs && x !in busy
      ensures Settled(h', h'.objs[x])
    {
      assert Settled(h, h.objs[x]);
      CoveredKept(h, h', h.objs[x].body);
    }
  }

  lemma OwnersStore(h: Heap, e: Edge, t: Ref, o: Ref)
    requires e.holder in h.objs && Points(h, e) == None
    ensures var h' := SetSlot(h, e.holder, e.slot, Some(t));
            && |Owners(h', o, {})| == |Owners(h, o, {})| + (if o == t then 1 else 0)
            && forall d: Edge :: d.holder in h.objs ==> Points(h', d) == if d == e then Some(t) else Points(h, d)
  {
    var h' := SetSlot(h, e.holder, e.slot, Some(t));
    EdgesThere(h);
    EdgesThere(h');
    forall d: Edge | d.holder in h.objs
      ensures Points(h', d) == if d == e then Some(t) else Points(h, d)
    {}
    if o == t {
      assert Owners(h', o, {}) == Owners(h, o, {}) + {e};
    } else {
      assert Owners(h', o, {}) == Owners(h, o, {});
    }
  }

  lemma CountsStore(h: Heap, e: Edge, t: Ref, held: multiset<Ref>)
    requires Counted(h, held + multiset{t}, {}) && e.holder in h.objs && Points(h, e) == None
    ensures Counted(SetSlot(h, e.holder, e.slot, Some(t)), held, {})
  {
    hide Owners, Edges;
    var h' := SetSlot(h, e.holder, e.slot, Some(t));
    assert t in held + multiset{t};
    EdgesThere(h);
    EdgesThere(h');
    OwnersStore(h, e, t, t);
    forall o | o in h.objs
      ensures h'.objs[o].refcount == held[o] + |Owners(h', o, {})|
    {
      OwnersStore(h, e, t, o);
    }
  }

  /** A reference that the caller held is stored in a slot that was null. */
  lemma StoreSane(h: Heap, r: Ref, s: Slot, t: Ref, held: multiset<Ref>, busy: set<Ref>)
    requires Sane(h, held + multiset{t}, busy) && Pinned(h, held, busy)
    requires r in h.objs && Get(h.objs[r].body, s) == None
    requires r in busy || (h.objs[r].refcount > 0 && Releaser(s) in ClearList(h, h.objs[r].body.ty))
    ensures Sane(SetSlot(h, r, s, Some(t)), held, busy)
  {
    hide Counted, PoolsSound, Sound, Young, Pinned;
    var h' := SetSlot(h, r, s, Some(t));
    CountsStore(h, Edge(r, s), t, held);
    PoolsSoundKept(h, h');
    PinnedKept(h, h', held, held, busy);
    YoungKept(h, h');
    forall x | x in h'.objs && x !in busy
      ensures Settled(h', h'.objs[x])
    {
      assert Settled(h, h.objs[x]);
      hide Covered;
      CoveredKept(h, h', h.objs[x].body);
    }
  }

  // ---------------------------------------------------------------------------------------
  // Creating
  // ---------------------------------------------------------------------------------------

  lemma AllocateInUse(h: Heap, ty: TypeId, p: Pool)
    requires Young(h) && (InUse(h, p) || p == NextPool(h.pools))
    ensures InUse(Allocate(h, ty), p)
  {
    var h' := Allocate(h, ty);
    if p == NextPool(h.pools) {
      assert Alive(h', h.next);
    } else {
      var r :| Alive(h, r) && h.objs[r].body.pool == p;
      assert Alive(h', r);
    }
  }

  /** The next pool is in nobody's hands. */
  lemma NextPoolIsFree(h: Heap)
    requires PoolsSound(h)
    ensures forall r :: Alive(h, r) ==> h.objs[r].body.pool != NextPool(h.pools)
    ensures NextPool(h.pools) !in Idle(Draw(h.pools)) && NextPool(h.pools) < Draw(h.pools).made
    ensures Distinct(Idle(Draw(h.pools))) && |Draw(h.pools).stack| <= Draw(h.pools).capacity
    ensures forall p :: p in Idle(h.pools) <==>
                        p in Idle(Draw(h.pools)) || (p == NextPool(h.pools) && h.pools.stack != [])
    ensures Draw(h.pools).made == h.pools.made + if h.pools.stack == [] then 1 else 0
  {
    hide InUse;
    var idle, later, p := Idle(h.pools), Idle(Draw(h.pools)), NextPool(h.pools);
    DrawUnidles(h.pools);
    if h.pools.stack != [] {
      assert idle == later + [p];
      assert idle[|idle| - 1] == p;
      assert forall i :: 0 <= i < |later| ==> later[i] == idle[i];
      assert p in idle;
    }
  }

  /** Every pool is idle or in use after drawing one. */
  lemma AllocateCovers(h: Heap, ty: TypeId, p: Pool)
    requires PoolsSound(h) && Young(h) && p < Draw(h.pools).made
    ensures p in Idle(Draw(h.pools)) || InUse(Allocate(h, ty), p)
  {
    hide InUse, Idle, Distinct, NextPool, Draw, Allocate;
    NextPoolIsFree(h);
    if p !in Idle(Draw(h.pools)) {
      assert p in Idle(h.pools) || InUse(h, p) || p == NextPool(h.pools) by {
        if p >= h.pools.made { NewestPool(h.pools, p); }
      }
      AllocateInUse(h, ty, p);
    }
  }

  lemma AllocatePools(h: Heap, ty: TypeId)
    requires PoolsSound(h) && Young(h)
    ensures PoolsSound(Allocate(h, ty))
  {
    hide InUse, Idle, Distinct, NextPool, Draw;
    var h' := Allocate(h, ty);
    NextPoolIsFree(h);
    AllocateAlive(h, ty);
    forall p: Pool | p < h'.pools.made
      ensures p in Idle(h'.pools) || InUse(h', p)
    {
      AllocateCovers(h, ty, p);
    }
    hide Alive;
  }

  lemma AllocateAlive(h: Heap, ty: TypeId)
    requires Young(h)
    ensures forall r :: Alive(Allocate(h, ty), r) <==> Alive(h, r) || r == h.next
    ensures forall r :: Alive(h, r) ==> r != h.next && Allocate(h, ty).objs[r] == h.objs[r]
  {
    hide NextPool, Draw;
  }

  lemma NewestPool(ps: PoolState, p: Pool)
    requires ps.made <= p < Draw(ps).made
    ensures p == NextPool(ps)
  {}

  lemma AllocateCounts(h: Heap, ty: TypeId, held: multiset<Ref>)
    requires Counted(h, held, {}) && Young(h)
    ensures Counted(Allocate(h, ty), held + multiset{h.next}, {})
  {
    var h' := Allocate(h, ty);
    EdgesThere(h);
    EdgesThere(h');
    forall e: Edge | e.holder in h'.objs
      ensures Points(h', e) == if e.holder == h.next then None else Points(h, e)
    {}
    forall o | o in h'.objs
      ensures o != h.next ==> Owners(h', o, {}) == Owners(h, o, {})
      ensures o == h.next ==> Owners(h', o, {}) == {}
    {
      hide Points;
    }
  }

  lemma AllocateSane(h: Heap, ty: TypeId, held: multiset<Ref>, busy: set<Ref>)
    requires Sane(h, held, busy) && ty in h.types
    ensures Sane(Allocate(h, ty), held + multiset{h.next}, busy)
  {
    hide Counted, PoolsSound, Sound, Pinned;
    var h' := Allocate(h, ty);
    AllocatePools(h, ty);
    AllocateCounts(h, ty, held);
    PinnedKept(h, h', held, held + multiset{h.next}, busy);
    forall x | x in h'.objs && x !in busy
      ensures Settled(h', h'.objs[x])
    {
      if x in h.objs {
        assert Settled(h, h.objs[x]);
        CoveredKept(h, h', h.objs[x].body);
      }
    }
  }

  /** Registering the last-resort cleanup of an object with its own pool. */
  lemma RegisterSane(h: Heap, r: Ref, held: multiset<Ref>, busy: set<Ref>)
    requires Sane(h, held, busy) && Alive(h, r)
    ensures Sane(h.(cleanups := h.cleanups[h.objs[r].body.pool := r]), held, busy)
  {
    hide Counted, Sound, Pinned, Covered, PoolsSound;
    var h' := h.(cleanups := h.cleanups[h.objs[r].body.pool := r]);
    CountsKept(h, h', held, {});
    PinnedKept(h, h', held, held, busy);
    RegisterPools(h, r);
    forall x | x in h'.objs && x !in busy
      ensures Settled(h', h'.objs[x])
    {
      assert Settled(h, h.objs[x]);
      CoveredKept(h, h', h.objs[x].body);
    }
  }

  lemma RegisterPools(h: Heap, r: Ref)
    requires PoolsSound(h) && Alive(h, r)
    ensures PoolsSound(h.(cleanups := h.cleanups[h.objs[r].body.pool := r]))
  {}

  /** `y_create` of a class without init methods always succeeds, and leaves the error location alone. */
  lemma CreatePlain(h: Heap, ty: TypeId, err: ErrorLocation)
    requires InitList(h, ty) == []
    ensures var h1 := Allocate(h, ty);
            Create(h, ty, err)
            == (h1.(cleanups := h1.cleanups[NextPool(h.pools) := h.next]), Some(h.next), err)
  {
    var h1 := Allocate(h, ty);
    assert InitFrom(h1, h.next, [], 0, err) == (h1, true, err);
    assert Bless(h1, h.next, ty) == h1 by {
      assert h1.objs[h.next := h1.objs[h.next]] == h1.objs;
    }
  }

  lemma CreatePlainSane(h: Heap, ty: TypeId, err: ErrorLocation, held: multiset<Ref>, busy: set<Ref>)
    requires Sane(h, held, busy) && InitList(h, ty) == [] && ty in h.types
    ensures var (h', r, err') := Create(h, ty, err);
            && r == Some(h.next) && err' == err && Sane(h', held + multiset{h.next}, busy)
            && h.next in h'.objs && h'.objs[h.next] == Fresh(ty, NextPool(h.pools))
            && h'.types == h.types
            && (forall x :: x in h.objs ==> x in h'.objs && h'.objs[x] == h.objs[x])
  {
    hide Balanced, Pinned, Create;
    CreatePlain(h, ty, err);
    AllocateSane(h, ty, held, busy);
    RegisterSane(Allocate(h, ty), h.next, held + multiset{h.next}, busy);
  }

  /** The new error of `y_Error_throw`, before it takes over the cause. */
  ghost function NewError(h: Heap, code: int, description: Option<string>): Heap {
    var h1 := Create(h, ErrorT, Ignored).0;
    if h.next !in h1.objs then h1
    else SetData(h1, h.next, h1.objs[h.next].body.data.(code := code, description := description))
  }

  lemma ThrowShape(h: Heap, err: ErrorLocation, code: int, description: Option<string>)
    requires err.Location? && InitList(h, ErrorT) == []
    ensures var h2 := NewError(h, code, description);
            h.next in h2.objs && Throw(h, err, code, description)
                                 == (SetSlot(h2, h.next, CauseSlot, err.error), Location(Some(h.next)))
  {}

  lemma NewErrorSane(h: Heap, code: int, description: Option<string>, held: multiset<Ref>, busy: set<Ref>)
    requires Sane(h, held, busy) && InitList(h, ErrorT) == [] && ErrorT in h.types
    ensures var h2 := NewError(h, code, description);
            && Sane(h2, held + multiset{h.next}, busy)
            && h.next in h2.objs && h2.objs[h.next].refcount == 1
            && h2.objs[h.next] == Fresh(ErrorT, NextPool(h.pools)).(body := h2.objs[h.next].body)
            && h2.objs[h.next].body.ty == ErrorT
            && (forall s :: Get(h2.objs[h.next].body, s) == None)
            && ThrowKeeps(h, h2)
  {
    hide Sane, Create;
    CreatePlainSane(h, ErrorT, Ignored, held, busy);
    var h1 := Create(h, ErrorT, Ignored).0;
    SaneYoung(h, held, busy);
    DataSane(h1, h.next, h1.objs[h.next].body.data.(code := code, description := description),
             held + multiset{h.next}, busy);
  }

  lemma SaneYoung(h: Heap, held: multiset<Ref>, busy: set<Ref>)
    requires Sane(h, held, busy)
    ensures h.next !in h.objs && h.next !in busy
  {}

  /** `y_Error_throw`: the reference that the location held moves into the new error. */
  lemma ThrowSane(h: Heap, err: ErrorLocation, code: int, description: Option<string>,
                  held: multiset<Ref>, busy: set<Ref>)
    requires Sane(h, held + Stowed(err), busy) && Pinned(h, held, busy)
    ensures var r := Throw(h, err, code, description);
            Sane(r.0, held + Stowed(r.1), busy) && ThrowKeeps(h, r.0)
  {
    hide Sane, Pinned, NewError, Throw;
    if err.Location? {
      SanePlain(h, held + Stowed(err), busy);
      ThrowShape(h, err, code, description);
      var e := h.next;
      NewErrorSane(h, code, description, held + Stowed(err), busy);
      assert held + Stowed(err) + multiset{e} == (held + multiset{e}) + Stowed(err);
      SaneYoung(h, held + Stowed(err), busy);
      ThrowStores(h, NewError(h, code, description), err, held, busy);
    } else {
      assert Throw(h, err, code, description) == (h, err) by { ThrowIgnored(h, code, description); }
    }
  }

  lemma ThrowIgnored(h: Heap, code: int, description: Option<string>)
    ensures Throw(h, Ignored, code, description) == (h, Ignored)
  {}

  lemma SanePlain(h: Heap, held: multiset<Ref>, busy: set<Ref>)
    requires Sane(h, held, busy)
    ensures InitList(h, ErrorT) == [] && InitList(h, WeakRefT) == []
    ensures ErrorT in h.types && WeakRefT in h.types
    ensures Releaser(CauseSlot) in ClearList(h, ErrorT)
  {}

  /** What throwing an error leaves alone: every object there was. */
  ghost predicate ThrowKeeps(h: Heap, h': Heap) {
    h'.types == h.types && forall x :: x in h.objs ==> x in h'.objs && h'.objs[x] == h.objs[x]
  }

  lemma ThrowStores(h: Heap, h2: Heap, err: ErrorLocation, held: multiset<Ref>, busy: set<Ref>)
    requires Pinned(h, held, busy) && err.Location? && h.next !in busy
    requires h.next in h2.objs && h2.objs[h.next].refcount == 1 && h2.objs[h.next].body.ty == ErrorT
    requires forall s :: Get(h2.objs[h.next].body, s) == None
    requires ThrowKeeps(h, h2) && Sane(h2, (held + multiset{h.next}) + Stowed(err), busy)
    requires Releaser(CauseSlot) in ClearList(h, ErrorT)
    ensures var h3 := SetSlot(h2, h.next, CauseSlot, err.error);
            Sane(h3, held + multiset{h.next}, busy) && h3.types == h2.types
  {
    hide Sane;
    var e := h.next;
    if err.error.Some? {
      PinnedKept(h, h2, held, held + multiset{e}, busy);
      StoreSane(h2, e, CauseSlot, err.error.value, held + multiset{e}, busy);
    } else {
      assert (held + multiset{e}) + Stowed(err) == held + multiset{e};
      assert Get(h2.objs[e].body, CauseSlot) == None;
      assert Put(h2.objs[e].body, CauseSlot, None) == h2.objs[e].body;
      assert h2.objs[e := h2.objs[e]] == h2.objs;
    }
  }

  // ---------------------------------------------------------------------------------------
  // Weak references
  // ---------------------------------------------------------------------------------------

  /** The heap once a new weak reference to `r` has been made and before it is stored. */
  ghost function NewWeakRef(h: Heap, r: Ref): Heap {
    var h1 := Create(h, WeakRefT, Location(None)).0;
    if h.next in h1.objs then SetTarget(h1, h.next, Some(r)) else h1
  }

  lemma AttachShape(h: Heap, r: Ref)
    requires r in h.objs && Young(h) && InitList(h, WeakRefT) == []
    ensures var h2 := NewWeakRef(h, r);
            r in h2.objs && AttachWeakRef(h, r) == SetSlot(h2, r, WeakSlot, Some(h.next))
  {}

  lemma NewWeakRefSane(h: Heap, r: Ref, held: multiset<Ref>, busy: set<Ref>)
    requires Sane(h, held, busy) && InitList(h, WeakRefT) == [] && WeakRefT in h.types && r in h.objs
    ensures var h2 := NewWeakRef(h, r);
            && Sane(h2, held + multiset{h.next}, busy) && h2.types == h.types
            && h.next !in h.objs && h.next in h2.objs
            && h2.objs[h.next] == Fresh(WeakRefT, NextPool(h.pools)).(target := Some(r))
            && (forall x :: x in h.objs ==> x in h2.objs && h2.objs[x] == h.objs[x])
  {
    hide Sane, Create;
    CreatePlainSane(h, WeakRefT, Location(None), held, busy);
    SaneYoung(h, held, busy);
    TargetSane(Create(h, WeakRefT, Location(None)).0, h.next, Some(r), held + multiset{h.next}, busy);
  }

  /** Every class releases the weak reference slot. */
  lemma WeakSlotCovered(h: Heap, r: Ref, held: multiset<Ref>, busy: set<Ref>)
    requires Sane(h, held, busy) && r in h.objs && h.objs[r].body.ty in h.types
    ensures Releaser(WeakSlot) in ClearList(h, h.objs[r].body.ty)
  {}

  /** `y_weak_ref`, on first use and later: the caller gains one reference to the weak reference. */
  lemma WeakRefSane(h: Heap, r: Ref, held: multiset<Ref>)
    requires Sane(h, held, {}) && r in held && r in h.objs
    ensures var (h', w) := WeakRefTo(h, r);
            && w.Some? && Sane(h', held + One(w), {})
            && r in h'.objs && h'.objs[r].body.weakRef == w
            && (h.objs[r].body.weakRef.Some? ==> h' == AddRef(h, w.value))
  {
    hide Sane, Pinned, AttachWeakRef;
    HeldIsGranted(h, r, held, {});
    if h.objs[r].body.weakRef.Some? {
      WeakSlotHeld(h, r, held);
      RefSane(h, h.objs[r].body.weakRef.value, held, {});
    } else {
      AttachSane(h, r, held);
      var h1 := AttachWeakRef(h, r);
      WeakSlotHeld(h1, r, held);
      RefSane(h1, h.next, held, {});
    }
  }

  lemma WeakSlotHeld(h: Heap, r: Ref, held: multiset<Ref>)
    requires Sane(h, held, {}) && r in h.objs && h.objs[r].body.weakRef.Some?
    ensures Granted(h, h.objs[r].body.weakRef.value)
  {
    SlotGranted(h, Edge(r, WeakSlot), held, {});
  }

  /** An owning slot keeps the object it points at. */
  lemma SlotGranted(h: Heap, e: Edge, held: multiset<Ref>, busy: set<Ref>)
    requires Sane(h, held, busy) && e.holder in h.objs && Points(h, e).Some?
    ensures Granted(h, Points(h, e).value)
  {
    hide PoolsSound, Sound, Settled;
    EdgesThere(h);
    var t := Points(h, e).value;
    assert h.objs[t].refcount == held[t] + |Owners(h, t, {})|;
    assert e in Owners(h, t, {});
  }

  lemma AttachSane(h: Heap, r: Ref, held: multiset<Ref>)
    requires Sane(h, held, {}) && r in held && r in h.objs && h.objs[r].body.weakRef == None
    ensures var h' := AttachWeakRef(h, r);
            && Sane(h', held, {}) && r in h'.objs && h'.objs[r].body.weakRef == Some(h.next)
  {
    hide Sane, Pinned, AttachWeakRef, NewWeakRef;
    SanePlain(h, held, {});
    assert Young(h) by { SaneParts(h, held, {}); }
    AttachShape(h, r);
    NewWeakRefSane(h, r, held, {});
    var h2 := NewWeakRef(h, r);
    HeldIsGranted(h, r, held, {});
    WeakSlotCovered(h2, r, held + multiset{h.next}, {});
    assert Pinned(h2, held, {}) by { PinnedNobody(h2, held); }
    StoreSane(h2, r, WeakSlot, h.next, held, {});
  }

  lemma SaneParts(h: Heap, held: multiset<Ref>, busy: set<Ref>)
    requires Sane(h, held, busy)
    ensures Balanced(h, held, {}, busy) && Pinned(h, held, busy) && Young(h)
  {}

  lemma PinnedNobody(h: Heap, held: multiset<Ref>)
    ensures Pinned(h, held, {})
  {}

  /** `y_WeakRef_deref`: the caller gains exactly the reference it is given. */
  lemma DerefSane(h: Heap, w: Ref, held: multiset<Ref>)
    requires Sane(h, held, {}) && w in h.objs
    ensures var (h', r) := Deref(h, w); Sane(h', held + One(r), {})
  {
    hide Sane;
    var t := h.objs[w].target;
    if t.Some? && Granted(h, t.value) {
      RefSane(h, t.value, held, {});
    } else {
      assert held + One(None) == held;
    }
  }

  // ---------------------------------------------------------------------------------------
  // Members
  // ---------------------------------------------------------------------------------------

  /** An object may be made busy by a caller that holds it. */
  lemma Engage(h: Heap, r: Ref, held: multiset<Ref>, busy: set<Ref>)
    requires Sane(h, held, busy) && r in held
    ensures Sane(h, held, busy + {r})
  {
    hide PoolsSound, Sound, Counted, Covered;
    HeldIsGranted(h, r, held, busy);
  }

  /** A busy object that is live and covered again can be let go. */
  lemma Disengage(h: Heap, r: Ref, held: multiset<Ref>, busy: set<Ref>)
    requires Sane(h, held, busy + {r}) && r in h.objs && h.objs[r].refcount > 0 && Covered(h, h.objs[r].body)
    ensures Sane(h, held, busy)
  {}

  /** Dropping what a slot of a busy object points at, without nulling the slot yet. */
  lemma DropSane(h: Heap, r: Ref, s: Slot, held: multiset<Ref>, busy: set<Ref>)
    requires Sane(h, held, busy) && r in busy && r in h.objs && Get(h.objs[r].body, s).Some?
    ensures var h1 := Unref(h, Get(h.objs[r].body, s).value);
            && r in h1.objs && h1.objs[r].body == h.objs[r].body
            && Sane(SetSlot(h1, r, s, None), held, busy)
            && h1.types == h.types && h1.next == h.next
  {
    hide Balanced, Pinned, Unref, Frame;
    var e, t := Edge(r, s), Get(h.objs[r].body, s).value;
    var h1 := Unref(h, t);
    HandOver(h, e, t, held, {}, busy);
    assert {} + {e} == {e};
    UnrefBalances(h, t, held, {} + {e}, busy);
    assert PoolsSound(h) && Counted(h1, held, {e}) by {
      BalancedParts(h, held, {}, busy);
      BalancedParts(h1, held, {e}, busy);
    }
    hide PoolsSound, Counted;
    UnrefFrame(h, t);
    FrameParts(h, h1, {});
    BusyUntouched(h, h1, r, held, {e}, busy);
    TakeBack(h1, e, held, {}, busy);
    YoungKept(h, SetSlot(h1, r, s, None));
  }

  /** `Delta_set_c` on a busy object. */
  lemma SetCSane(h: Heap, r: Ref, c: Option<Ref>, held: multiset<Ref>, busy: set<Ref>)
    requires Sane(h, held, busy) && r in busy && r in h.objs
    ensures var h' := SetC(h, r, c);
            && Sane(h', held, busy) && h'.types == h.types
            && h'.objs[r].body == h.objs[r].body.(c := h'.objs[r].body.c)
            && (c.Some? && c.value in held ==> h'.objs[r].body.c == c)
            && (c.None? ==> h'.objs[r].body.c == None)
  {
    hide Sane, Unref;
    var was := h.objs[r].body.c;
    var h1 := if was.Some? then Unref(h, was.value) else h;
    var h2 := SetSlot(h1, r, CSlot, None);
    if was.Some? {
      DropSane(h, r, CSlot, held, busy);
    } else {
      assert h.objs[r := h.objs[r]] == h.objs;
    }
    SetCStores(h1, h2, r, c, held, busy);
  }

  /** Nulling the slot first makes no difference to what is stored in the end. */
  lemma {:induction false} StoreEitherWay(h: Heap, r: Ref, c: Ref)
    requires r in h.objs && Granted(h, c)
    ensures var h4 := AddRef(SetSlot(h, r, CSlot, None), c);
            r in h4.objs && SetSlot(h4, r, CSlot, Some(c)) == SetSlot(AddRef(h, c), r, CSlot, Some(c))
  {
    hide Positive;
    assert AddRef(SetSlot(h, r, CSlot, None), c) == SetSlot(AddRef(h, c), r, CSlot, None) by { CommuteSlot(h, r, c); }
    PutTwice(AddRef(h, c).objs[r].body, CSlot, None, Some(c));
    SlotTwice(AddRef(h, c), r, CSlot, None, Some(c));
  }

  /** Taking a reference and nulling a slot do not meet. */
  lemma {:induction false} CommuteSlot(h: Heap, r: Ref, c: Ref)
    requires r in h.objs && Granted(h, c)
    ensures r in AddRef(h, c).objs && AddRef(SetSlot(h, r, CSlot, None), c) == SetSlot(AddRef(h, c), r, CSlot, None)
  {
    hide Positive, Put;
    assert AddRef(SetSlot(h, r, CSlot, None), c).objs == SetSlot(AddRef(h, c), r, CSlot, None).objs;
  }

  lemma {:induction false} SlotTwice(h: Heap, r: Ref, s: Slot, v: Option<Ref>, w: Option<Ref>)
    requires r in h.objs
    ensures SetSlot(SetSlot(h, r, s, v), r, s, w) == SetSlot(h, r, s, w)
  {
    hide Positive, Put;
    PutTwice(h.objs[r].body, s, v, w);
    assert SetSlot(SetSlot(h, r, s, v), r, s, w).objs == SetSlot(h, r, s, w).objs;
  }

  lemma PutTwice(b: Body, s: Slot, v: Option<Ref>, w: Option<Ref>)
    ensures Put(Put(b, s, v), s, w) == Put(b, s, w)
  {}

  lemma SetCStores(h1: Heap, h2: Heap, r: Ref, c: Option<Ref>, held: multiset<Ref>, busy: set<Ref>)
    requires r in busy && r in h1.objs && h2 == SetSlot(h1, r, CSlot, None) && Sane(h2, held, busy)
    ensures var kept := if c.Some? && Granted(h1, c.value) then c else None;
            var h3 := if c.Some? then AddRef(h1, c.value) else h1;
            && Sane(SetSlot(h3, r, CSlot, kept), held, busy)
            && (c.Some? && c.value in held ==> kept == c)
            && h3.types == h1.types && h3.objs[r].body == h1.objs[r].body
  {
    hide Sane, Pinned;
    if c.Some? && c.value in held {
      HeldIsGranted(h2, c.value, held, busy);
    }
    if c.Some? && Granted(h1, c.value) {
      RefSane(h2, c.value, held, busy);
      PinnedAfterRef(h2, c.value, held, busy);
      StoreSane(AddRef(h2, c.value), r, CSlot, c.value, held, busy);
      hide AddRef, SetSlot;
      StoreEitherWay(h1, r, c.value);
    }
  }

  lemma {:induction false} PinnedAfterRef(h: Heap, c: Ref, held: multiset<Ref>, busy: set<Ref>)
    requires Sane(h, held, busy) && Granted(h, c)
    ensures Pinned(AddRef(h, c), held, busy)
  {
    hide Balanced;
    PinnedKept(h, AddRef(h, c), held, held, busy);
  }
}
