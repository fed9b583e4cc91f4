/** What no call changes of an object that stays alive: its class, whether Delta's private structure is there, and, of
    all objects but the one that the call writes, the members. */
module Retained {
  import opened Options
  import opened Pools
  import opened Classes
  import opened Heaps
  import opened Cascade
  import opened Counts
  import opened Accounts
  import opened Calls
  import opened ErrorChains
  import opened WeakCalls
  import opened Runs
  import opened Onward
  import opened Uses

  /** Delta's private structure has been allocated exactly when the object is a Delta. */
  predicate Equipped(h: Heap, r: Ref)
    requires r in h.objs
  {
    h.objs[r].body.data.priv <==> IsA(h.types, h.objs[r].body.ty, DeltaT)
  }

  /** Its last-resort cleanup is registered with its pool. */
  predicate Registered(h: Heap, r: Ref)
    requires r in h.objs
  {
    h.objs[r].body.pool in h.cleanups && h.cleanups[h.objs[r].body.pool] == r
  }

  /** No deletion is undone; the cleanup of an object stays registered until its deletion; and that of a new one is. */
  ghost predicate Guards(h: Heap, h': Heap) {
    && h.objs.Keys <= h'.objs.Keys
    && (forall x :: x in h.objs && Alive(h', x) ==> Alive(h, x) && (Registered(h, x) ==> Registered(h', x)))
    && (forall x :: x !in h.objs && Alive(h', x) ==> Registered(h', x))
  }

  lemma GuardsTrans(h0: Heap, h1: Heap, h2: Heap)
    requires Guards(h0, h1) && Guards(h1, h2)
    ensures Guards(h0, h2)
  {
    hide Registered;
    forall x | Alive(h2, x) && x in h1.objs
      ensures Alive(h1, x)
    {}
  }

  lemma FrameGuards(h: Heap, h': Heap, busy: set<Ref>)
    requires Frame(h, h', busy)
    ensures Guards(h, h')
  {
    hide Frame;
    FrameParts(h, h', busy);
    FrameCleanups(h, h', busy);
    forall x | x in h.objs && Alive(h', x)
      ensures Alive(h, x) && h'.objs[x].body.pool == h.objs[x].body.pool
    {
      FrameAt(h, h', busy, x);
    }
  }

  lemma FrameCleanups(h: Heap, h': Heap, busy: set<Ref>)
    requires Frame(h, h', busy)
    ensures CleanupsKept(h, h')
  {}

  /** One object that stays alive. */
  predicate BodyKept(b: Body, b': Body, blessed: bool, written: bool) {
    && b'.data.priv == b.data.priv
    && (!blessed ==> b'.ty == b.ty)
    && (!written ==> b'.data == b.data)
  }

  /** A weak reference that has been made in between. */
  predicate NewWeak(h: Heap, h': Heap, w: Ref) {
    w !in h.objs && w in h'.objs && (h'.objs[w].refcount > 0 ==> h'.objs[w].body.ty == WeakRefT)
  }

  /** A weak reference slot that is set was so before, or leads to a new weak reference. */
  ghost predicate SlotsNew(h: Heap, h': Heap) {
    forall x :: x in h'.objs && h'.objs[x].body.weakRef.Some? ==>
      (x in h.objs && h'.objs[x].body.weakRef == h.objs[x].body.weakRef)
      || NewWeak(h, h', h'.objs[x].body.weakRef.value)
  }

  /** Objects that stay alive keep their class, all but those in `blessed`, and their members, all but those in
      `written`; new ones are equipped; and a weak reference slot is filled with a new weak reference only. */
  ghost predicate Retains(h: Heap, h': Heap, blessed: set<Ref>, written: set<Ref>) {
    && h'.types == h.types && h.objs.Keys <= h'.objs.Keys
    && (forall x :: x in h.objs && h.objs[x].refcount == 0 ==> h'.objs[x].refcount == 0)
    && (forall x :: x in h.objs && h'.objs[x].refcount > 0 ==>
          BodyKept(h.objs[x].body, h'.objs[x].body, x in blessed, x in written))
    && (forall x :: x in h'.objs && x !in h.objs && h'.objs[x].refcount > 0 ==> Equipped(h', x))
    && SlotsNew(h, h') && Guards(h, h')
  }

  lemma RetainsRefl(h: Heap, blessed: set<Ref>, written: set<Ref>)
    ensures Retains(h, h, blessed, written)
  {}

  lemma RetainsTrans(h0: Heap, h1: Heap, h2: Heap, blessed: set<Ref>, written: set<Ref>)
    requires Retains(h0, h1, blessed, written) && Retains(h1, h2, blessed, written) && blessed <= h0.objs.Keys
    ensures Retains(h0, h2, blessed, written)
  {
    hide Guards;
    GuardsTrans(h0, h1, h2);
    SlotsTrans(h0, h1, h2, blessed, written);
    hide SlotsNew;
    forall x | x in h2.objs && x !in h0.objs && h2.objs[x].refcount > 0
      ensures Equipped(h2, x)
    {
      if x in h1.objs { assert Equipped(h1, x); }
    }
  }

  lemma SlotsTrans(h0: Heap, h1: Heap, h2: Heap, blessed: set<Ref>, written: set<Ref>)
    requires Retains(h0, h1, blessed, written) && Retains(h1, h2, blessed, written) && blessed <= h0.objs.Keys
    ensures SlotsNew(h0, h2)
  {
    hide Guards;
    forall x | x in h2.objs && h2.objs[x].body.weakRef.Some?
      ensures var w := h2.objs[x].body.weakRef;
              (x in h0.objs && w == h0.objs[x].body.weakRef) || NewWeak(h0, h2, w.value)
    {
      var w := h2.objs[x].body.weakRef.value;
      if x in h1.objs && h1.objs[x].body.weakRef == Some(w) && w in h1.objs && w !in h0.objs {
        assert h2.objs[w].refcount > 0 ==> BodyKept(h1.objs[w].body, h2.objs[w].body, false, w in written);
      }
    }
  }

  lemma FrameRetains(h: Heap, h': Heap, busy: set<Ref>, blessed: set<Ref>, written: set<Ref>)
    requires Frame(h, h', busy) && busy <= blessed && busy <= written
    ensures Retains(h, h', blessed, written)
  {
    hide Frame, Guards;
    FrameParts(h, h', busy);
    FrameGuards(h, h', busy);
    forall x | x in h.objs
      ensures h'.objs[x].body.weakRef == h.objs[x].body.weakRef || h'.objs[x].body.weakRef == None
      ensures h.objs[x].refcount == 0 ==> h'.objs[x].refcount == 0
      ensures h'.objs[x].refcount > 0 ==> BodyKept(h.objs[x].body, h'.objs[x].body, x in blessed, x in written)
    {
      LeafKept(h, h', busy, x);
      FrameAt(h, h', busy, x);
    }
  }

  lemma BodyRetains(h: Heap, r: Ref, b: Body, blessed: set<Ref>, written: set<Ref>)
    requires r in h.objs && b.weakRef == h.objs[r].body.weakRef
    requires b.pool == h.objs[r].body.pool && b.deleted == h.objs[r].body.deleted
    requires BodyKept(h.objs[r].body, b, r in blessed, r in written)
    ensures Retains(h, SetBody(h, r, b), blessed, written)
  {
    SameGuards(h, SetBody(h, r, b));
    hide Guards;
  }

  /** Writes that touch neither pools nor deletion marks nor registrations. */
  lemma SameGuards(h: Heap, h': Heap)
    requires h'.cleanups == h.cleanups && h'.objs.Keys == h.objs.Keys
    requires forall x :: x in h.objs ==>
               h'.objs[x].body.deleted == h.objs[x].body.deleted && h'.objs[x].body.pool == h.objs[x].body.pool
    ensures Guards(h, h')
  {}

  lemma RefRetains(h: Heap, r: Ref, blessed: set<Ref>, written: set<Ref>)
    ensures Retains(h, AddRef(h, r), blessed, written)
  {
    SameGuards(h, AddRef(h, r));
    hide Guards, Positive;
  }

  lemma AddsRetains(h: Heap, h': Heap, blessed: set<Ref>, written: set<Ref>)
    requires Adds(h, h') && Equips(h, h')
    ensures Retains(h, h', blessed, written)
  {
    AddsGuards(h, h');
    hide Guards, CleanupsAdded;
  }

  lemma AddsGuards(h: Heap, h': Heap)
    requires Adds(h, h') && Equips(h, h')
    ensures Guards(h, h')
  {}

  lemma UnrefRetains(h: Heap, r: Ref, blessed: set<Ref>, written: set<Ref>)
    requires PoolsSound(h)
    ensures Retains(h, Unref(h, r), blessed, written)
  {
    hide PoolsSound, Unref, Frame, Retains;
    UnrefFrame(h, r);
    FrameRetains(h, Unref(h, r), {}, blessed, written);
  }

  /** Clearing an object gives it its class back. */
  lemma ClearRetains(h: Heap, r: Ref)
    requires PoolsSound(h) && r in h.objs
    ensures Retains(h, ClearObject(h, r, true), {}, {r})
  {
    hide PoolsSound, Frame, ClearObject;
    ClearObjectFrame(h, r, true);
    FrameRetains(h, ClearObject(h, r, true), {r}, {r}, {r});
    RetainsClasses(h, ClearObject(h, r, true), {r}, {r});
  }

  // ---------------------------------------------------------------------------------------
  // New objects
  // ---------------------------------------------------------------------------------------

  predicate CleanupsAdded(h: Heap, h': Heap) {
    forall p :: p in h.cleanups ==> p in h'.cleanups && h'.cleanups[p] == h.cleanups[p]
  }

  /** The objects that are new are equipped, and registered; and no registration is lost. */
  ghost predicate Equips(h: Heap, h': Heap) {
    && h'.types == h.types && CleanupsAdded(h, h')
    && (forall x :: x in h'.objs && x !in h.objs ==> Equipped(h', x) && (Alive(h', x) ==> Registered(h', x)))
  }

  lemma CleanupsOwned(h: Heap, p: Pool)
    requires PoolsSound(h) && p in h.cleanups
    ensures Alive(h, h.cleanups[p]) && h.objs[h.cleanups[p]].body.pool == p
  {}

  /** The next pool has no cleanup registered. */
  lemma NextPoolUnused(h: Heap)
    requires PoolsSound(h)
    ensures NextPool(h.pools) !in h.cleanups
  {
    hide NextPool, Idle, InUse, PoolsSound;
    NextPoolIsFree(h);
    if NextPool(h.pools) in h.cleanups { CleanupsOwned(h, NextPool(h.pools)); }
  }

  /** Errors and weak references are no Deltas: their classes inherit no init method. */
  lemma PlainTypes(types: Types)
    requires Sound(types)
    ensures !IsA(types, ErrorT, DeltaT) && !IsA(types, WeakRefT, DeltaT)
  {
    assert SoundClass(types, ErrorT) && SoundInit(types, ErrorT, types[ErrorT].init);
  }

  lemma SaneTypes(h: Heap, held: multiset<Ref>, busy: set<Ref>)
    requires Sane(h, held, busy)
    ensures Sound(h.types)
  {}

  lemma ThrowEquips(h: Heap, err: ErrorLocation, code: int, description: Option<string>)
    requires InitList(h, ErrorT) == [] && Young(h) && PoolsSound(h) && !IsA(h.types, ErrorT, DeltaT)
    ensures Equips(h, Throw(h, err, code, description).0)
  {
    hide Throw, PoolsSound, Draw, NextPool;
    if err.Location? {
      NextPoolUnused(h);
      ThrowOne(h, err, code, description);
    } else {
      ThrowIgnored(h, code, description);
    }
  }

  lemma WeakRefEquips(h: Heap, r: Ref)
    requires r in h.objs && Young(h) && PoolsSound(h) && InitList(h, WeakRefT) == []
    requires !IsA(h.types, WeakRefT, DeltaT)
    ensures Equips(h, NewWeakRef(h, r))
  {
    hide PoolsSound, Draw, NextPool;
    NextPoolUnused(h);
    CreatePlain(h, WeakRefT, Location(None));
  }

  /** One init method: an error that it throws is equipped; and the new object is from Delta's method on. */
  lemma ExecInitEquips(h: Heap, r: Ref, m: Method<InitExec>, err: ErrorLocation)
    requires r in h.objs && InitList(h, ErrorT) == [] && Young(h) && PoolsSound(h) && !IsA(h.types, ErrorT, DeltaT)
    requires InitOwner(m) && m.ty in h.types
    ensures var h' := ExecInit(Bless(h, r, m.ty), r, m.exec, err).0;
            && Equips(h, h') && r in h'.objs
            && h'.objs[r].body.data.priv == (h.objs[r].body.data.priv || m == Method(DeltaT, DeltaInit))
  {
    hide Throw, PoolsSound;
    var h0 := Bless(h, r, m.ty);
    PoolsSoundKept(h, h0);
    match m.exec
    case DeltaInit => assert Casts(h0, r, DeltaT);
    case UserInit =>
    case ThrowingInit(code) =>
      assert InitList(h0, ErrorT) == [] && Young(h0);
      ThrowEquips(h0, err, code, None);
      ThrowAdds(h0, err, code, None);
  }

  lemma EquipsTrans(h0: Heap, h1: Heap, h2: Heap, r: Ref)
    requires Equips(h0, h1) && Equips(h1, h2) && Grown(h1, h2, r) && r in h0.objs
    ensures Equips(h0, h2)
  {
    forall x | x in h2.objs && x !in h0.objs
      ensures Equipped(h2, x) && (Alive(h2, x) ==> Registered(h2, x))
    {
      if x in h1.objs { assert Equipped(h1, x) && h2.objs[x] == h1.objs[x]; }
    }
  }

  lemma EquipsRefl(h: Heap)
    ensures Equips(h, h)
  {}

  /** The init methods from entry `i` on. */
  lemma {:induction false} InitFromEquips(h: Heap, r: Ref, list: seq<Method<InitExec>>, i: nat, err: ErrorLocation,
                                          held: multiset<Ref>)
    requires i <= |list| && Sane(h, held, {}) && Unfinished(h, r) && Stowed(err) == multiset{}
    requires forall m :: m in list ==> m.ty in h.types && InitOwner(m)
    ensures var (h', ok, _) := InitFrom(h, r, list, i, err);
            && Equips(h, h') && r in h.objs && r in h'.objs
            && (ok ==> h'.objs[r].body.data.priv
                       == (h.objs[r].body.data.priv || Method(DeltaT, DeltaInit) in list[i..]))
    decreases |list| - i
  {
    hide Sane, ExecInit, Bless, Equips, Unfinished, Grown, PoolsSound, Young, InitOwner, Sound;
    assert held + Stowed(err) == held;
    EquipsRefl(h);
    UnfinishedThere(h, r);
    if i < |list| {
      InitStepSane(h, r, list[i], err, held);
      var (h1, err1) := ExecInit(Bless(h, r, list[i].ty), r, list[i].exec, err);
      SanePlain(h, held, {});
      SanePools(h, held, {});
      SaneTypes(h, held, {});
      PlainTypes(h.types);
      ExecInitEquips(h, r, list[i], err);
      assert list[i..] == [list[i]] + list[i + 1..];
      if !(err1.Location? && err1.error.Some?) {
        assert held + Stowed(err1) == held;
        GrownTypes(h, h1, r);
        InitFromSane(h1, r, list, i + 1, err1, held);
        InitFromEquips(h1, r, list, i + 1, err1, held);
        EquipsTrans(h, h1, InitFrom(h1, r, list, i + 1, err1).0, r);
      }
    }
  }

  lemma InitOwned(h: Heap, ty: TypeId)
    requires Sound(h.types) && ty in h.types
    ensures forall m :: m in InitList(h, ty) ==> m.ty in h.types && InitOwner(m)
    ensures Method(DeltaT, DeltaInit) in InitList(h, ty) <==> IsA(h.types, ty, DeltaT)
  {
    assert SoundClass(h.types, ty) && SoundInit(h.types, ty, h.types[ty].init);
  }

  /** The same, all but the object being created. */
  ghost predicate EquipsBut(h: Heap, h': Heap, r: Ref) {
    && h'.types == h.types && CleanupsAdded(h, h')
    && (forall x :: x in h'.objs && x !in h.objs && x != r ==>
          Equipped(h', x) && (Alive(h', x) ==> Registered(h', x)))
  }

  lemma FinishEquips(h: Heap, h1: Heap, r: Ref, ty: TypeId)
    requires Grown(h, h1, r) && r !in h.objs && r in h1.objs && EquipsBut(h, h1, r)
    requires h1.objs[r].body.pool !in h1.cleanups
    requires h1.objs[r].body.data.priv <==> IsA(h1.types, ty, DeltaT)
    ensures Equips(h, Finish(h1, r, ty))
  {}

  lemma DiscardEquips(h: Heap, h1: Heap, r: Ref)
    requires Grown(h, h1, r) && PoolsSound(h1) && Unfinished(h1, r) && EquipsBut(h, h1, r)
    ensures Equips(h, Discard(h1, r))
  {
    hide PoolsSound, Unfinished, Discard;
    UnfinishedThere(h1, r);
    DiscardShape(h1, r);
  }

  /** A Delta, or an instance of any class that descends from it, has its private structure as soon as `y_create`
      has finished, and no other object has one. */
  lemma CreateEquips(h: Heap, ty: TypeId, err: ErrorLocation, held: multiset<Ref>)
    requires Sane(h, held, {}) && Stowed(err) == multiset{} && ty in h.types
    ensures Equips(h, Create(h, ty, err).0)
    ensures Create(h, ty, err).1.Some? ==>
              h.next in Create(h, ty, err).0.objs
              && (Create(h, ty, err).0.objs[h.next].body.data.priv <==> IsA(h.types, ty, DeltaT))
  {
    hide Sane, InitFrom, Allocate, Discard, Create, Finish, Stowed, Unfinished, Grown, Equips, EquipsBut, InitOwner,
         Sound, PoolsSound, Young;
    var r, h0 := h.next, Allocate(h, ty);
    CreateStarts(h, ty, held);
    CreateShape(h, ty, err);
    SaneTypes(h, held, {});
    InitOwned(h, ty);
    AllocateNew(h, ty);
    InitFromSane(h0, r, InitList(h, ty), 0, err, held + multiset{r});
    InitFromEquips(h0, r, InitList(h, ty), 0, err, held + multiset{r});
    var (h1, ok, err1) := InitFrom(h0, r, InitList(h, ty), 0, err);
    assert InitList(h, ty)[0..] == InitList(h, ty);
    EquipsNew(h, h0, h1, r);
    SanePools(h1, held + multiset{r} + Stowed(err1), {});
    DiscardShape(h1, r);
    if ok {
      FinishEquips(h, h1, r, ty);
      FinishPrivate(h1, r, ty);
    } else {
      DiscardEquips(h, h1, r);
    }
  }

  lemma AllocateNew(h: Heap, ty: TypeId)
    ensures Allocate(h, ty).types == h.types && Allocate(h, ty).cleanups == h.cleanups
    ensures forall x :: x in Allocate(h, ty).objs <==> x in h.objs || x == h.next
    ensures !Allocate(h, ty).objs[h.next].body.data.priv
  {}

  lemma FinishPrivate(h: Heap, r: Ref, ty: TypeId)
    requires r in h.objs
    ensures r in Finish(h, r, ty).objs && Finish(h, r, ty).objs[r].body.data == h.objs[r].body.data
  {}

  /** What has come after the allocation besides the new object itself. */
  lemma EquipsNew(h: Heap, h0: Heap, h1: Heap, r: Ref)
    requires Equips(h0, h1) && Grown(h, h0, r) && Grown(h0, h1, r)
    requires forall x :: x in h0.objs <==> x in h.objs || x == r
    requires h0.cleanups == h.cleanups
    ensures Grown(h, h1, r) && EquipsBut(h, h1, r)
  {
    GrownTrans(h, h0, h1, r);
  }

  lemma CreateRetains(h: Heap, ty: TypeId, err: ErrorLocation, held: multiset<Ref>)
    requires Sane(h, held, {}) && Stowed(err) == multiset{} && ty in h.types
    ensures Retains(h, Create(h, ty, err).0, {}, {})
  {
    hide Sane, Create, Adds, Retains, Equips;
    CreateAdds(h, ty, err, held);
    CreateEquips(h, ty, err, held);
    AddsRetains(h, Create(h, ty, err).0, {}, {});
  }

  lemma ThrowRetains(h: Heap, err: ErrorLocation, code: int, description: Option<string>, held: multiset<Ref>,
                     busy: set<Ref>, blessed: set<Ref>, written: set<Ref>)
    requires Sane(h, held, busy)
    ensures Retains(h, Throw(h, err, code, description).0, blessed, written)
  {
    hide Sane, Throw, Adds, Equips, Retains, Sound;
    SanePlain(h, held, busy);
    SaneTypes(h, held, busy);
    SanePools(h, held, busy);
    PlainTypes(h.types);
    ThrowAdds(h, err, code, description);
    ThrowEquips(h, err, code, description);
    AddsRetains(h, Throw(h, err, code, description).0, blessed, written);
  }

  /** `y_weak_ref`, with a weak reference that is there or a new one. */
  lemma WeakRefRetains(h: Heap, r: Ref, held: multiset<Ref>)
    requires Sane(h, held, {}) && r in held && r in h.objs
    ensures Retains(h, WeakRefTo(h, r).0, {}, {})
  {
    hide Sane, AttachWeakRef, AddRef, Retains;
    RetainsRefl(h, {}, {});
    var h1 := if h.objs[r].body.weakRef.Some? then h else AttachWeakRef(h, r);
    if h.objs[r].body.weakRef.None? { AttachRetains(h, r, held); }
    if r in h1.objs && h1.objs[r].body.weakRef.Some? {
      RefRetains(h1, h1.objs[r].body.weakRef.value, {}, {});
      RetainsTrans(h, h1, AddRef(h1, h1.objs[r].body.weakRef.value), {}, {});
    }
  }

  lemma AttachRetains(h: Heap, r: Ref, held: multiset<Ref>)
    requires Sane(h, held, {}) && r in held && r in h.objs && h.objs[r].body.weakRef == None
    ensures Retains(h, AttachWeakRef(h, r), {}, {})
  {
    hide Sane, AttachWeakRef, NewWeakRef, Young, PoolsSound, Sound, Equips, Adds, Retains;
    SanePools(h, held, {});
    SanePlain(h, held, {});
    SaneTypes(h, held, {});
    PlainTypes(h.types);
    AttachShape(h, r);
    NewWeakRefSane(h, r, held, {});
    NewWeakRefAdds(h, r);
    WeakRefEquips(h, r);
    AddsRetains(h, NewWeakRef(h, r), {}, {});
    StoreRetains(h, NewWeakRef(h, r), r, h.next);
  }

  /** Storing a weak reference that is new. */
  lemma StoreRetains(h: Heap, h2: Heap, r: Ref, w: Ref)
    requires Retains(h, h2, {}, {}) && r in h.objs && r in h2.objs && NewWeak(h, h2, w)
    ensures Retains(h, SetSlot(h2, r, WeakSlot, Some(w)), {}, {})
  {
    var b := h2.objs[r].body.(weakRef := Some(w));
    assert SetSlot(h2, r, WeakSlot, Some(w)) == SetBody(h2, r, b);
    hide SetSlot, Put;
    StoreBody(h, h2, r, b);
  }

  lemma StoreBody(h: Heap, h2: Heap, r: Ref, b: Body)
    requires Retains(h, h2, {}, {}) && r in h.objs && r in h2.objs && b.weakRef.Some? && NewWeak(h, h2, b.weakRef.value)
    requires b == h2.objs[r].body.(weakRef := b.weakRef)
    ensures Retains(h, SetBody(h2, r, b), {}, {})
  {
    hide Guards, Retains, SlotsNew, Positive, NewWeak;
    var h3 := SetBody(h2, r, b);
    RetainsParts(h, h2);
    SameGuards(h2, h3);
    GuardsTrans(h, h2, h3);
    StoreSlots(h, h2, r, b);
    SlotRetains(h, h2, h3);
  }

  lemma RetainsParts(h: Heap, h': Heap)
    requires Retains(h, h', {}, {})
    ensures SlotsNew(h, h') && Guards(h, h')
  {
    hide SlotsNew, Guards;
  }

  /** Writing slots only. */
  lemma SlotRetains(h: Heap, h2: Heap, h3: Heap)
    requires Retains(h, h2, {}, {}) && SlotsNew(h, h3) && Guards(h, h3)
    requires h3.types == h2.types && h3.objs.Keys == h2.objs.Keys
    requires forall x :: x in h2.objs ==>
               && h3.objs[x].refcount == h2.objs[x].refcount
               && h3.objs[x].body.data == h2.objs[x].body.data && h3.objs[x].body.ty == h2.objs[x].body.ty
    ensures Retains(h, h3, {}, {})
  {
    hide Guards, SlotsNew;
  }

  lemma StoreSlots(h: Heap, h2: Heap, r: Ref, b: Body)
    requires SlotsNew(h, h2) && r in h2.objs && b.weakRef.Some? && NewWeak(h, h2, b.weakRef.value) && r in h.objs
    requires b == h2.objs[r].body.(weakRef := b.weakRef)
    ensures SlotsNew(h, SetBody(h2, r, b))
  {
    hide Positive;
    var h3 := SetBody(h2, r, b);
    forall x | x in h3.objs && h3.objs[x].body.weakRef.Some?
      ensures var w := h3.objs[x].body.weakRef;
              (x in h.objs && w == h.objs[x].body.weakRef) || NewWeak(h, h3, w.value)
    {
      var w := h3.objs[x].body.weakRef.value;
      if w in h2.objs && w !in h.objs { assert h3.objs[w].body.ty == h2.objs[w].body.ty; }
    }
  }

  // ---------------------------------------------------------------------------------------
  // Members and assignment
  // ---------------------------------------------------------------------------------------

  lemma SetBRetains(h: Heap, r: Ref, s: Option<string>)
    requires r in h.objs
    ensures Retains(h, SetB(h, r, s), {}, {r})
  {
    hide Retains;
    BodyRetains(h, r, SetB(h, r, s).objs[r].body, {}, {r});
  }

  lemma SetDRetains(h: Heap, r: Ref, s: Option<string>)
    requires r in h.objs
    ensures Retains(h, SetD(h, r, s), {}, {r})
  {
    hide Retains;
    BodyRetains(h, r, SetD(h, r, s).objs[r].body, {}, {r});
  }

  lemma SetCRetains(h: Heap, r: Ref, c: Option<Ref>, blessed: set<Ref>, written: set<Ref>)
    requires PoolsSound(h) && r in h.objs && blessed <= h.objs.Keys
    ensures Retains(h, SetC(h, r, c), blessed, written)
  {
    hide PoolsSound, Unref, Retains, AddRef;
    var was := h.objs[r].body.c;
    var h1 := if was.Some? then Unref(h, was.value) else h;
    RetainsRefl(h, blessed, written);
    if was.Some? { UnrefRetains(h, was.value, blessed, written); }
    var h2 := if c.Some? then AddRef(h1, c.value) else h1;
    RetainsRefl(h1, blessed, written);
    if c.Some? { RefRetains(h1, c.value, blessed, written); }
    RetainsTrans(h, h1, h2, blessed, written);
    assert r in h2.objs by { RefKeys(h1, c); }
    BodyRetains(h2, r, SetC(h, r, c).objs[r].body, blessed, written);
    RetainsTrans(h, h2, SetC(h, r, c), blessed, written);
  }

  lemma AssignDeltaRetains(h: Heap, to: Ref, from: Ref, blessed: set<Ref>)
    requires PoolsSound(h) && to in h.objs && from in h.objs && blessed <= h.objs.Keys
    ensures Retains(h, AssignDelta(h, to, from), blessed, {to})
  {
    hide PoolsSound, SetC, Retains;
    var h1 := SetB(h, to, h.objs[from].body.data.b);
    BodyRetains(h, to, h1.objs[to].body, blessed, {to});
    PoolsSoundKept(h, h1);
    var h2 := SetC(h1, to, h1.objs[from].body.c);
    SetCRetains(h1, to, h1.objs[from].body.c, blessed, {to});
    RetainsTrans(h, h1, h2, blessed, {to});
    BodyRetains(h2, to, AssignDelta(h, to, from).objs[to].body, blessed, {to});
    RetainsTrans(h, h2, AssignDelta(h, to, from), blessed, {to});
  }

  lemma ExecAssignRetains(h: Heap, to: Ref, from: Ref, exec: AssignExec, err: ErrorLocation, held: multiset<Ref>,
                          blessed: set<Ref>)
    requires Sane(h, held + Stowed(err), {to, from}) && Pair(h, to, from, held) && blessed <= h.objs.Keys
    ensures Retains(h, ExecAssign(h, to, from, exec, err).0, blessed, {to})
  {
    hide Sane, AssignDelta, Throw, Retains, PoolsSound, Young;
    RetainsRefl(h, blessed, {to});
    SanePools(h, held + Stowed(err), {to, from});
    match exec
    case AlphaAssign =>
      BodyRetains(h, to, h.objs[to].body.(data := h.objs[to].body.data.(a := h.objs[from].body.data.a)), blessed, {to});
    case DeltaAssign => AssignDeltaRetains(h, to, from, blessed);
    case UserAssign =>
    case RefusingAssign =>
    case ThrowingAssign(code) =>
      ThrowRetains(h, err, code, None, held + Stowed(err), {to, from}, blessed, {to});
  }

  lemma BlessRetains(h: Heap, to: Ref, from: Ref, ty: TypeId)
    requires to in h.objs && from in h.objs
    ensures Retains(h, Bless(Bless(h, to, ty), from, ty), {to, from}, {to})
  {
    hide Retains;
    var h0 := Bless(h, to, ty);
    BodyRetains(h, to, h0.objs[to].body, {to, from}, {to});
    BodyRetains(h0, from, h0.objs[from].body.(ty := ty), {to, from}, {to});
    RetainsTrans(h, h0, Bless(h0, from, ty), {to, from}, {to});
  }

  lemma {:induction false} AssignFromRetains(h: Heap, to: Ref, from: Ref, list: seq<Method<AssignExec>>, i: nat,
                                             err: ErrorLocation, held: multiset<Ref>)
    requires i <= |list| && Sane(h, held + Stowed(err), {to, from}) && Pair(h, to, from, held)
    ensures Retains(h, AssignFrom(h, to, from, list, i, err).0, {to, from}, {to})
    decreases |list| - i
  {
    hide Sane, ExecAssign, Retains;
    RetainsRefl(h, {to, from}, {to});
    if i < |list| {
      var m := list[i];
      var h1 := Bless(Bless(h, to, m.ty), from, m.ty);
      BlessRetains(h, to, from, m.ty);
      BlessSane(h, to, m.ty, held + Stowed(err), {to, from});
      BlessSane(Bless(h, to, m.ty), from, m.ty, held + Stowed(err), {to, from});
      ExecAssignSane(h1, to, from, m.exec, err, held);
      ExecAssignRetains(h1, to, from, m.exec, err, held, {to, from});
      var (h2, ok, err1) := ExecAssign(h1, to, from, m.exec, err);
      RetainsTrans(h, h1, h2, {to, from}, {to});
      if ok && !(err1.Location? && err1.error.Some?) {
        AssignFromRetains(h2, to, from, list, i + 1, err1, held);
        RetainsTrans(h, h2, AssignFrom(h, to, from, list, i, err).0, {to, from}, {to});
      }
    }
  }

  lemma BlessedBoth(h: Heap, to: Ref, from: Ref, ty: TypeId)
    requires to in h.objs && from in h.objs
    ensures var h' := Bless(Bless(h, to, ty), from, ty); h'.objs[to].body.ty == ty && h'.objs[from].body.ty == ty
  {}

  /** Objects that got their class back. */
  lemma RetainsClasses(h: Heap, h': Heap, blessed: set<Ref>, written: set<Ref>)
    requires Retains(h, h', blessed, written)
    requires forall x :: x in blessed && x in h.objs ==> x in h'.objs && h'.objs[x].body.ty == h.objs[x].body.ty
    ensures Retains(h, h', {}, written)
  {}

  /** Writing an object that is new writes none that was there before. */
  lemma RetainsMembers(h: Heap, h': Heap, written: set<Ref>)
    requires Retains(h, h', {}, written) && written !! h.objs.Keys
    ensures Retains(h, h', {}, {})
  {}

  lemma RetainsMore(h: Heap, h': Heap, written: set<Ref>)
    requires Retains(h, h', {}, {})
    ensures Retains(h, h', {}, written)
  {}

  /** The loop, and both objects getting their class back. */
  lemma AssignLoopRetains(h: Heap, to: Ref, from: Ref, list: seq<Method<AssignExec>>, ty: TypeId, err: ErrorLocation,
                          held: multiset<Ref>)
    requires Sane(h, held + Stowed(err), {to, from}) && Pair(h, to, from, held)
    requires h.objs[to].body.ty == ty && h.objs[from].body.ty == ty
    ensures var h' := AssignFrom(h, to, from, list, 0, err).0;
            to in h'.objs && from in h'.objs && Retains(h, Bless(Bless(h', to, ty), from, ty), {}, {to})
  {
    hide Sane, AssignFrom, Retains, Bless, Stowed;
    AssignFromRetains(h, to, from, list, 0, err, held);
    AssignFromSane(h, to, from, list, 0, err, held);
    var h' := AssignFrom(h, to, from, list, 0, err).0;
    BlessRetains(h', to, from, ty);
    RetainsTrans(h, h', Bless(Bless(h', to, ty), from, ty), {to, from}, {to});
    BlessedBoth(h', to, from, ty);
    RetainsClasses(h, Bless(Bless(h', to, ty), from, ty), {to, from}, {to});
  }

  lemma AssignRetains(h: Heap, to: Ref, from: Ref, err: ErrorLocation, held: multiset<Ref>)
    requires Sane(h, held + Stowed(err), {}) && Pair(h, to, from, held)
    ensures Retains(h, Assign(h, to, from, err).0, {}, {to})
  {
    hide Sane, ClearObject, AssignFrom, Retains, PoolsSound, Young, Bless, Covered, Stowed;
    RetainsRefl(h, {}, {to});
    var ty := h.objs[to].body.ty;
    var list := AssignList(h, ty);
    if list != [] && h.objs[from].body.ty == ty {
      SanePools(h, held + Stowed(err), {});
      ClearRetains(h, to);
      HeldAlso(h, to, from, held, err);
      AssignStarts(h, to, from, held + Stowed(err));
      var h1 := ClearObject(h, to, true);
      AssignLoopRetains(h1, to, from, list, ty, err, held);
      RetainsTrans(h, h1, Assign(h, to, from, err).0, {}, {to});
    }
  }

  lemma CopyRetains(h: Heap, from: Ref, err: ErrorLocation, held: multiset<Ref>)
    requires Sane(h, held, {}) && from in held && from in h.objs && Stowed(err) == multiset{}
    ensures Retains(h, Copy(h, from, err).0, {}, {})
  {
    hide Sane, Create, Assign, Unref, Retains, PoolsSound, Young;
    var ty := h.objs[from].body.ty;
    HeldIsGranted(h, from, held, {});
    CreateSane(h, ty, err, held);
    CreateRetains(h, ty, err, held);
    SaneYoung(h, held, {});
    var (h1, to, err1) := Create(h, ty, err);
    if to.Some? {
      var all := held + One(to);
      assert held + One(to) + Stowed(err1) == all + Stowed(err1);
      HeldIsGranted(h1, to.value, all + Stowed(err1), {});
      AssignSane(h1, to.value, from, err1, all);
      AssignRetains(h1, to.value, from, err1, all);
      var (h2, ok, err2) := Assign(h1, to.value, from, err1);
      RetainsMore(h, h1, {to.value});
      RetainsTrans(h, h1, h2, {}, {to.value});
      RetainsMembers(h, h2, {to.value});
      SanePools(h2, all + Stowed(err2), {});
      UnrefRetains(h2, to.value, {}, {});
      RetainsTrans(h, h2, Unref(h2, to.value), {}, {});
    }
  }

  /** The object whose members a call writes: the one that is set, cleared or assigned to. */
  function Written(call: Call): set<Ref> {
    match call
    case SetBCall(r, _) => {r}
    case SetDCall(r, _) => {r}
    case ClearCall(r) => {r}
    case AssignCall(to, _, _) => {to}
    case _ => {}
  }

  lemma HeapRetains(w: World, call: Call)
    requires Good(w) && Allowed(w, call) && There(w.heap, call)
    ensures Retains(w.heap, HeapAfter(w.heap, call), {}, Written(call))
  {
    hide Sane, PoolsSound, Young, Create, Unref, Throw, ClearObject, Assign, Copy, SetC, SetB, SetD, AddRef, WeakRefTo,
         Retains, Stowed;
    var h, held := w.heap, w.held;
    SanePools(h, held, {});
    RetainsRefl(h, {}, {});
    match call
    case CreateCall(ty, reporting) => ReportNothing(held, reporting); CreateRetains(h, ty, Report(reporting), held);
    case RefCall(r) => RefRetains(h, r, {}, {});
    case UnrefCall(r) => UnrefRetains(h, r, {}, {});
    case WeakRefCall(r) => WeakRefRetains(h, r, held);
    case DerefCall(v) => if h.objs[v].target.Some? { RefRetains(h, h.objs[v].target.value, {}, {}); }
    case ThrowCall(cause, code) => ThrowRetains(h, Location(cause), code, None, held, {}, {}, {});
    case SetBCall(r, s) => SetBRetains(h, r, s);
    case SetCCall(r, c) => SetCRetains(h, r, c, {}, {});
    case SetDCall(r, s) => SetDRetains(h, r, s);
    case ClearCall(r) => ClearRetains(h, r);
    case AssignCall(to, from, reporting) =>
      ReportNothing(held, reporting);
      AssignRetains(h, to, from, Report(reporting), held);
    case CopyCall(r, reporting) => ReportNothing(held, reporting); CopyRetains(h, r, Report(reporting), held);
  }
}
