/** The library as it runs: objects whose fields are updated in place, and the runtime that they belong to. Each
    method is tied to the function of `Heaps` that says what the same call makes of the heap as a value. */
module Yakka {
  import opened Options
  import opened Pools
  import opened Classes
  import opened Heaps
  import opened Cascade
  import opened Accounts
  import opened Calls
  import opened PoolCalls

  /** An instance with everything that the classes of the repository add to it: `y_Object` and its protected
      structure, a weak reference's target, an error's members, Alpha's `a`, and Delta's `b`, `c` and `d`. */
  class Object {
    ghost const id: Ref
    const pool: Pool
    var ty: TypeId
    var refcount: nat
    var weakRef: Object?
    var deleted: bool
    ghost var teardowns: nat
    var target: Object?
    var code: int
    var description: Option<string>
    var cause: Object?
    var a: int
    var b: Option<string>
    var c: Object?
    var d: Option<string>
    var priv: bool

    constructor (ghost id: Ref, ty: TypeId, pool: Pool)
      ensures this.id == id && this.pool == pool && Value() == Fresh(ty, pool)
      ensures weakRef == null && target == null && cause == null && c == null
    {
      this.id := id;
      this.pool := pool;
      this.ty := ty;
      refcount, weakRef, deleted, teardowns, target := 1, null, false, 0, null;
      code, description, cause := 0, None, null;
      a, b, c, d, priv := 0, None, null, None, false;
    }

    ghost function Value(): Obj
      reads this
    {
      Obj(refcount, IdOf(target),
          Body(ty, pool, deleted, teardowns, IdOf(weakRef), IdOf(cause), IdOf(c),
               Data(code, description, a, b, d, priv)))
    }
  }

  ghost function IdOf(o: Object?): Option<Ref> {
    if o == null then None else Some(o.id)
  }

  /** A variable of type `y_Error *`, whose address is passed to calls that may report an error. */
  class ErrorSlot {
    var error: Object?

    constructor ()
      ensures error == null
    {
      error := null;
    }
  }

  ghost function LocationOf(slot: ErrorSlot?): ErrorLocation
    reads slot
  {
    if slot == null then Ignored else Location(IdOf(slot.error))
  }

  /** Setting Delta's `c` to NULL releases it. */
  lemma {:induction false} SetCNone(h: Heap, r: Ref)
    requires r in h.objs
    ensures SetC(h, r, None) == Release(h, r, CSlot)
  {}

  /** One turn of the loop in `y_clear_object`. */
  lemma ClearTurn(h: Heap, r: Ref, chain: seq<Method<ClearExec>>, i: nat, unrefObjects: bool)
    requires r in h.objs && i <= |chain|
    ensures ClearFrom(h, r, chain, i, unrefObjects)
            == if i == 0 then h
               else ClearFrom(Heaps.ExecClear(Heaps.Bless(h, r, chain[i - 1].ty), r, chain[i - 1].exec, unrefObjects),
                              r, chain, i - 1, unrefObjects)
  {}

  /** What a call may write at the address it was given for errors. */
  ghost function At(slot: ErrorSlot?): set<ErrorSlot> {
    if slot == null then {} else {slot}
  }

  /** One turn of the loop in `y_create`. */
  lemma {:induction false} InitTurn(h: Heap, r: Ref, list: seq<Method<InitExec>>, i: nat, err: ErrorLocation)
    requires r in h.objs && i <= |list|
    ensures InitFrom(h, r, list, i, err)
            == if i == |list| then (h, true, err)
               else
                 var (h1, err1) := Heaps.ExecInit(Heaps.Bless(h, r, list[i].ty), r, list[i].exec, err);
                 if err1.Location? && err1.error.Some? then (h1, false, err1) else InitFrom(h1, r, list, i + 1, err1)
  {}

  /** One turn of the loop in `y_assign`. */
  lemma {:induction false} AssignTurn(h: Heap, to: Ref, from: Ref, list: seq<Method<AssignExec>>, i: nat,
                                      err: ErrorLocation)
    requires to in h.objs && from in h.objs && i <= |list|
    ensures AssignFrom(h, to, from, list, i, err)
            == if i == |list| then (h, true, err)
               else
                 var h1 := Heaps.Bless(Heaps.Bless(h, to, list[i].ty), from, list[i].ty);
                 var (h2, ok, err1) := Heaps.ExecAssign(h1, to, from, list[i].exec, err);
                 if !ok || (err1.Location? && err1.error.Some?) then (h2, false, err1)
                 else AssignFrom(h2, to, from, list, i + 1, err1)
  {}

  /** The new error, and what becomes of it. */
  lemma NewErrorFresh(h: Heap, err: ErrorLocation, code: int, description: Option<string>)
    requires Tended(h) && err.Location?
    ensures var (h1, e, err1) := Heaps.Create(h, ErrorT, Ignored);
            && e == Some(h.next) && h.next in h1.objs && h1.objs[h.next] == Fresh(ErrorT, NextPool(h.pools))
            && Heaps.Throw(h, err, code, description)
               == (h1.(objs := h1.objs[h.next := Thrown(NextPool(h.pools), err.error, code, description)]),
                   Location(Some(h.next)))
  {
    TendedPlain(h);
    CreatePlain(h, ErrorT, Ignored);
    hide Tended, Heaps.Create, Heaps.Allocate;
    var h1 := Heaps.Create(h, ErrorT, Ignored).0;
    assert h.next in h1.objs && h1.objs[h.next] == Fresh(ErrorT, NextPool(h.pools)) by { AllocateFresh(h, ErrorT); }
    var h2 := SetData(h1, h.next, h1.objs[h.next].body.data.(code := code, description := description));
    assert SetSlot(h2, h.next, CauseSlot, err.error).objs
           == h1.objs[h.next := Thrown(NextPool(h.pools), err.error, code, description)];
  }

  lemma AllocateFresh(h: Heap, ty: TypeId)
    ensures h.next in Heaps.Allocate(h, ty).objs && Heaps.Allocate(h, ty).objs[h.next] == Fresh(ty, NextPool(h.pools))
  {}

  /** An error as `y_Error_throw` leaves it. */
  function Thrown(pool: Pool, cause: Option<Ref>, code: int, description: Option<string>): Obj {
    Obj(1, None, Body(ErrorT, pool, false, 0, None, cause, None, NO_DATA.(code := code, description := description)))
  }

  lemma UnpointedPools(h: Heap, r: Ref, ps: PoolState)
    requires Unpointed(h, r)
    ensures Unpointed(h.(pools := ps), r)
  {}

  /** What `y_copy` makes of the heap after its call of `y_create`. */
  ghost function Filled(h1: Heap, to: Option<Ref>, from: Ref, err1: ErrorLocation): (Heap, Option<Ref>, ErrorLocation) {
    if err1.Location? && err1.error.Some? then (if to.Some? then Heaps.Unref(h1, to.value) else h1, None, err1)
    else if to.None? || to.value !in h1.objs || from !in h1.objs then (h1, None, err1)
    else
      var (h2, ok, err2) := Heaps.Assign(h1, to.value, from, err1);
      if !ok || (err2.Location? && err2.error.Some?) then (Heaps.Unref(h2, to.value), None, err2) else (h2, to, err2)
  }

  class Runtime {
    const pools: PoolBuffer
    /** The finished class structures. */
    var types: Types
    /** The last-resort cleanup registered with each pool. */
    var cleanups: map<Pool, Object>
    ghost var objects: map<Ref, Object>
    ghost var next: Ref

    ghost predicate Has(o: Object)
      reads this
    {
      o.id in objects && objects[o.id] == o
    }

    ghost predicate HasAny(o: Object?)
      reads this
    {
      o == null || Has(o)
    }

    /** Every pointer of the object is NULL or leads to an object of this runtime. */
    ghost predicate Linked(o: Object)
      reads this, o
    {
      o.ty in types && HasAny(o.weakRef) && HasAny(o.cause) && HasAny(o.c) && HasAny(o.target)
    }

    ghost predicate Valid()
      reads this, objects.Values, pools, pools.buffer
    {
      && pools.Valid() && Sound(types)
      && (forall r :: r in objects ==> objects[r].id == r && r < next && Linked(objects[r]))
      && (forall p :: p in cleanups ==> Has(cleanups[p]))
    }

    ghost function View(): Heap
      reads this, objects.Values, pools
    {
      Heap(map r | r in objects :: objects[r].Value(), next, types, pools.State(),
           map p | p in cleanups :: cleanups[p].id)
    }

    constructor (poolBufferSize: nat, types: Types)
      requires Sound(types)
      ensures Valid() && fresh(pools) && fresh(pools.buffer)
      ensures View() == Heap(map[], 0, types, PoolState([], poolBufferSize, 0, []), map[])
    {
      hide Sound;
      pools := new PoolBuffer(poolBufferSize);
      this.types := types;
      cleanups := map[];
      objects := map[];
      next := 0;
      new;
      assert View().objs == map[] && View().cleanups == map[];
    }

    /** Writing one object changes one object of the view. */
    twostate lemma Wrote(o: Object)
      requires old(Valid()) && old(Has(o)) && unchanged(this) && unchanged(pools) && unchanged(pools.buffer)
      requires forall x :: x in objects.Values && x != o ==> unchanged(x)
      requires Linked(o)
      ensures Valid()
      ensures View() == old(View()).(objs := old(View()).objs[o.id := o.Value()])
    {
      hide Sound, PoolBuffer.Valid, Object.Value;
      forall r | r in objects
        ensures objects[r].id == r && r < next && Linked(objects[r])
        ensures r != o.id ==> objects[r].Value() == old(objects[r].Value())
      {
        assert objects[r] in objects.Values;
      }
      assert View().objs == old(View()).objs[o.id := o.Value()];
    }

    /** What the view and validity say about one object. */
    lemma ViewAt(o: Object)
      requires Valid() && Has(o)
      ensures o.id in View().objs && View().objs[o.id] == o.Value() && Linked(o) && View().types == types
    {}

    /** Registering or removing a cleanup changes the cleanups of the view. */
    twostate lemma Registered()
      requires old(Valid()) && unchanged(this`objects) && unchanged(this`next) && unchanged(this`types)
      requires unchanged(pools) && unchanged(pools.buffer) && forall x :: x in objects.Values ==> unchanged(x)
      requires forall p :: p in cleanups ==> Has(cleanups[p])
      ensures Valid()
      ensures View() == old(View()).(cleanups := map p | p in cleanups :: cleanups[p].id)
    {
      hide Sound, PoolBuffer.Valid, Object.Value;
      forall r | r in objects
        ensures objects[r].id == r && r < next && Linked(objects[r])
        ensures objects[r].Value() == old(objects[r].Value())
      {
        assert objects[r] in objects.Values;
      }
      assert View().objs == old(View()).objs;
    }

    /** What the recycler does changes the pools of the view. */
    twostate lemma Recycled()
      requires old(Valid()) && unchanged(this) && forall x :: x in objects.Values ==> unchanged(x)
      requires pools.Valid()
      ensures Valid() && View() == old(View()).(pools := pools.State())
    {
      hide Sound, PoolBuffer.Valid, Object.Value;
      forall r | r in objects
        ensures objects[r].id == r && r < next && Linked(objects[r])
        ensures objects[r].Value() == old(objects[r].Value())
      {
        assert objects[r] in objects.Values;
      }
      assert View().objs == old(View()).objs;
    }

    /** The classes that define the methods of a class are known. */
    lemma MethodsTyped(ty: TypeId)
      requires Valid() && ty in types
      ensures forall m :: m in types[ty].clear ==> m.ty in types
      ensures forall m :: m in types[ty].assign ==> m.ty in types
      ensures forall m :: m in types[ty].init ==> m.ty in types
    {}

    lemma CleanupAt(p: Pool)
      requires Valid() && p in cleanups
      ensures Has(cleanups[p]) && p in View().cleanups && View().cleanups[p] == cleanups[p].id
      ensures View().cleanups - {p} == map q | q in cleanups - {p} :: cleanups[q].id
      ensures forall q :: q in cleanups ==> Has(cleanups[q])
    {}

    lemma CleanupsAt()
      requires Valid()
      ensures forall p :: p in cleanups ==> Has(cleanups[p])
      ensures View().cleanups == map p | p in cleanups :: cleanups[p].id
    {}

    lemma NoCleanup(p: Pool)
      requires Valid()
      ensures p in View().cleanups <==> p in cleanups
      ensures View().pools == pools.State() && pools.Valid()
    {}

    // -------------------------------------------------------------------------------------
    // Reference counting
    // -------------------------------------------------------------------------------------

    /** `y_ref` */
    method Ref(o: Object) returns (ref: Object?)
      requires Valid() && Has(o)
      modifies o
      ensures Valid() && View() == AddRef(old(View()), o.id)
      ensures ref == if Granted(old(View()), o.id) then o else null
    {
      hide Runtime.Valid, Runtime.View, Sound;
      ViewAt(o);
      ref := null;
      if o.refcount > 0 {
        o.refcount := o.refcount + 1;
        ref := o;
        Wrote(o);
      }
    }

    /** `y_WeakRef_unset` */
    method UnsetWeakRef(w: Object)
      requires Valid() && Has(w)
      modifies w
      ensures Valid() && View() == SetTarget(old(View()), w.id, None)
    {
      hide Runtime.Valid, Runtime.View, Sound;
      ViewAt(w);
      w.target := null;
      Wrote(w);
    }

    /** `y_unref` */
    method Unref(o: Object)
      requires Valid() && Has(o)
      modifies this, objects.Values, pools, pools.buffer
      ensures Valid() && objects == old(objects) && types == old(types)
      ensures View() == Heaps.Unref(old(View()), o.id)
      decreases Positive(View()), 0
    {
      hide Runtime.Valid, Runtime.View, Sound, Heaps.Destroy, Unset;
      ghost var h := View();
      var doCleanup := Drop(o);
      if doCleanup {
        assert o.id in Positive(h) && o.id !in Positive(View());
        Destroy(o);
      }
    }

    /** The count in `y_unref`: whether it has come to zero, the weak reference being unset in that case. */
    method Drop(o: Object) returns (doCleanup: bool)
      requires Valid() && Has(o)
      modifies objects.Values
      ensures Valid() && objects == old(objects) && types == old(types)
      ensures o.id in old(View()).objs && doCleanup == (old(View()).objs[o.id].refcount == 1)
      ensures View() == if old(View()).objs[o.id].refcount == 0 then old(View())
                        else
                          var h1 := SetCount(old(View()), o.id, old(View()).objs[o.id].refcount - 1);
                          if doCleanup then Unset(h1, old(View()).objs[o.id].body.weakRef) else h1
    {
      hide Runtime.Valid, Runtime.View, Sound, Positive;
      ViewAt(o);
      doCleanup := false;
      if o.refcount > 0 {
        o.refcount := o.refcount - 1;
        Wrote(o);
        ViewAt(o);
        if o.refcount == 0 {
          doCleanup := true;
          if o.weakRef != null {
            UnsetWeakRef(o.weakRef);
          }
        }
      }
    }

    /** `y_destroy` */
    method Destroy(o: Object)
      requires Valid() && Has(o)
      modifies this, objects.Values, pools, pools.buffer
      ensures Valid() && objects == old(objects) && types == old(types)
      ensures View() == Heaps.Destroy(old(View()), o.id)
      decreases Positive(View()), 9
    {
      hide Runtime.Valid, Runtime.View, Sound, Heaps.TearDown, Heaps.FreePool;
      ViewAt(o);
      if !o.deleted {
        TearDown(o, true);
        ViewAt(o);
        FreePool(o.pool);
      }
    }

    /** The clear chain, and the mark that follows it. */
    method TearDown(o: Object, unrefObjects: bool)
      requires Valid() && Has(o)
      modifies this, objects.Values, pools, pools.buffer
      ensures Valid() && objects == old(objects) && types == old(types)
      ensures View() == Heaps.TearDown(old(View()), o.id, unrefObjects)
      decreases Positive(View()), 6
    {
      hide Runtime.Valid, Runtime.View, Sound, Heaps.ClearObject;
      ViewAt(o);
      ClearObject(o, unrefObjects);
      label Cleared:
      ViewAt(o);
      o.deleted := true;
      o.teardowns := o.teardowns + 1;
      Wrote@Cleared(o);
    }

    /** `y_cleanup_of_last_resort`, if clearing pool `p` fires one. */
    method LastResort(p: Pool)
      requires Valid()
      modifies this, objects.Values, pools, pools.buffer
      ensures Valid() && objects == old(objects) && types == old(types)
      ensures View() == Heaps.LastResort(old(View()), p)
      decreases Positive(View()), 7
    {
      hide Runtime.Valid, Runtime.View, Sound;
      ghost var h := View();
      NoCleanup(p);
      if p in cleanups {
        var o := cleanups[p];
        CleanupAt(p);
        cleanups := cleanups - {p};
        Registered();
        assert View() == h.(cleanups := h.cleanups - {p});
        ViewAt(o);
        if !o.deleted {
          TearDown(o, false);
        }
      }
    }

    /** `y_Runtime_free_object_pool` */
    method FreePool(p: Pool)
      requires Valid()
      modifies this, objects.Values, pools, pools.buffer
      ensures Valid() && objects == old(objects) && types == old(types)
      ensures View() == Heaps.FreePool(old(View()), p)
      decreases Positive(View()), 8
    {
      hide Runtime.Valid, Runtime.View, Sound, PoolBuffer.Valid, Recycle;
      LastResort(p);
      NoCleanup(p);
      label Cleaned:
      pools.FreeObjectPool(p);
      Recycled@Cleaned();
    }

    /** `y_bless` */
    method Bless(o: Object, retype: TypeId)
      requires Valid() && Has(o) && retype in types
      modifies o
      ensures Valid() && View() == Heaps.Bless(old(View()), o.id, retype)
    {
      hide Runtime.Valid, Runtime.View, Sound;
      ViewAt(o);
      o.ty := retype;
      Wrote(o);
    }

    /** `y_clear_object` */
    method ClearObject(o: Object, unrefObjects: bool)
      requires Valid() && Has(o)
      modifies this, objects.Values, pools, pools.buffer
      ensures Valid() && objects == old(objects) && types == old(types)
      ensures View() == Heaps.ClearObject(old(View()), o.id, unrefObjects)
      decreases Positive(View()), 5
    {
      hide Runtime.Valid, Runtime.View, Sound, Heaps.ExecClear, Heaps.Bless, ClearFrom, Positive;
      ghost var h := View();
      ViewAt(o);
      var original := o.ty;
      var clear := types[original].clear;
      MethodsTyped(original);
      if |clear| > 0 {
        var i := |clear|;
        while i > 0
          invariant 0 <= i <= |clear|
          invariant Valid() && objects == old(objects) && types == old(types)
          invariant o.id in View().objs && Positive(View()) <= Positive(h)
          invariant ClearFrom(View(), o.id, clear, i, unrefObjects) == ClearFrom(h, o.id, clear, |clear|, unrefObjects)
        {
          ClearTurn(View(), o.id, clear, i, unrefObjects);
          Bless(o, clear[i - 1].ty);
          ExecClear(o, clear[i - 1].exec, unrefObjects);
          i := i - 1;
        }
        ClearTurn(View(), o.id, clear, 0, unrefObjects);
        Bless(o, original);
      }
    }

    /** Running one clear method. */
    method ExecClear(o: Object, exec: ClearExec, unrefObjects: bool)
      requires Valid() && Has(o)
      modifies this, objects.Values, pools, pools.buffer
      ensures Valid() && objects == old(objects) && types == old(types)
      ensures View() == Heaps.ExecClear(old(View()), o.id, exec, unrefObjects)
      decreases Positive(View()), 3
    {
      hide Runtime.Valid, Runtime.View, Sound;
      match exec
      case ObjectClear => ClearObjectSlots(o, unrefObjects);
      case ErrorClear => ClearError(o);
      case AlphaClear => ClearAlpha(o);
      case DeltaClear => ClearDelta(o, unrefObjects);
      case UserClear =>
    }

    /** `y_Object_clear` */
    method ClearObjectSlots(o: Object, unrefObjects: bool)
      requires Valid() && Has(o)
      modifies this, objects.Values, pools, pools.buffer
      ensures Valid() && objects == old(objects) && types == old(types)
      ensures View() == if unrefObjects then Release(old(View()), o.id, WeakSlot) else old(View())
      decreases Positive(View()), 1
    {
      hide Runtime.Valid, Runtime.View, Sound, Heaps.Unref;
      ViewAt(o);
      if unrefObjects {
        if o.weakRef != null {
          Unref(o.weakRef);
          label Dropped:
          ViewAt(o);
          o.weakRef := null;
          Wrote@Dropped(o);
        }
      }
    }

    /** `y_Error_clear` */
    method ClearError(o: Object)
      requires Valid() && Has(o)
      modifies this, objects.Values, pools, pools.buffer
      ensures Valid() && objects == old(objects) && types == old(types)
      ensures View() == Heaps.ClearError(old(View()), o.id)
      decreases Positive(View()), 2
    {
      hide Runtime.Valid, Runtime.View, Sound, Release;
      ViewAt(o);
      if IsA(types, o.ty, ErrorT) {
        o.code := 0;
        o.description := None;
        Wrote(o);
        ReleaseCause(o);
      }
    }

    /** The end of `y_Error_clear`: the cause is unreffed, then the slot nulled. */
    method ReleaseCause(o: Object)
      requires Valid() && Has(o)
      modifies this, objects.Values, pools, pools.buffer
      ensures Valid() && objects == old(objects) && types == old(types)
      ensures o.id in old(View()).objs && View() == Release(old(View()), o.id, CauseSlot)
      decreases Positive(View()), 1
    {
      hide Runtime.Valid, Runtime.View, Sound, Heaps.Unref;
      ViewAt(o);
      if o.cause != null {
        Unref(o.cause);
        label Dropped:
        ViewAt(o);
        o.cause := null;
        Wrote@Dropped(o);
      }
    }

    /** `Alpha_clear` */
    method ClearAlpha(o: Object)
      requires Valid() && Has(o)
      modifies o
      ensures Valid() && View() == Heaps.ClearAlpha(old(View()), o.id)
    {
      hide Runtime.Valid, Runtime.View, Sound;
      ViewAt(o);
      if IsA(types, o.ty, AlphaT) {
        o.a := 0;
        Wrote(o);
      }
    }

    /** `Delta_clear` */
    method ClearDelta(o: Object, unrefObjects: bool)
      requires Valid() && Has(o)
      modifies this, objects.Values, pools, pools.buffer
      ensures Valid() && objects == old(objects) && types == old(types)
      ensures View() == Heaps.ClearDelta(old(View()), o.id, unrefObjects)
      decreases Positive(View()), 2
    {
      hide Runtime.Valid, Runtime.View, Sound, Heaps.Unref, Heaps.SetC, Release;
      ViewAt(o);
      if IsA(types, o.ty, DeltaT) {
        SetB(o, None);
        if unrefObjects {
          SetCNone(View(), o.id);
          SetC(o, null);
        }
        SetD(o, None);
      }
    }

    // -------------------------------------------------------------------------------------
    // Members of a Delta
    // -------------------------------------------------------------------------------------

    /** `Delta_set_b` */
    method SetB(o: Object, b: Option<string>)
      requires Valid() && Has(o)
      modifies o`b
      ensures Valid() && View() == Heaps.SetB(old(View()), o.id, b)
      ensures o.b == if b == None || b == Some("") then None else b
    {
      hide Runtime.Valid, Runtime.View, Sound;
      ViewAt(o);
      o.b := if b.Some? && |b.value| > 0 then b else None;
      Wrote(o);
    }

    /** `Delta_set_c` */
    method SetC(o: Object, c: Object?)
      requires Valid() && Has(o) && HasAny(c)
      modifies this, objects.Values, pools, pools.buffer
      ensures Valid() && objects == old(objects) && types == old(types)
      ensures View() == Heaps.SetC(old(View()), o.id, IdOf(c))
      decreases Positive(View()), 1
    {
      hide Runtime.Valid, Runtime.View, Sound, Heaps.Unref, Positive;
      ViewAt(o);
      if o.c != null {
        Unref(o.c);
      }
      var kept: Object? := null;
      if c != null {
        kept := Ref(c);
      }
      label Reffed:
      ViewAt(o);
      o.c := kept;
      Wrote@Reffed(o);
    }

    /** `Delta_set_d` */
    method SetD(o: Object, d: Option<string>)
      requires Valid() && Has(o)
      modifies o`d
      ensures Valid() && View() == Heaps.SetD(old(View()), o.id, d)
      ensures o.d == if d == None || d == Some("") then None else d
    {
      hide Runtime.Valid, Runtime.View, Sound;
      ViewAt(o);
      o.d := if d.Some? && |d.value| > 0 then d else None;
      Wrote(o);
    }

    // -------------------------------------------------------------------------------------
    // Creating
    // -------------------------------------------------------------------------------------

    /** The objects that were there are still there, and the others are new. */
    twostate predicate Grew()
      reads this
    {
      && (forall r :: r in old(objects) ==> r in objects && objects[r] == old(objects)[r])
      && (forall r :: r in objects && r !in old(objects) ==> fresh(objects[r]))
    }

    /** A new object has joined the runtime. */
    twostate lemma Added(new o: Object)
      requires old(Valid()) && objects == old(objects)[old(next) := o] && next == old(next) + 1 && o.id == old(next)
      requires unchanged(this`types) && unchanged(this`cleanups) && unchanged(pools) && unchanged(pools.buffer)
      requires forall x :: x in old(objects).Values ==> unchanged(x)
      requires o.ty in types && o.weakRef == null && o.cause == null && o.c == null && o.target == null
      ensures Valid()
      ensures View() == old(View()).(objs := old(View()).objs[o.id := o.Value()], next := old(View()).next + 1)
    {
      hide Sound, PoolBuffer.Valid, Object.Value, Runtime.View;
      forall r | r in old(objects)
        ensures objects[r] == old(objects)[r] && objects[r].id == r && r < old(next) && Linked(objects[r])
        ensures objects[r].Value() == old(objects[r].Value())
      {
        assert old(objects)[r] in old(objects).Values;
        assert old(Linked(objects[r]));
      }
      AddedView(o);
    }

    twostate lemma AddedView(new o: Object)
      requires objects == old(objects)[old(next) := o] && next == old(next) + 1 && o.id == old(next)
      requires unchanged(this`types) && unchanged(this`cleanups) && unchanged(pools)
      requires forall r :: r in old(objects) ==>
                 && r in objects && r != o.id && objects[r] == old(objects)[r]
                 && objects[r].Value() == old(objects[r].Value())
      ensures View() == old(View()).(objs := old(View()).objs[o.id := o.Value()], next := old(View()).next + 1)
    {
      hide Object.Value;
      assert View().objs == old(View()).objs[o.id := o.Value()];
    }

    /** An object that nothing points at has left the runtime. */
    twostate lemma Left(o: Object)
      requires old(Valid()) && old(Has(o)) && objects == old(objects) - {o.id} && unchanged(this`next)
      requires unchanged(this`types) && unchanged(this`cleanups) && unchanged(pools) && unchanged(pools.buffer)
      requires forall x :: x in old(objects).Values ==> unchanged(x)
      requires Unpointed(old(View()), o.id)
      ensures Valid()
      ensures View() == old(View()).(objs := old(View()).objs - {o.id})
    {
      hide Sound, PoolBuffer.Valid, Object.Value;
      forall r | r in objects
        ensures objects[r].id == r && r < next && Linked(objects[r])
        ensures objects[r].Value() == old(objects[r].Value())
      {
        assert objects[r] in old(objects).Values;
        assert old(View()).objs[r] == objects[r].Value();
        PointsElsewhere(objects[r], o);
      }
      forall p | p in cleanups
        ensures Has(cleanups[p])
      {
        assert old(View()).cleanups[p] == cleanups[p].id;
      }
      assert View().objs == old(View()).objs - {o.id};
      assert View().cleanups == old(View()).cleanups;
    }

    /** None of the pointers of `x` leads to `o`. */
    lemma PointsElsewhere(x: Object, o: Object)
      requires forall s :: Get(x.Value().body, s) != Some(o.id)
      requires x.Value().target != Some(o.id)
      ensures x.weakRef != o && x.cause != o && x.c != o && x.target != o
    {
      assert Get(x.Value().body, WeakSlot) == IdOf(x.weakRef);
      assert Get(x.Value().body, CauseSlot) == IdOf(x.cause);
      assert Get(x.Value().body, CSlot) == IdOf(x.c);
    }

    /** Validity says that identities to come are unused. */
    lemma {:induction false} ViewUnused()
      requires Valid()
      ensures Young(View()) && View().next == next && View().types == types && View().pools == pools.State()
              && pools.Valid()
      ensures View().objs.Keys == objects.Keys
      ensures forall x, s :: x in View().objs ==> Get(View().objs[x].body, s) != Some(next)
      ensures forall x :: x in View().objs ==> View().objs[x].target != Some(next)
      ensures forall p :: p in View().cleanups ==> View().cleanups[p] in View().objs
    {
      hide Sound, PoolBuffer.Valid;
      forall x, s | x in View().objs
        ensures Get(View().objs[x].body, s) != Some(next) && View().objs[x].target != Some(next)
      {
        assert Linked(objects[x]);
      }
    }

    /** The new instance before any init method has run. */
    method Allocate(ty: TypeId) returns (o: Object)
      requires Valid() && ty in types
      modifies this, pools, pools.buffer
      ensures Valid() && Grew() && Has(o) && fresh(o) && types == old(types) && o.id == old(View()).next
      ensures View() == Heaps.Allocate(old(View()), ty)
    {
      hide Runtime.Valid, Runtime.View, Sound, PoolBuffer.Valid, NextPool, Draw;
      ViewUnused();
      var pool := pools.CreateObjectPool();
      Recycled();
      label Drawn:
      o := new Object(next, ty, pool);
      objects := objects[next := o];
      next := next + 1;
      Added@Drawn(o);
    }

    /** `y_create` */
    method Create(ty: TypeId, error: ErrorSlot?) returns (result: Object?)
      requires Valid() && Tended(View()) && ty in types
      requires error == null || error.error == null
      modifies this, objects.Values, pools, pools.buffer, At(error)
      ensures Valid() && Tended(View()) && Grew() && types == old(types)
      ensures HasAny(result) && (error != null ==> HasAny(error.error))
      ensures (View(), IdOf(result), LocationOf(error)) == Heaps.Create(old(View()), ty, old(LocationOf(error)))
      decreases Weight(LocationOf(error)), 3, 0
    {
      hide Runtime.Valid, Runtime.View, Sound, PoolsSound, InitFrom, Heaps.Allocate, Heaps.Create, Discard, Unfinished,
           Tended, Unpointed, Finish;
      CreateShape(View(), ty, LocationOf(error));
      var o := Begin(ty);
      var ok := RunInits(o, types[ty].init, error);
      result := Conclude(o, ty, ok);
    }

    /** The start of `y_create`. */
    method Begin(ty: TypeId) returns (o: Object)
      requires Valid() && Tended(View()) && ty in types
      modifies this, pools, pools.buffer
      ensures Valid() && Grew() && Has(o) && fresh(o) && types == old(types) && o.id == old(View()).next
      ensures View() == Heaps.Allocate(old(View()), ty) && o.id !in old(objects)
      ensures Tended(View()) && Unfinished(View(), o.id) && Unpointed(View(), o.id)
      ensures types[ty].init == InitList(old(View()), ty) && forall m :: m in types[ty].init ==> m.ty in types
    {
      hide Runtime.Valid, Runtime.View, Sound, PoolsSound, Heaps.Allocate, Unfinished, Tended, Unpointed;
      ghost var h := View();
      AllocateTended(h, ty);
      ViewUnused();
      assert Unpointed(Heaps.Allocate(h, ty), h.next) by { AllocateUnpointed(h, ty); }
      assert h.next !in h.objs by { assert Young(h); }
      o := Allocate(ty);
      ViewAt(o);
      MethodsTyped(ty);
    }

    /** The end of `y_create`: the object is complete, or its pool goes back. */
    method Conclude(o: Object, ty: TypeId, ok: bool) returns (result: Object?)
      requires Valid() && Has(o) && ty in types && Tended(View()) && Unfinished(View(), o.id) && Unpointed(View(), o.id)
      modifies this, objects.Values, pools, pools.buffer
      ensures Valid() && Tended(View()) && types == old(types) && HasAny(result)
      ensures objects == if ok then old(objects) else old(objects) - {o.id}
      ensures result == if ok then o else null
      ensures o.id in old(View()).objs
      ensures View() == if ok then Finish(old(View()), o.id, ty) else Discard(old(View()), o.id)
    {
      hide Runtime.Valid, Runtime.View, Sound, PoolsSound, Unfinished, Tended, Unpointed, Finish, Discard;
      ViewAt(o);
      if ok {
        Complete(o, ty);
        result := o;
      } else {
        Withdraw(o);
        result := null;
      }
    }

    /** The loop in `y_create`; false when an init method left an error. */
    method RunInits(o: Object, init: seq<Method<InitExec>>, error: ErrorSlot?) returns (ok: bool)
      requires Valid() && Has(o) && Tended(View()) && Unfinished(View(), o.id) && Unpointed(View(), o.id)
      requires error == null || error.error == null
      requires forall m :: m in init ==> m.ty in types
      modifies this, objects.Values, pools, pools.buffer, At(error)
      ensures Valid() && Grew() && types == old(types) && (error != null ==> HasAny(error.error))
      ensures Tended(View()) && Unfinished(View(), o.id) && Unpointed(View(), o.id)
      ensures error != null && error.error != null ==> fresh(error.error)
      ensures InitFrom(old(View()), o.id, init, 0, old(LocationOf(error))) == (View(), ok, LocationOf(error))
      decreases Weight(LocationOf(error)), 2, 0
    {
      hide Runtime.Valid, Runtime.View, Sound, PoolsSound, InitFrom, Unfinished, Unpointed, Tended, Heaps.Bless,
           Heaps.ExecInit, Positive;
      ghost var h, err := View(), LocationOf(error);
      ok := true;
      var i := 0;
      while i < |init| && ok
        invariant 0 <= i <= |init|
        invariant Valid() && Grew() && types == old(types) && Has(o)
        invariant Tended(View()) && Unfinished(View(), o.id) && Unpointed(View(), o.id)
        invariant error != null ==> HasAny(error.error)
        invariant error != null && error.error != null ==> fresh(error.error)
        invariant ok ==> LocationOf(error) == err
        invariant InitFrom(h, o.id, init, 0, err)
                  == if ok then InitFrom(View(), o.id, init, i, err) else (View(), false, LocationOf(error))
        decreases |init| - i, ok
      {
        ViewAt(o);
        InitTurn(View(), o.id, init, i, err);
        InitStepTended(View(), o.id, init[i], err);
        BlessTended(View(), o.id, init[i].ty);
        Bless(o, init[i].ty);
        ExecInit(o, init[i].exec, error);
        if error != null && error.error != null {
          ok := false;
        } else {
          i := i + 1;
        }
      }
      ViewAt(o);
      if ok {
        InitTurn(View(), o.id, init, i, err);
      }
    }

    /** The failure path of `y_create`: the pool goes back, and the object with it. */
    method Withdraw(o: Object)
      requires Valid() && Has(o) && Unpointed(View(), o.id) && Tended(View()) && Unfinished(View(), o.id)
      modifies this, objects.Values, pools, pools.buffer
      ensures Valid() && Tended(View()) && objects == old(objects) - {o.id} && types == old(types)
      ensures o.id in old(View()).objs && View() == Discard(old(View()), o.id)
    {
      hide Runtime.Valid, Runtime.View, Sound, PoolsSound, Unpointed, Unfinished, Heaps.FreePool, Recycle;
      ViewAt(o);
      DiscardTended(View(), o.id);
      UnpointedPools(View(), o.id, Recycle(View().pools, o.pool));
      FreePool(o.pool);
      label Freed:
      objects := objects - {o.id};
      Left@Freed(o);
    }

    /** The end of a successful `y_create`. */
    method Complete(o: Object, ty: TypeId)
      requires Valid() && Has(o) && ty in types && Tended(View()) && Unfinished(View(), o.id)
      modifies this`cleanups, o
      ensures Valid() && Tended(View())
      ensures o.id in old(View()).objs && View() == Finish(old(View()), o.id, ty)
    {
      hide Runtime.Valid, Runtime.View, Sound, PoolsSound, Unfinished;
      ViewAt(o);
      FinishTended(View(), o.id, ty);
      Bless(o, ty);
      Register(o);
    }

    /** Registering an object's last-resort cleanup with its pool. */
    method Register(o: Object)
      requires Valid() && Has(o)
      modifies this`cleanups
      ensures Valid()
      ensures o.id in old(View()).objs
      ensures View() == old(View()).(cleanups := old(View()).cleanups[old(View()).objs[o.id].body.pool := o.id])
    {
      hide Runtime.Valid, Sound;
      ViewAt(o);
      CleanupsAt();
      cleanups := cleanups[o.pool := o];
      Registered();
    }

    /** Filling in a new error. */
    method Describe(e: Object, code: int, description: Option<string>, cause: Object?)
      requires Valid() && Has(e) && HasAny(cause) && e.Value() == Fresh(ErrorT, e.pool)
      modifies e
      ensures Valid()
      ensures View() == old(View()).(objs := old(View()).objs[e.id := Thrown(e.pool, IdOf(cause), code, description)])
    {
      hide Runtime.Valid, Runtime.View, Sound;
      ViewAt(e);
      e.code := code;
      e.description := description;
      if cause != null {
        e.cause := cause;
      }
      Wrote(e);
    }

    /** `y_Error_throw` */
    method Throw(error: ErrorSlot?, code: int, description: Option<string>)
      requires Valid() && Tended(View()) && (error != null ==> HasAny(error.error))
      modifies this, objects.Values, pools, pools.buffer, At(error)
      ensures Valid() && Tended(View()) && Grew() && types == old(types)
      ensures error != null ==> HasAny(error.error) && error.error != null && fresh(error.error)
      ensures (View(), LocationOf(error)) == Heaps.Throw(old(View()), old(LocationOf(error)), code, description)
      decreases Weight(LocationOf(error)), 0, 0
    {
      hide Runtime.Valid, Runtime.View, Sound, PoolsSound, Tended, Heaps.Create, Heaps.Throw, NextPool, Heaps.Allocate;
      ghost var h, err := View(), LocationOf(error);
      ThrowTended(h, err, code, description);
      TendedPlain(h);
      ViewUnused();
      if error != null {
        NewErrorFresh(h, err, code, description);
        var newError := Create(ErrorT, null);
        ViewAt(newError);
        Describe(newError, code, description, error.error);
        error.error := newError;
      } else {
        ThrowIgnored(h, code, description);
      }
    }

    /** Running one init method. */
    method ExecInit(o: Object, exec: InitExec, error: ErrorSlot?)
      requires Valid() && Tended(View()) && Has(o) && (error != null ==> HasAny(error.error))
      modifies this, objects.Values, pools, pools.buffer, At(error)
      ensures Valid() && Grew() && types == old(types)
      ensures error != null ==> HasAny(error.error)
      ensures error != null ==> error.error == old(error.error) || (error.error != null && fresh(error.error))
      ensures o.id in old(View()).objs
      ensures (View(), LocationOf(error)) == Heaps.ExecInit(old(View()), o.id, exec, old(LocationOf(error)))
      ensures exec.DeltaInit? ==> o.priv == (old(o.priv) || IsA(types, o.ty, DeltaT)) && o.ty == old(o.ty)
      decreases Weight(LocationOf(error)), 1, 0
    {
      hide Runtime.Valid, Runtime.View, Sound, PoolsSound, Tended, Heaps.Throw;
      ViewAt(o);
      match exec
      case DeltaInit =>
        if IsA(types, o.ty, DeltaT) {
          o.priv := true;
          Wrote(o);
        }
      case UserInit =>
      case ThrowingInit(code) => Throw(error, code, None);
    }

    // -------------------------------------------------------------------------------------
    // Weak references
    // -------------------------------------------------------------------------------------

    /** `y_WeakRef_new` */
    method NewWeakRef(instance: Object, error: ErrorSlot) returns (ref: Object?)
      requires Valid() && Tended(View()) && Has(instance) && error.error == null
      modifies this, objects.Values, pools, pools.buffer, error
      ensures Valid() && Tended(View()) && Grew() && types == old(types) && HasAny(ref) && HasAny(error.error)
      ensures var (h1, w, err) := Heaps.Create(old(View()), WeakRefT, Location(None));
              && IdOf(ref) == w && LocationOf(error) == err
              && View() == if w.Some? && w.value in h1.objs then SetTarget(h1, w.value, Some(instance.id)) else h1
    {
      hide Runtime.Valid, Runtime.View, Sound, PoolsSound, Tended, Heaps.Create;
      ghost var h := View();
      TendedPlain(h);
      ViewUnused();
      CreatePlain(h, WeakRefT, Location(None));
      ref := Create(WeakRefT, error);
      if error.error == null {
        label Created:
        ViewAt(ref);
        TargetTended(View(), ref.id, Some(instance.id));
        ref.target := instance;
        Wrote@Created(ref);
      }
    }

    /** Storing a new weak reference in its referent. */
    method StoreWeakRef(o: Object, ref: Object?)
      requires Valid() && Tended(View()) && Has(o) && HasAny(ref)
      modifies o
      ensures Valid() && Tended(View())
      ensures o.id in old(View()).objs && View() == SetSlot(old(View()), o.id, WeakSlot, IdOf(ref))
    {
      hide Runtime.Valid, Runtime.View, Sound, PoolsSound, Tended;
      ViewAt(o);
      WriteTended(View(), o.id, Heaps.Put(View().objs[o.id].body, WeakSlot, IdOf(ref)));
      o.weakRef := ref;
      Wrote(o);
    }

    /** The first use of `y_weak_ref`. */
    method AttachWeakRef(o: Object)
      requires Valid() && Tended(View()) && Has(o) && o.weakRef == null
      modifies this, objects.Values, pools, pools.buffer
      ensures Valid() && Tended(View()) && Grew() && types == old(types)
      ensures o.id in old(View()).objs && View() == Heaps.AttachWeakRef(old(View()), o.id)
    {
      hide Runtime.Valid, Runtime.View, Sound, PoolsSound, Tended, Heaps.Create, Heaps.Unref, SetSlot;
      ViewAt(o);
      var error := new ErrorSlot();
      var ref := NewWeakRef(o, error);
      StoreWeakRef(o, ref);
      if error.error != null {
        UnrefTended(View(), error.error.id);
        Unref(error.error);
      }
    }

    /** `y_weak_ref` */
    method WeakRefTo(o: Object) returns (ref: Object?)
      requires Valid() && Tended(View()) && Has(o)
      modifies this, objects.Values, pools, pools.buffer
      ensures Valid() && Tended(View()) && Grew() && types == old(types) && HasAny(ref)
      ensures o.id in old(View()).objs && (View(), IdOf(ref)) == Heaps.WeakRefTo(old(View()), o.id)
    {
      hide Runtime.Valid, Runtime.View, Sound, PoolsSound, Tended, Heaps.AttachWeakRef, AddRef;
      ViewAt(o);
      if o.weakRef == null {
        AttachWeakRef(o);
      }
      ViewAt(o);
      ref := null;
      if o.weakRef != null {
        RefTended(View(), o.weakRef.id);
        ref := Ref(o.weakRef);
      }
    }

    /** `y_WeakRef_deref` */
    method Deref(w: Object) returns (ref: Object?)
      requires Valid() && Has(w)
      modifies objects.Values
      ensures Valid() && HasAny(ref)
      ensures w.id in old(View()).objs && (View(), IdOf(ref)) == Heaps.Deref(old(View()), w.id)
    {
      hide Runtime.Valid, Runtime.View, Sound, AddRef;
      ViewAt(w);
      var instance: Object? := null;
      if w.target != null {
        instance := w.target;
      }
      ref := null;
      if instance != null {
        ref := Ref(instance);
      }
    }

    // -------------------------------------------------------------------------------------
    // Assigning and copying
    // -------------------------------------------------------------------------------------

    /** `Delta_assign` on two Deltas. */
    method AssignDelta(to: Object, from: Object)
      requires Valid() && Has(to) && Has(from)
      modifies this, objects.Values, pools, pools.buffer
      ensures Valid() && objects == old(objects) && types == old(types)
      ensures to.id in old(View()).objs && from.id in old(View()).objs
      ensures View() == Heaps.AssignDelta(old(View()), to.id, from.id)
    {
      hide Runtime.Valid, Runtime.View, Sound, Heaps.SetB, Heaps.SetC, Heaps.SetD;
      ViewAt(to);
      ViewAt(from);
      SetB(to, from.b);
      ViewAt(from);
      SetC(to, from.c);
      ViewAt(from);
      SetD(to, from.d);
    }

    /** Running one assign method; whether it returned non-NULL. */
    method ExecAssign(to: Object, from: Object, exec: AssignExec, error: ErrorSlot?) returns (done: bool)
      requires Valid() && Tended(View()) && Has(to) && Has(from) && (error != null ==> HasAny(error.error))
      modifies this, objects.Values, pools, pools.buffer, At(error)
      ensures Valid() && Tended(View()) && Grew() && types == old(types) && (error != null ==> HasAny(error.error))
      ensures to.id in old(View()).objs && from.id in old(View()).objs
      ensures (View(), done, LocationOf(error)) == Heaps.ExecAssign(old(View()), to.id, from.id, exec,
                                                                    old(LocationOf(error)))
    {
      hide Runtime.Valid, Runtime.View, Sound, PoolsSound, Tended, Heaps.Throw, Heaps.AssignDelta;
      ViewAt(to);
      ViewAt(from);
      ExecAssignTended(View(), to.id, from.id, exec, LocationOf(error));
      done := true;
      match exec
      case AlphaAssign =>
        if IsA(types, to.ty, AlphaT) && IsA(types, from.ty, AlphaT) {
          to.a := from.a;
          Wrote(to);
        }
      case DeltaAssign =>
        done := IsA(types, to.ty, DeltaT);
        if done && IsA(types, from.ty, DeltaT) {
          AssignDelta(to, from);
        }
      case UserAssign =>
      case RefusingAssign => done := false;
      case ThrowingAssign(code) => Throw(error, code, None);
    }

    /** One turn of the loop in `y_assign`. */
    method AssignStep(to: Object, from: Object, m: Method<AssignExec>, error: ErrorSlot?) returns (done: bool)
      requires Valid() && Tended(View()) && Has(to) && Has(from) && (error != null ==> HasAny(error.error))
               && m.ty in types
      modifies this, objects.Values, pools, pools.buffer, At(error)
      ensures Valid() && Tended(View()) && Grew() && types == old(types) && (error != null ==> HasAny(error.error))
      ensures to.id in old(View()).objs && from.id in old(View()).objs
      ensures (View(), done, LocationOf(error))
              == Heaps.ExecAssign(Heaps.Bless(Heaps.Bless(old(View()), to.id, m.ty), from.id, m.ty), to.id, from.id,
                                  m.exec, old(LocationOf(error)))
    {
      hide Runtime.Valid, Runtime.View, Sound, PoolsSound, Tended, Heaps.ExecAssign, Heaps.Bless;
      ViewAt(to);
      ViewAt(from);
      BlessTended(View(), to.id, m.ty);
      Bless(to, m.ty);
      BlessTended(View(), from.id, m.ty);
      Bless(from, m.ty);
      done := ExecAssign(to, from, m.exec, error);
    }

    /** One turn of the loop in `y_assign`, and whether the loop goes on. */
    method AssignTurnOf(to: Object, from: Object, assign: seq<Method<AssignExec>>, i: nat, error: ErrorSlot?)
      returns (ok: bool)
      requires Valid() && Tended(View()) && Has(to) && Has(from) && (error != null ==> HasAny(error.error))
      requires i < |assign| && assign[i].ty in types
      modifies this, objects.Values, pools, pools.buffer, At(error)
      ensures Valid() && Tended(View()) && Grew() && types == old(types) && (error != null ==> HasAny(error.error))
      ensures AssignFrom(old(View()), to.id, from.id, assign, i, old(LocationOf(error)))
              == if ok then AssignFrom(View(), to.id, from.id, assign, i + 1, LocationOf(error))
                 else (View(), false, LocationOf(error))
    {
      hide Runtime.Valid, Runtime.View, Sound, PoolsSound, Tended, AssignFrom, Heaps.ExecAssign, Heaps.Bless;
      ViewAt(to);
      ViewAt(from);
      AssignTurn(View(), to.id, from.id, assign, i, LocationOf(error));
      ok := AssignStep(to, from, assign[i], error);
      if error != null && error.error != null {
        ok := false;
      }
    }

    /** The loop in `y_assign`; false when an assign method refused or left an error. */
    method RunAssigns(to: Object, from: Object, assign: seq<Method<AssignExec>>, error: ErrorSlot?) returns (ok: bool)
      requires Valid() && Tended(View()) && Has(to) && Has(from) && (error != null ==> HasAny(error.error))
      requires forall m :: m in assign ==> m.ty in types
      modifies this, objects.Values, pools, pools.buffer, At(error)
      ensures Valid() && Tended(View()) && Grew() && types == old(types) && (error != null ==> HasAny(error.error))
      ensures (View(), ok, LocationOf(error)) == AssignFrom(old(View()), to.id, from.id, assign, 0,
                                                            old(LocationOf(error)))
    {
      hide Runtime.Valid, Runtime.View, Sound, PoolsSound, Tended, AssignFrom, Heaps.ExecAssign, Heaps.Bless;
      ghost var h, err := View(), LocationOf(error);
      ok := true;
      var i := 0;
      while i < |assign| && ok
        invariant 0 <= i <= |assign|
        invariant Valid() && Tended(View()) && Grew() && types == old(types) && Has(to) && Has(from)
        invariant error != null ==> HasAny(error.error)
        invariant AssignFrom(h, to.id, from.id, assign, 0, err)
                  == if ok then AssignFrom(View(), to.id, from.id, assign, i, LocationOf(error))
                     else (View(), false, LocationOf(error))
        decreases |assign| - i, ok
      {
        ok := AssignTurnOf(to, from, assign, i, error);
        if ok {
          i := i + 1;
        }
      }
      ViewAt(to);
      ViewAt(from);
      if ok {
        AssignTurn(View(), to.id, from.id, assign, i, LocationOf(error));
      }
    }

    /** The end of `y_assign`: both objects get their class back. */
    method Restore(to: Object, from: Object, original: TypeId)
      requires Valid() && Tended(View()) && Has(to) && Has(from) && original in types
      modifies to, from
      ensures Valid() && Tended(View())
      ensures to.id in old(View()).objs && from.id in old(View()).objs
      ensures View() == Heaps.Bless(Heaps.Bless(old(View()), to.id, original), from.id, original)
    {
      hide Runtime.Valid, Runtime.View, Sound, PoolsSound, Tended, Heaps.Bless, Positive;
      ViewAt(to);
      BlessTended(View(), to.id, original);
      Bless(to, original);
      ViewAt(from);
      BlessTended(View(), from.id, original);
      Bless(from, original);
    }

    /** `y_assign` */
    method Assign(to: Object?, from: Object?, error: ErrorSlot?) returns (result: Object?)
      requires Valid() && Tended(View()) && HasAny(to) && HasAny(from) && (error != null ==> HasAny(error.error))
      modifies this, objects.Values, pools, pools.buffer, At(error)
      ensures Valid() && Tended(View()) && Grew() && types == old(types) && (error != null ==> HasAny(error.error))
      ensures to == null || from == null ==>
                result == null && View() == old(View()) && LocationOf(error) == old(LocationOf(error))
      ensures to != null && from != null ==>
                && to.id in old(View()).objs && from.id in old(View()).objs && (result == null || result == to)
                && (View(), result != null, LocationOf(error))
                == Heaps.Assign(old(View()), to.id, from.id, old(LocationOf(error)))
    {
      hide Runtime.Valid, Runtime.View, Sound, PoolsSound, Tended, AssignFrom, Heaps.ClearObject, Heaps.Bless, Positive;
      if to == null || from == null {
        return null;
      }
      result := null;
      ViewAt(to);
      ViewAt(from);
      var original := to.ty;
      var assign := types[original].assign;
      if |assign| > 0 && to.ty == from.ty {
        MethodsTyped(original);
        ClearTended(View(), to.id);
        ClearObject(to, true);
        var ok := RunAssigns(to, from, assign, error);
        Restore(to, from, original);
        if ok {
          result := to;
        }
      }
    }

    /** `y_copy` */
    method Copy(o: Object, error: ErrorSlot?) returns (result: Object?)
      requires Valid() && Tended(View()) && Has(o) && (error == null || error.error == null)
      modifies this, objects.Values, pools, pools.buffer, At(error)
      ensures Valid() && Tended(View()) && Grew() && types == old(types) && HasAny(result)
      ensures error != null ==> HasAny(error.error)
      ensures o.id in old(View()).objs
      ensures (View(), IdOf(result), LocationOf(error)) == Heaps.Copy(old(View()), o.id, old(LocationOf(error)))
    {
      hide Runtime.Valid, Runtime.View, Sound, PoolsSound, Tended, Heaps.Create, Heaps.Assign, Heaps.Unref;
      ViewAt(o);
      var to := Create(o.ty, error);
      result := Fill(to, o, error);
    }

    /** The rest of `y_copy`, once the new object is there or has failed to come about. */
    method Fill(to: Object?, o: Object, error: ErrorSlot?) returns (result: Object?)
      requires Valid() && Tended(View()) && Has(o) && HasAny(to) && (error != null ==> HasAny(error.error))
      modifies this, objects.Values, pools, pools.buffer, At(error)
      ensures Valid() && Tended(View()) && Grew() && types == old(types) && HasAny(result)
      ensures error != null ==> HasAny(error.error)
      ensures o.id in old(View()).objs
      ensures (View(), IdOf(result), LocationOf(error))
              == Filled(old(View()), IdOf(to), o.id, old(LocationOf(error)))
    {
      hide Runtime.Valid, Runtime.View, Sound, PoolsSound, Tended, Heaps.Assign, Heaps.Unref;
      if to != null { ViewAt(to); }
      ViewAt(o);
      result := to;
      if error != null && error.error != null {
        result := null;
      } else {
        var done := Assign(to, o, error);
        if done == null || (error != null && error.error != null) {
          result := null;
        }
      }
      if result == null && to != null {
        UnrefTended(View(), to.id);
        Unref(to);
      }
    }
  }
}
