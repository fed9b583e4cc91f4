/** The heap of reference-counted objects, as a value, and what each call of the library makes of it
    (yakka/Object.c, yakka/WeakRef.c, yakka/Error.c, test/ootest/Alpha.c, test/ootest/Delta.c).
    The class in `Yakka.dfy` performs the same calls in place. */
module Heaps {
  import opened Options
  import opened Pools
  import opened Classes

  /** The identity of an object. Identities grow with time and are never used twice. */
  type Ref = nat

  /** The places where an object keeps a counted reference to another. */
  datatype Slot = WeakSlot | CauseSlot | CSlot

  /** The members that refer to no object: an error's `code` and `description`, Alpha's `a`, Delta's
      strings `b` and `d`, and whether Delta's private structure has been allocated. */
  datatype Data = Data(code: int, description: Option<string>,
                       a: int, b: Option<string>, d: Option<string>, priv: bool)

  /** Everything about an object except its reference count and a weak reference's `target`. The
      `teardowns` count how often `y_destroy` or the last-resort callback ran the clear chain. */
  datatype Body = Body(ty: TypeId, pool: Pool, deleted: bool, teardowns: nat,
                       weakRef: Option<Ref>, cause: Option<Ref>, c: Option<Ref>, data: Data)

  datatype Obj = Obj(refcount: nat, target: Option<Ref>, body: Body)

  /** The objects made so far, dead ones included; the next free identity; the finished classes; the
      pool recycler; and, for each pool, the object that its last-resort cleanup would clear. */
  datatype Heap = Heap(objs: map<Ref, Obj>, next: Ref, types: Types, pools: PoolState,
                       cleanups: map<Pool, Ref>)

  /** `y_Error ** error`: NULL, or a location that may hold an error. */
  datatype ErrorLocation = Ignored | Location(error: Option<Ref>)

  // ---------------------------------------------------------------------------------------
  // Reading and writing objects
  // ---------------------------------------------------------------------------------------

  function Get(b: Body, s: Slot): Option<Ref> {
    match s
    case WeakSlot => b.weakRef
    case CauseSlot => b.cause
    case CSlot => b.c
  }

  function Put(b: Body, s: Slot, v: Option<Ref>): (b': Body)
    ensures forall t :: Get(b', t) == if t == s then v else Get(b, t)
    ensures b'.ty == b.ty && b'.pool == b.pool && b'.deleted == b.deleted
    ensures b'.teardowns == b.teardowns && b'.data == b.data
  {
    match s
    case WeakSlot => b.(weakRef := v)
    case CauseSlot => b.(cause := v)
    case CSlot => b.(c := v)
  }

  /** The objects with a positive reference count. */
  function Positive(h: Heap): set<Ref> {
    set r | r in h.objs && h.objs[r].refcount > 0
  }

  function SetCount(h: Heap, r: Ref, n: nat): (h': Heap)
    requires r in h.objs
    ensures h'.objs.Keys == h.objs.Keys
    ensures Positive(h') == if n == 0 then Positive(h) - {r} else Positive(h) + {r}
  {
    h.(objs := h.objs[r := h.objs[r].(refcount := n)])
  }

  function SetBody(h: Heap, r: Ref, b: Body): (h': Heap)
    requires r in h.objs
    ensures h'.objs.Keys == h.objs.Keys && Positive(h') == Positive(h)
  {
    h.(objs := h.objs[r := h.objs[r].(body := b)])
  }

  function SetData(h: Heap, r: Ref, d: Data): (h': Heap)
    requires r in h.objs
    ensures h'.objs.Keys == h.objs.Keys && Positive(h') == Positive(h)
  {
    SetBody(h, r, h.objs[r].body.(data := d))
  }

  function SetSlot(h: Heap, r: Ref, s: Slot, v: Option<Ref>): (h': Heap)
    requires r in h.objs
    ensures h'.objs.Keys == h.objs.Keys && Positive(h') == Positive(h)
  {
    SetBody(h, r, Put(h.objs[r].body, s, v))
  }

  function SetTarget(h: Heap, w: Ref, t: Option<Ref>): (h': Heap)
    requires w in h.objs
    ensures h'.objs.Keys == h.objs.Keys && Positive(h') == Positive(h)
  {
    h.(objs := h.objs[w := h.objs[w].(target := t)])
  }

  /** `y_bless` */
  function Bless(h: Heap, r: Ref, ty: TypeId): (h': Heap)
    requires r in h.objs
    ensures h'.objs.Keys == h.objs.Keys && Positive(h') == Positive(h)
  {
    SetBody(h, r, h.objs[r].body.(ty := ty))
  }

  /** The safe cast of an instance to a class. */
  predicate Casts(h: Heap, r: Ref, ty: TypeId) {
    r in h.objs && IsA(h.types, h.objs[r].body.ty, ty)
  }

  function InitList(h: Heap, ty: TypeId): seq<Method<InitExec>> {
    if ty in h.types then h.types[ty].init else []
  }

  function AssignList(h: Heap, ty: TypeId): seq<Method<AssignExec>> {
    if ty in h.types then h.types[ty].assign else []
  }

  function ClearList(h: Heap, ty: TypeId): seq<Method<ClearExec>> {
    if ty in h.types then h.types[ty].clear else []
  }

  /** Strings are copied when stored, and an empty one is stored as NULL. */
  function Stored(s: Option<string>): Option<string> {
    if s.Some? && |s.value| > 0 then s else None
  }

  /** A string member holds the text given: the same string, or NULL for none or an empty one. */
  predicate SameText(member: Option<string>, given: Option<string>) {
    member == if given == Some("") then None else given
  }

  // ---------------------------------------------------------------------------------------
  // Dropping references: the mutual recursion of y_unref, y_destroy and the clear methods
  // ---------------------------------------------------------------------------------------

  /** `y_ref`: one reference more, and whether it was granted. */
  function AddRef(h: Heap, r: Ref): (h': Heap) {
    if r in h.objs && h.objs[r].refcount > 0 then SetCount(h, r, h.objs[r].refcount + 1) else h
  }

  /** `y_WeakRef_unset` on an object's weak reference, if it has one. */
  function Unset(h: Heap, w: Option<Ref>): (h': Heap)
    ensures h'.objs.Keys == h.objs.Keys && Positive(h') == Positive(h)
  {
    if w.Some? && w.value in h.objs then SetTarget(h, w.value, None) else h
  }

  /** `y_unref` */
  function Unref(h: Heap, r: Ref): (h': Heap)
    ensures h'.objs.Keys == h.objs.Keys && Positive(h') <= Positive(h)
    decreases Positive(h), 0
  {
    if r !in h.objs || h.objs[r].refcount == 0 then h
    else
      var h1 := SetCount(h, r, h.objs[r].refcount - 1);
      if h1.objs[r].refcount > 0 then h1
      else
        var h2 := Unset(h1, h1.objs[r].body.weakRef);
        assert r in Positive(h) && r !in Positive(h2);
        Destroy(h2, r)
  }

  /** Releasing a slot: the object it refers to is unreffed first, then the slot is nulled. */
  function Release(h: Heap, r: Ref, s: Slot): (h': Heap)
    requires r in h.objs
    ensures h'.objs.Keys == h.objs.Keys && Positive(h') <= Positive(h)
    decreases Positive(h), 1
  {
    var v := Get(h.objs[r].body, s);
    if v.None? then h else SetSlot(Unref(h, v.value), r, s, None)
  }

  /** `y_Error_clear`, which releases the cause whatever `unref_objects` says. */
  function ClearError(h: Heap, r: Ref): (h': Heap)
    requires r in h.objs
    ensures h'.objs.Keys == h.objs.Keys && Positive(h') <= Positive(h)
    decreases Positive(h), 2
  {
    if !Casts(h, r, ErrorT) then h
    else Release(SetData(h, r, h.objs[r].body.data.(code := 0, description := None)), r, CauseSlot)
  }

  /** `Alpha_clear` */
  function ClearAlpha(h: Heap, r: Ref): (h': Heap)
    requires r in h.objs
    ensures h'.objs.Keys == h.objs.Keys && Positive(h') == Positive(h)
  {
    if !Casts(h, r, AlphaT) then h else SetData(h, r, h.objs[r].body.data.(a := 0))
  }

  /** `Delta_clear` */
  function ClearDelta(h: Heap, r: Ref, unrefObjects: bool): (h': Heap)
    requires r in h.objs
    ensures h'.objs.Keys == h.objs.Keys && Positive(h') <= Positive(h)
    decreases Positive(h), 2
  {
    if !Casts(h, r, DeltaT) then h
    else
      var h1 := SetData(h, r, h.objs[r].body.data.(b := None));
      var h2 := if unrefObjects then Release(h1, r, CSlot) else h1;
      SetData(h2, r, h2.objs[r].body.data.(d := None))
  }

  /** Running one clear method. */
  function ExecClear(h: Heap, r: Ref, exec: ClearExec, unrefObjects: bool): (h': Heap)
    requires r in h.objs
    ensures h'.objs.Keys == h.objs.Keys && Positive(h') <= Positive(h)
    decreases Positive(h), 3
  {
    match exec
    case ObjectClear => if unrefObjects then Release(h, r, WeakSlot) else h
    case ErrorClear => ClearError(h, r)
    case AlphaClear => ClearAlpha(h, r)
    case DeltaClear => ClearDelta(h, r, unrefObjects)
    case UserClear => h
  }

  /** The last `i` turns of the loop in `y_clear_object`: entries `i - 1` down to 0, each run with the
      object blessed to the class that defined it. */
  function ClearFrom(h: Heap, r: Ref, chain: seq<Method<ClearExec>>, i: nat, unrefObjects: bool): (h': Heap)
    requires r in h.objs && i <= |chain|
    ensures h'.objs.Keys == h.objs.Keys && Positive(h') <= Positive(h)
    decreases Positive(h), 4, i
  {
    if i == 0 then h
    else
      var h1 := ExecClear(Bless(h, r, chain[i - 1].ty), r, chain[i - 1].exec, unrefObjects);
      ClearFrom(h1, r, chain, i - 1, unrefObjects)
  }

  /** `y_clear_object` */
  function ClearObject(h: Heap, r: Ref, unrefObjects: bool): (h': Heap)
    requires r in h.objs
    ensures h'.objs.Keys == h.objs.Keys && Positive(h') <= Positive(h)
    decreases Positive(h), 5
  {
    var ty := h.objs[r].body.ty;
    var chain := ClearList(h, ty);
    if chain == [] then h else Bless(ClearFrom(h, r, chain, |chain|, unrefObjects), r, ty)
  }

  /** Clearing an object for good: the clear chain, and then the mark that it is deleted. */
  function TearDown(h: Heap, r: Ref, unrefObjects: bool): (h': Heap)
    requires r in h.objs
    ensures h'.objs.Keys == h.objs.Keys && Positive(h') <= Positive(h)
    decreases Positive(h), 6
  {
    var h1 := ClearObject(h, r, unrefObjects);
    var b := h1.objs[r].body;
    SetBody(h1, r, b.(deleted := true, teardowns := b.teardowns + 1))
  }

  /** `y_cleanup_of_last_resort`, when clearing pool `p` fires it. */
  function LastResort(h: Heap, p: Pool): (h': Heap)
    ensures h'.objs.Keys == h.objs.Keys && Positive(h') <= Positive(h)
    decreases Positive(h), 7
  {
    if p !in h.cleanups then h
    else
      var r := h.cleanups[p];
      var h1 := h.(cleanups := h.cleanups - {p});
      assert Positive(h1) == Positive(h);
      if r in h1.objs && !h1.objs[r].body.deleted then TearDown(h1, r, false) else h1
  }

  /** `y_Runtime_free_object_pool`: clearing the pool runs its cleanups, then it is recycled. */
  function FreePool(h: Heap, p: Pool): (h': Heap)
    ensures h'.objs.Keys == h.objs.Keys && Positive(h') <= Positive(h)
    decreases Positive(h), 8
  {
    var h1 := LastResort(h, p);
    h1.(pools := Recycle(h1.pools, p))
  }

  /** `y_destroy` */
  function Destroy(h: Heap, r: Ref): (h': Heap)
    ensures h'.objs.Keys == h.objs.Keys && Positive(h') <= Positive(h)
    decreases Positive(h), 9
  {
    if r !in h.objs || h.objs[r].body.deleted then h
    else
      var h1 := TearDown(h, r, true);
      FreePool(h1, h1.objs[r].body.pool)
  }

  // ---------------------------------------------------------------------------------------
  // Creating objects
  // ---------------------------------------------------------------------------------------

  const NO_DATA := Data(0, None, 0, None, None, false)

  /** An instance as `y_create` makes it: zeroed, with one reference. */
  function Fresh(ty: TypeId, pool: Pool): Obj {
    Obj(1, None, Body(ty, pool, false, 0, None, None, None, NO_DATA))
  }

  /** The new instance before any init method has run. */
  function Allocate(h: Heap, ty: TypeId): Heap {
    h.(objs := h.objs[h.next := Fresh(ty, NextPool(h.pools))], next := h.next + 1, pools := Draw(h.pools))
  }

  /** The failure path of `y_create`: only the pool is given back. */
  function Discard(h: Heap, r: Ref): Heap
    requires r in h.objs
  {
    var h1 := FreePool(h, h.objs[r].body.pool);
    h1.(objs := h1.objs - {r})
  }

  function Weight(err: ErrorLocation): nat {
    if err.Ignored? then 0 else 1
  }

  /** `y_create`, on an error location that holds no error. */
  function Create(h: Heap, ty: TypeId, err: ErrorLocation): (result: (Heap, Option<Ref>, ErrorLocation))
    ensures result.2.Ignored? == err.Ignored?
    decreases Weight(err), 3, 0
  {
    var r := h.next;
    var (h1, ok, err1) := InitFrom(Allocate(h, ty), r, InitList(h, ty), 0, err);
    if r !in h1.objs then (h1, None, err1)
    else if !ok then (Discard(h1, r), None, err1)
    else
      var h2 := Bless(h1, r, ty);
      (h2.(cleanups := h2.cleanups[h2.objs[r].body.pool := r]), Some(r), err1)
  }

  /** The init methods from entry `i` on; false when one of them left an error. */
  function InitFrom(h: Heap, r: Ref, list: seq<Method<InitExec>>, i: nat, err: ErrorLocation)
    : (result: (Heap, bool, ErrorLocation))
    requires i <= |list|
    ensures result.2.Ignored? == err.Ignored?
    decreases Weight(err), 2, |list| - i
  {
    if i == |list| || r !in h.objs then (h, true, err)
    else
      var (h1, err1) := ExecInit(Bless(h, r, list[i].ty), r, list[i].exec, err);
      if err1.Location? && err1.error.Some? then (h1, false, err1)
      else InitFrom(h1, r, list, i + 1, err1)
  }

  function ExecInit(h: Heap, r: Ref, exec: InitExec, err: ErrorLocation): (result: (Heap, ErrorLocation))
    requires r in h.objs
    ensures result.1.Ignored? == err.Ignored?
    decreases Weight(err), 1, 0
  {
    match exec
    case DeltaInit =>
      (if Casts(h, r, DeltaT) then SetData(h, r, h.objs[r].body.data.(priv := true)) else h, err)
    case UserInit => (h, err)
    case ThrowingInit(code) => Throw(h, err, code, None)
  }

  /** `y_Error_throw`: the new error takes over the reference to the one it replaces. */
  function Throw(h: Heap, err: ErrorLocation, code: int, description: Option<string>)
    : (result: (Heap, ErrorLocation))
    ensures result.1.Ignored? == err.Ignored?
    decreases Weight(err), 0, 0
  {
    if err.Ignored? then (h, err)
    else
      var (h1, e, _) := Create(h, ErrorT, Ignored);
      if e.None? || e.value !in h1.objs then (h1, err)
      else
        var h2 := SetData(h1, e.value, h1.objs[e.value].body.data.(code := code, description := description));
        (SetSlot(h2, e.value, CauseSlot, err.error), Location(e))
  }

  /** `y_weak_ref`: the object's weak reference, made on first use, with one reference more. */
  function WeakRefTo(h: Heap, r: Ref): (result: (Heap, Option<Ref>))
    requires r in h.objs
  {
    var h1 := if h.objs[r].body.weakRef.Some? then h else AttachWeakRef(h, r);
    var w := if r in h1.objs then h1.objs[r].body.weakRef else None;
    if w.None? then (h1, None) else (AddRef(h1, w.value), if Granted(h1, w.value) then w else None)
  }

  /** Whether `y_ref` returns the object. */
  predicate Granted(h: Heap, r: Ref) {
    r in h.objs && h.objs[r].refcount > 0
  }

  /** `y_WeakRef_new`, with its result stored in the referent and any error dropped. */
  function AttachWeakRef(h: Heap, r: Ref): Heap
    requires r in h.objs
  {
    var (h1, w, err) := Create(h, WeakRefT, Location(None));
    var h2 := if w.Some? && w.value in h1.objs then SetTarget(h1, w.value, Some(r)) else h1;
    var h3 := if r in h2.objs then SetSlot(h2, r, WeakSlot, w) else h2;
    if err.Location? && err.error.Some? then Unref(h3, err.error.value) else h3
  }

  /** `y_WeakRef_deref`: a new reference to the referent, if it is still there. */
  function Deref(h: Heap, w: Ref): (result: (Heap, Option<Ref>))
    requires w in h.objs
  {
    var t := h.objs[w].target;
    if t.None? then (h, None) else (AddRef(h, t.value), if Granted(h, t.value) then t else None)
  }

  // ---------------------------------------------------------------------------------------
  // Members, assignment and copying
  // ---------------------------------------------------------------------------------------

  /** `Delta_set_b` */
  function SetB(h: Heap, r: Ref, b: Option<string>): (h': Heap)
    requires r in h.objs
    ensures h'.objs.Keys == h.objs.Keys
  {
    SetData(h, r, h.objs[r].body.data.(b := Stored(b)))
  }

  /** `Delta_set_d` */
  function SetD(h: Heap, r: Ref, d: Option<string>): (h': Heap)
    requires r in h.objs
    ensures h'.objs.Keys == h.objs.Keys
  {
    SetData(h, r, h.objs[r].body.data.(d := Stored(d)))
  }

  /** `Delta_set_c`: the old object is unreffed before the new one is reffed. */
  function SetC(h: Heap, r: Ref, c: Option<Ref>): (h': Heap)
    requires r in h.objs
    ensures h'.objs.Keys == h.objs.Keys
  {
    var was := h.objs[r].body.c;
    var h1 := if was.Some? then Unref(h, was.value) else h;
    var kept := if c.Some? && Granted(h1, c.value) then c else None;
    SetSlot(if c.Some? then AddRef(h1, c.value) else h1, r, CSlot, kept)
  }

  /** Running one assign method: the heap, whether it returned non-null, and the error location. */
  function ExecAssign(h: Heap, to: Ref, from: Ref, exec: AssignExec, err: ErrorLocation)
    : (result: (Heap, bool, ErrorLocation))
    requires to in h.objs && from in h.objs
    ensures result.2.Ignored? == err.Ignored?
  {
    match exec
    case AlphaAssign =>
      (if Casts(h, to, AlphaT) && Casts(h, from, AlphaT)
       then SetData(h, to, h.objs[to].body.data.(a := h.objs[from].body.data.a)) else h, true, err)
    case DeltaAssign =>
      if Casts(h, to, DeltaT) && Casts(h, from, DeltaT)
      then (AssignDelta(h, to, from), true, err)
      else (h, Casts(h, to, DeltaT), err)
    case UserAssign => (h, true, err)
    case RefusingAssign => (h, false, err)
    case ThrowingAssign(code) =>
      var (h1, err1) := Throw(h, err, code, None);
      (h1, true, err1)
  }

  /** `Delta_assign` on two Deltas. */
  function AssignDelta(h: Heap, to: Ref, from: Ref): (h': Heap)
    requires to in h.objs && from in h.objs
    ensures h'.objs.Keys == h.objs.Keys
  {
    var h1 := SetB(h, to, h.objs[from].body.data.b);
    var h2 := SetC(h1, to, h1.objs[from].body.c);
    SetD(h2, to, h2.objs[from].body.data.d)
  }

  /** The assign methods from entry `i` on, each run with both objects blessed to the class that
      defined it; false when one of them refused or left an error. */
  function AssignFrom(h: Heap, to: Ref, from: Ref, list: seq<Method<AssignExec>>, i: nat, err: ErrorLocation)
    : (result: (Heap, bool, ErrorLocation))
    requires i <= |list|
    ensures result.2.Ignored? == err.Ignored?
    decreases |list| - i
  {
    if i == |list| || to !in h.objs || from !in h.objs then (h, true, err)
    else
      var h1 := Bless(Bless(h, to, list[i].ty), from, list[i].ty);
      var (h2, ok, err1) := ExecAssign(h1, to, from, list[i].exec, err);
      if !ok || (err1.Location? && err1.error.Some?) then (h2, false, err1)
      else AssignFrom(h2, to, from, list, i + 1, err1)
  }

  /** `y_assign` on two objects: the heap, whether it returned `to`, and the error location. */
  function Assign(h: Heap, to: Ref, from: Ref, err: ErrorLocation): (result: (Heap, bool, ErrorLocation))
    requires to in h.objs && from in h.objs
    ensures result.2.Ignored? == err.Ignored?
  {
    var ty := h.objs[to].body.ty;
    var list := AssignList(h, ty);
    if list == [] || h.objs[from].body.ty != ty then (h, false, err)
    else
      var (h1, ok, err1) := AssignFrom(ClearObject(h, to, true), to, from, list, 0, err);
      var h2 := if to in h1.objs then Bless(h1, to, ty) else h1;
      (if from in h2.objs then Bless(h2, from, ty) else h2, ok, err1)
  }

  /** `y_copy`: the heap, the copy if there is one, and the error location. */
  function Copy(h: Heap, from: Ref, err: ErrorLocation): (result: (Heap, Option<Ref>, ErrorLocation))
    requires from in h.objs
    ensures result.2.Ignored? == err.Ignored?
  {
    var (h1, to, err1) := Create(h, h.objs[from].body.ty, err);
    if err1.Location? && err1.error.Some? then (if to.Some? then Unref(h1, to.value) else h1, None, err1)
    else if to.None? || to.value !in h1.objs || from !in h1.objs then (h1, None, err1)
    else
      var (h2, ok, err2) := Assign(h1, to.value, from, err1);
      if !ok || (err2.Location? && err2.error.Some?) then (Unref(h2, to.value), None, err2)
      else (h2, to, err2)
  }
}
