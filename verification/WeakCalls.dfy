/** Weak references agree with their referents across every call of the library. */
module WeakCalls {
  import opened Options
  import opened Pools
  import opened Classes
  import opened Heaps
  import opened Cascade
  import opened Counts
  import opened Accounts
  import opened Calls
  import opened WeakRefs

  lemma SanePools(h: Heap, held: multiset<Ref>, busy: set<Ref>)
    requires Sane(h, held, busy)
    ensures PoolsSound(h) && Young(h)
  {}

  lemma RefAgreed(h: Heap, r: Ref, lost: set<Ref>)
    requires AgreedBut(h, lost)
    ensures AgreedBut(AddRef(h, r), lost)
  {}

  lemma UnrefCallAgreed(h: Heap, r: Ref, lost: set<Ref>)
    requires AgreedBut(h, lost) && PoolsSound(h)
    ensures AgreedBut(Unref(h, r), lost)
  {
    hide AgreedBut, PoolsSound, Unref;
    UnrefAgreed(h, r, lost);
  }

  /** Writing anything but the weak reference slot. */
  lemma WriteAgreed(h: Heap, r: Ref, b: Body, lost: set<Ref>)
    requires AgreedBut(h, lost) && r in h.objs && b.weakRef == h.objs[r].body.weakRef
    ensures AgreedBut(SetBody(h, r, b), lost)
  {}

  lemma AllocateAgreed(h: Heap, ty: TypeId, lost: set<Ref>)
    requires AgreedBut(h, lost) && Young(h)
    ensures AgreedBut(Allocate(h, ty), lost)
  {}

  lemma CleanupsAgreed(h: Heap, c: map<Pool, Ref>, lost: set<Ref>)
    requires AgreedBut(h, lost)
    ensures AgreedBut(h.(cleanups := c), lost)
  {}

  lemma {:induction false} CreatePlainAgreed(h: Heap, ty: TypeId, err: ErrorLocation, lost: set<Ref>)
    requires AgreedBut(h, lost) && Young(h) && InitList(h, ty) == []
    ensures AgreedBut(Create(h, ty, err).0, lost)
  {
    hide AgreedBut, Allocate;
    CreatePlain(h, ty, err);
    AllocateAgreed(h, ty, lost);
    var h1 := Allocate(h, ty);
    CleanupsAgreed(h1, h1.cleanups[NextPool(h.pools) := h.next], lost);
  }

  lemma ThrowAgreed(h: Heap, err: ErrorLocation, code: int, description: Option<string>, lost: set<Ref>)
    requires AgreedBut(h, lost) && Young(h) && InitList(h, ErrorT) == []
    ensures AgreedBut(Throw(h, err, code, description).0, lost)
  {
    hide AgreedBut, Create;
    if err.Location? {
      CreatePlainAgreed(h, ErrorT, Ignored, lost);
      ThrowShape(h, err, code, description);
      var h1 := Create(h, ErrorT, Ignored).0;
      var h2 := NewError(h, code, description);
      if h.next in h1.objs {
        WriteAgreed(h1, h.next, h2.objs[h.next].body, lost);
      }
      WriteAgreed(h2, h.next, Put(h2.objs[h.next].body, CauseSlot, err.error), lost);
    }
  }

  /** Storing a new weak reference. */
  lemma AttachAgreed(h: Heap, r: Ref, lost: set<Ref>)
    requires AgreedBut(h, lost) && Young(h) && InitList(h, WeakRefT) == []
    requires Held(h, r) && h.objs[r].body.weakRef == None
    ensures AgreedBut(AttachWeakRef(h, r), lost)
  {
    hide AttachWeakRef, Create, AgreedBut;
    CreatePlain(h, WeakRefT, Location(None));
    AttachShape(h, r);
    AllocateAgreed(h, WeakRefT, lost);
    AttachedAgreed(h, r, Allocate(h, WeakRefT), AttachWeakRef(h, r), lost);
  }

  lemma {:induction false} AttachedAgreed(h: Heap, r: Ref, h1: Heap, h': Heap, lost: set<Ref>)
    requires AgreedBut(h1, lost) && h1 == Allocate(h, WeakRefT) && Young(h) && Held(h, r)
    requires h.objs[r].body.weakRef == None
    requires h'.objs == h1.objs[h.next := h1.objs[h.next].(target := Some(r))]
                               [r := h1.objs[r].(body := Put(h1.objs[r].body, WeakSlot, Some(h.next)))]
    ensures AgreedBut(h', lost)
  {
    assert forall x :: Held(h', x) <==> Held(h1, x);
    assert Put(h1.objs[r].body, WeakSlot, Some(h.next)) == h1.objs[r].body.(weakRef := Some(h.next));
  }

  /** `y_weak_ref` */
  lemma WeakRefAgreed(h: Heap, r: Ref, held: multiset<Ref>, lost: set<Ref>)
    requires Sane(h, held, {}) && AgreedBut(h, lost) && r in held && r in h.objs
    ensures AgreedBut(WeakRefTo(h, r).0, lost)
  {
    hide Sane, AgreedBut, AttachWeakRef;
    SanePools(h, held, {});
    SanePlain(h, held, {});
    HeldIsGranted(h, r, held, {});
    if h.objs[r].body.weakRef == None {
      AttachAgreed(h, r, lost);
    }
    var h1 := if h.objs[r].body.weakRef.Some? then h else AttachWeakRef(h, r);
    if r in h1.objs && h1.objs[r].body.weakRef.Some? {
      RefAgreed(h1, h1.objs[r].body.weakRef.value, lost);
    }
  }

  lemma DerefAgreed(h: Heap, w: Ref, lost: set<Ref>)
    requires AgreedBut(h, lost) && w in h.objs
    ensures AgreedBut(Deref(h, w).0, lost)
  {
    hide AgreedBut, AddRef;
    if h.objs[w].target.Some? { RefAgreed(h, h.objs[w].target.value, lost); }
  }

  /** `y_WeakRef_deref` gives a reference exactly when the weak reference is still set, and then it is
      to a live object whose weak reference this is. */
  lemma DerefFinds(h: Heap, w: Ref, held: multiset<Ref>, lost: set<Ref>)
    requires Sane(h, held, {}) && AgreedBut(h, lost) && w in held && w !in lost
    ensures w in h.objs
    ensures var (h', r) := Deref(h, w);
            && r == h.objs[w].target && AgreedBut(h', lost)
            && (r.Some? ==> Alive(h, r.value) && h.objs[r.value].body.weakRef == Some(w)
                            && h'.objs[r.value].refcount == h.objs[r.value].refcount + 1)
            && (r.None? ==> h' == h)
  {
    hide Sane;
    HeldIsGranted(h, w, held, {});
    var t := h.objs[w].target;
    if t.Some? {
      assert Held(h, w) && Held(h, t.value);
      SettledAt(h, t.value, held, {});
      RefAgreed(h, t.value, lost);
    }
  }

  /** `Delta_set_c` */
  lemma SetCAgreed(h: Heap, r: Ref, c: Option<Ref>, lost: set<Ref>)
    requires AgreedBut(h, lost) && PoolsSound(h) && r in h.objs
    ensures AgreedBut(SetC(h, r, c), lost)
  {
    hide AgreedBut, PoolsSound, Unref, AddRef;
    var was := h.objs[r].body.c;
    var h1 := if was.Some? then Unref(h, was.value) else h;
    if was.Some? {
      UnrefCallAgreed(h, was.value, lost);
    }
    var h2 := if c.Some? then AddRef(h1, c.value) else h1;
    if c.Some? {
      RefAgreed(h1, c.value, lost);
    }
    var kept := if c.Some? && Granted(h1, c.value) then c else None;
    assert r in h2.objs by { RefKeys(h1, c); }
    WriteAgreed(h2, r, Put(h2.objs[r].body, CSlot, kept), lost);
  }

  lemma RefKeys(h: Heap, c: Option<Ref>)
    ensures c.Some? ==> AddRef(h, c.value).objs.Keys == h.objs.Keys
  {}

  // ---------------------------------------------------------------------------------------
  // Clearing
  // ---------------------------------------------------------------------------------------

  lemma AgreedMore(h: Heap, lost: set<Ref>, more: set<Ref>)
    requires AgreedBut(h, lost) && lost <= more
    ensures AgreedBut(h, more)
  {}

  /** The weak reference that an object's slot points at, if there is one. */
  function WeakOf(h: Heap, r: Ref): set<Ref> {
    if r in h.objs && h.objs[r].body.weakRef.Some? then {h.objs[r].body.weakRef.value} else {}
  }

  /** The heap after clearing `r`: at most its weak reference is lost, and it is still set. */
  lemma ClearLosing(h: Heap, r: Ref, held: multiset<Ref>, lost: set<Ref>)
    requires Sane(h, held, {}) && AgreedBut(h, lost) && r in held
    ensures r in h.objs
    ensures var h' := ClearObject(h, r, true);
            && AgreedBut(h', lost + WeakOf(h, r)) && Kept(h, h') && Frame(h, h', {r})
            && Sane(h', held, {}) && Held(h', r) && h'.objs[r].body.weakRef == None
  {
    hide Sane, AgreedBut, Kept, Frame, ClearObject, PoolsSound;
    SanePools(h, held, {});
    HeldIsGranted(h, r, held, {});
    AgreedMore(h, lost, lost + WeakOf(h, r));
    ClearObjectAgreed(h, r, true, lost + WeakOf(h, r));
    ClearObjectFrame(h, r, true);
    ClearSane(h, r, held);
    var h' := ClearObject(h, r, true);
    HeldIsGranted(h', r, held, {});
    assert Get(h'.objs[r].body, WeakSlot) == None;
  }

  /** Everything agrees but that `w` is set to `to`, which does not know it. */
  ghost predicate Stranded(h: Heap, to: Ref, w: Ref) {
    && AgreedBut(h, {w})
    && w in h.objs && h.objs[w].target == Some(to)
    && to in h.objs && h.objs[to].body.weakRef == None
  }

  /** Clearing an object leaves its weak reference stranded, dead or not. */
  lemma ClearStrands(h: Heap, r: Ref, w: Ref, held: multiset<Ref>)
    requires Sane(h, held, {}) && Agreed(h) && r in held && r in h.objs && h.objs[r].body.weakRef == Some(w)
    ensures Stranded(ClearObject(h, r, true), r, w)
  {
    hide Sane, ClearObject;
    HeldIsGranted(h, r, held, {});
    ClearLosing(h, r, held, {});
    assert {} + WeakOf(h, r) == {w};
    assert Held(h, r);
  }

  /** A heap with a stranded weak reference agrees exactly if nobody holds it. */
  lemma StrandedAgreed(h: Heap, to: Ref, w: Ref)
    requires Stranded(h, to, w)
    ensures Agreed(h) <==> !Held(h, w)
  {}

  /** Agreement survives clearing an object exactly when its weak reference does not. */
  lemma ClearAgreedIff(h: Heap, r: Ref, w: Ref, held: multiset<Ref>)
    requires Sane(h, held, {}) && Agreed(h) && r in held
    requires r in h.objs && h.objs[r].body.weakRef == Some(w)
    ensures Agreed(ClearObject(h, r, true)) <==> !Held(ClearObject(h, r, true), w)
  {
    hide Sane, ClearObject, Stranded, Agreed;
    ClearStrands(h, r, w, held);
    StrandedAgreed(ClearObject(h, r, true), r, w);
  }

  lemma OwnersFade(h: Heap, h': Heap, r: Ref, w: Ref)
    requires Frame(h, h', {r}) && r in h.objs && h'.objs[r].body.weakRef == None
    requires Owners(h, w, {}) == {Edge(r, WeakSlot)}
    ensures Owners(h', w, {}) == {}
  {
    assert Edge(r, WeakSlot) !in Owners(h', w, {});
    assert Owners(h', w, {}) <= Owners(h, w, {}) by {
      forall e | e in Owners(h', w, {})
        ensures e in Owners(h, w, {})
      {
        assert Fades(h.objs[e.holder], h'.objs[e.holder]);
      }
    }
  }

  /** The object has no weak reference, or is alone in referring to it. */
  predicate Sheds(h: Heap, r: Ref) {
    r in h.objs
    && (h.objs[r].body.weakRef.Some? ==>
          h.objs[r].body.weakRef.value in h.objs && h.objs[h.objs[r].body.weakRef.value].refcount == 1)
  }

  /** A count of one is the share of the slot itself. */
  lemma OnlyOwner(h: Heap, r: Ref, w: Ref, held: multiset<Ref>)
    requires Counted(h, held, {}) && r in h.objs && h.objs[r].body.weakRef == Some(w)
    requires w in h.objs && h.objs[w].refcount == 1
    ensures Owners(h, w, {}) == {Edge(r, WeakSlot)} && w !in held
  {
    EdgesThere(h);
    var owners := Owners(h, w, {});
    assert Edge(r, WeakSlot) in owners;
    assert |owners - {Edge(r, WeakSlot)}| == |owners| - 1;
  }

  /** Nobody else refers to the weak reference: it goes with the slot. */
  lemma ShedGoes(h: Heap, r: Ref, w: Ref, held: multiset<Ref>)
    requires Sane(h, held, {}) && Agreed(h) && r in held && r in h.objs && h.objs[r].body.weakRef == Some(w)
    requires Owners(h, w, {}) == {Edge(r, WeakSlot)} && w !in held
    ensures !Held(ClearObject(h, r, true), w)
  {
    hide ClearObject, Balanced, Frame, PoolsSound, Sound, Kept, AgreedBut;
    ClearLosing(h, r, held, {});
    var h' := ClearObject(h, r, true);
    OwnersFade(h, h', r, w);
    BalancedParts(h', held, {}, {});
    FrameParts(h, h', {r});
    if w in h'.objs {
      assert h'.objs[w].refcount == held[w] + |Owners(h', w, {})|;
    }
  }

  /** `y_clear` on an object that is alone in referring to its weak reference, if it has one. */
  lemma ClearAgreed(h: Heap, r: Ref, held: multiset<Ref>)
    requires Sane(h, held, {}) && Agreed(h) && r in held && Sheds(h, r)
    ensures Agreed(ClearObject(h, r, true))
  {
    hide AgreedBut, PoolsSound, ClearObject, Sane;
    SanePools(h, held, {});
    if h.objs[r].body.weakRef.Some? {
      var w := h.objs[r].body.weakRef.value;
      SaneParts(h, held, {});
      BalancedParts(h, held, {}, {});
      OnlyOwner(h, r, w, held);
      ShedGoes(h, r, w, held);
      ClearAgreedIff(h, r, w, held);
    } else {
      ClearObjectAgreed(h, r, true, {});
    }
  }

  lemma AssignDeltaAgreed(h: Heap, to: Ref, from: Ref, lost: set<Ref>)
    requires AgreedBut(h, lost) && PoolsSound(h) && to in h.objs && from in h.objs
    ensures AgreedBut(AssignDelta(h, to, from), lost)
  {
    hide AgreedBut, PoolsSound, SetC;
    var h1 := SetB(h, to, h.objs[from].body.data.b);
    WriteAgreed(h, to, h1.objs[to].body, lost);
    PoolsSoundKept(h, h1);
    var h2 := SetC(h1, to, h1.objs[from].body.c);
    SetCAgreed(h1, to, h1.objs[from].body.c, lost);
    WriteAgreed(h2, to, AssignDelta(h, to, from).objs[to].body, lost);
  }

  lemma ExecAssignAgreed(h: Heap, to: Ref, from: Ref, exec: AssignExec, err: ErrorLocation, lost: set<Ref>)
    requires AgreedBut(h, lost) && PoolsSound(h) && Young(h) && InitList(h, ErrorT) == []
    requires to in h.objs && from in h.objs
    ensures AgreedBut(ExecAssign(h, to, from, exec, err).0, lost)
  {
    hide AgreedBut, PoolsSound, AssignDelta, Throw;
    match exec
    case AlphaAssign =>
      WriteAgreed(h, to, h.objs[to].body.(data := h.objs[to].body.data.(a := h.objs[from].body.data.a)), lost);
    case DeltaAssign => AssignDeltaAgreed(h, to, from, lost);
    case UserAssign =>
    case RefusingAssign =>
    case ThrowingAssign(code) => ThrowAgreed(h, err, code, None, lost);
  }

  lemma BlessAgreed(h: Heap, r: Ref, ty: TypeId, lost: set<Ref>)
    requires AgreedBut(h, lost) && r in h.objs
    ensures AgreedBut(Bless(h, r, ty), lost)
  {}

  lemma {:induction false} AssignFromAgreed(h: Heap, to: Ref, from: Ref, list: seq<Method<AssignExec>>, i: nat,
                                            err: ErrorLocation, held: multiset<Ref>, lost: set<Ref>)
    requires i <= |list| && Sane(h, held + Stowed(err), {to, from}) && Pair(h, to, from, held)
    requires AgreedBut(h, lost)
    ensures AgreedBut(AssignFrom(h, to, from, list, i, err).0, lost)
    decreases |list| - i
  {
    hide Sane, AgreedBut, ExecAssign;
    if i < |list| {
      var ty := list[i].ty;
      var h1 := Bless(Bless(h, to, ty), from, ty);
      BlessSane(h, to, ty, held + Stowed(err), {to, from});
      BlessSane(Bless(h, to, ty), from, ty, held + Stowed(err), {to, from});
      BlessAgreed(h, to, ty, lost);
      BlessAgreed(Bless(h, to, ty), from, ty, lost);
      SanePools(h1, held + Stowed(err), {to, from});
      SanePlain(h1, held + Stowed(err), {to, from});
      ExecAssignSane(h1, to, from, list[i].exec, err, held);
      ExecAssignAgreed(h1, to, from, list[i].exec, err, lost);
      var (h2, ok, err1) := ExecAssign(h1, to, from, list[i].exec, err);
      if ok && !(err1.Location? && err1.error.Some?) {
        AssignFromAgreed(h2, to, from, list, i + 1, err1, held, lost);
      }
    }
  }

  /** `y_assign` gets as far as clearing the object assigned to. */
  predicate Reassigns(h: Heap, to: Ref, from: Ref) {
    && to in h.objs && from in h.objs
    && AssignList(h, h.objs[to].body.ty) != [] && h.objs[from].body.ty == h.objs[to].body.ty
  }

  /** The assign methods, and both objects getting their class back, lose no weak reference. */
  lemma AssignAfterClear(h: Heap, to: Ref, from: Ref, err: ErrorLocation, held: multiset<Ref>, lost: set<Ref>)
    requires Sane(h, held + Stowed(err), {}) && Pair(h, to, from, held) && Reassigns(h, to, from)
    requires AgreedBut(ClearObject(h, to, true), lost)
    ensures AgreedBut(Assign(h, to, from, err).0, lost)
  {
    hide Sane, AgreedBut, ClearObject, AssignFrom;
    var ty := h.objs[to].body.ty;
    var list := AssignList(h, ty);
    HeldAlso(h, to, from, held, err);
    AssignStarts(h, to, from, held + Stowed(err));
    var h1 := ClearObject(h, to, true);
    AssignFromAgreed(h1, to, from, list, 0, err, held, lost);
    AssignFromSane(h1, to, from, list, 0, err, held);
    var (h2, ok, err1) := AssignFrom(h1, to, from, list, 0, err);
    BlessAgreed(h2, to, ty, lost);
    BlessAgreed(Bless(h2, to, ty), from, ty, lost);
  }

  /** `y_assign`: at most the weak reference of the object assigned to is lost. */
  lemma AssignLosing(h: Heap, to: Ref, from: Ref, err: ErrorLocation, held: multiset<Ref>, lost: set<Ref>)
    requires Sane(h, held + Stowed(err), {}) && Pair(h, to, from, held) && AgreedBut(h, lost)
    ensures AgreedBut(Assign(h, to, from, err).0, lost + if Reassigns(h, to, from) then WeakOf(h, to) else {})
  {
    hide Sane, AgreedBut, ClearObject, AssignFrom;
    if Reassigns(h, to, from) {
      HeldAlso(h, to, from, held, err);
      ClearLosing(h, to, held + Stowed(err), lost);
      AssignAfterClear(h, to, from, err, held, lost + WeakOf(h, to));
    } else {
      assert lost + {} == lost;
    }
  }

  /** `y_assign` leaves the object assigned to without a weak reference. */
  lemma AssignNulls(h: Heap, to: Ref, from: Ref, err: ErrorLocation, held: multiset<Ref>)
    requires Sane(h, held + Stowed(err), {}) && Pair(h, to, from, held) && Reassigns(h, to, from)
    ensures to in Assign(h, to, from, err).0.objs && Assign(h, to, from, err).0.objs[to].body.weakRef == None
  {
    hide Sane, ClearObject, AssignFrom, Covered;
    HeldAlso(h, to, from, held, err);
    AssignStarts(h, to, from, held + Stowed(err));
    var h1 := ClearObject(h, to, true);
    assert Get(h1.objs[to].body, WeakSlot) == None;
    AssignFromSane(h1, to, from, AssignList(h, h.objs[to].body.ty), 0, err, held);
  }

  /** `y_assign`, which clears the object assigned to, unless the classes forbid assignment. */
  lemma AssignAgreed(h: Heap, to: Ref, from: Ref, err: ErrorLocation, held: multiset<Ref>)
    requires Sane(h, held + Stowed(err), {}) && Pair(h, to, from, held)
    requires Agreed(h)
    requires Sheds(h, to) || AssignList(h, h.objs[to].body.ty) == [] || h.objs[from].body.ty != h.objs[to].body.ty
    ensures Agreed(Assign(h, to, from, err).0)
  {
    hide Sane, AgreedBut, ClearObject, AssignFrom;
    if Reassigns(h, to, from) {
      HeldAlso(h, to, from, held, err);
      ClearAgreed(h, to, held + Stowed(err));
      AssignAfterClear(h, to, from, err, held, {});
    }
  }

  // ---------------------------------------------------------------------------------------
  // Creating and copying
  // ---------------------------------------------------------------------------------------

  lemma ExecInitAgreed(h: Heap, r: Ref, exec: InitExec, err: ErrorLocation, lost: set<Ref>)
    requires AgreedBut(h, lost) && Young(h) && InitList(h, ErrorT) == [] && r in h.objs
    ensures AgreedBut(ExecInit(h, r, exec, err).0, lost)
  {
    hide AgreedBut, Throw;
    match exec
    case DeltaInit => WriteAgreed(h, r, h.objs[r].body.(data := h.objs[r].body.data.(priv := true)), lost);
    case UserInit =>
    case ThrowingInit(code) => ThrowAgreed(h, err, code, None, lost);
  }

  lemma {:induction false} InitFromAgreed(h: Heap, r: Ref, list: seq<Method<InitExec>>, i: nat,
                                          err: ErrorLocation, held: multiset<Ref>, lost: set<Ref>)
    requires i <= |list| && Sane(h, held, {}) && Unfinished(h, r) && Stowed(err) == multiset{}
    requires forall m :: m in list ==> m.ty in h.types
    requires AgreedBut(h, lost)
    ensures AgreedBut(InitFrom(h, r, list, i, err).0, lost)
    decreases |list| - i
  {
    hide Sane, AgreedBut, ExecInit;
    if i < |list| {
      var m := list[i];
      var h0 := Bless(h, r, m.ty);
      BlessAgreed(h, r, m.ty, lost);
      SanePools(h, held, {});
      SanePlain(h, held, {});
      assert Young(h0) && InitList(h0, ErrorT) == [];
      ExecInitAgreed(h0, r, m.exec, err, lost);
      InitStepSane(h, r, m, err, held);
      var (h1, err1) := ExecInit(h0, r, m.exec, err);
      if !(err1.Location? && err1.error.Some?) {
        assert held + Stowed(err1) == held;
        InitFromAgreed(h1, r, list, i + 1, err1, held, lost);
      }
    }
  }

  /** An object that never came to be had nothing to do with weak references. */
  lemma DiscardAgreed(h: Heap, r: Ref, lost: set<Ref>)
    requires AgreedBut(h, lost) && PoolsSound(h) && Unfinished(h, r)
    ensures AgreedBut(Discard(h, r), lost)
  {
    hide PoolsSound, Discard, AgreedBut;
    DiscardShape(h, r);
    RemoveAgreed(h, r, Discard(h, r), lost);
  }

  lemma {:induction false} RemoveAgreed(h: Heap, r: Ref, h': Heap, lost: set<Ref>)
    requires AgreedBut(h, lost) && Unfinished(h, r) && h'.objs == h.objs - {r}
    ensures AgreedBut(h', lost)
  {
    assert forall x :: Held(h', x) <==> Held(h, x) && x != r;
    assert h.objs[r].body.weakRef == None && h.objs[r].target == None;
    forall o | Held(h', o) && h'.objs[o].body.weakRef.Some?
      ensures var w := h'.objs[o].body.weakRef.value; w in h'.objs && h'.objs[w].target == Some(o)
    {
      assert Held(h, o);
    }
    hide Unfinished;
  }

  /** `y_create` */
  lemma CreateAgreed(h: Heap, ty: TypeId, err: ErrorLocation, held: multiset<Ref>, lost: set<Ref>)
    requires Sane(h, held, {}) && Stowed(err) == multiset{} && ty in h.types && AgreedBut(h, lost)
    ensures AgreedBut(Create(h, ty, err).0, lost)
  {
    hide Sane, AgreedBut, InitFrom, Allocate, Discard, Create, Stowed;
    var r := h.next;
    SanePools(h, held, {});
    CreateStarts(h, ty, held);
    CreateShape(h, ty, err);
    AllocateAgreed(h, ty, lost);
    var list := InitList(h, ty);
    InitFromSane(Allocate(h, ty), r, list, 0, err, held + multiset{r});
    InitFromAgreed(Allocate(h, ty), r, list, 0, err, held + multiset{r}, lost);
    var (h1, ok, err1) := InitFrom(Allocate(h, ty), r, list, 0, err);
    if ok {
      BlessAgreed(h1, r, ty, lost);
      var h2 := Bless(h1, r, ty);
      CleanupsAgreed(h2, h2.cleanups[h2.objs[r].body.pool := r], lost);
    } else {
      SanePools(h1, held + multiset{r} + Stowed(err1), {});
      DiscardAgreed(h1, r, lost);
    }
  }

  /** A new object refers to nothing and its members are zero. */
  lemma CreateBare(h: Heap, ty: TypeId, err: ErrorLocation, held: multiset<Ref>)
    requires Sane(h, held, {}) && Stowed(err) == multiset{} && ty in h.types && Create(h, ty, err).1.Some?
    ensures h.next in Create(h, ty, err).0.objs && Bare(Create(h, ty, err).0.objs[h.next].body)
    ensures Blank(Create(h, ty, err).0.objs[h.next].body.data) && Create(h, ty, err).0.objs[h.next].target == None
    ensures Create(h, ty, err).0.objs[h.next].refcount == 1 && Create(h, ty, err).0.objs[h.next].body.ty == ty
  {
    hide Sane, InitFrom, Allocate, Discard, Create, Stowed;
    CreateStarts(h, ty, held);
    CreateShape(h, ty, err);
    InitFromSane(Allocate(h, ty), h.next, InitList(h, ty), 0, err, held + multiset{h.next});
  }

  /** `y_copy` */
  lemma CopyAgreed(h: Heap, from: Ref, err: ErrorLocation, held: multiset<Ref>, lost: set<Ref>)
    requires Sane(h, held, {}) && from in held && from in h.objs && Stowed(err) == multiset{} && AgreedBut(h, lost)
    ensures AgreedBut(Copy(h, from, err).0, lost)
  {
    hide Sane, AgreedBut, Create, Assign, Unref;
    var ty := h.objs[from].body.ty;
    HeldIsGranted(h, from, held, {});
    CreateSane(h, ty, err, held);
    CreateAgreed(h, ty, err, held, lost);
    SaneYoung(h, held, {});
    var (h1, to, err1) := Create(h, ty, err);
    if to.Some? {
      CreateBare(h, ty, err, held);
      var all := held + One(to);
      assert held + One(to) + Stowed(err1) == all + Stowed(err1);
      AssignSane(h1, to.value, from, err1, all);
      AssignLosing(h1, to.value, from, err1, all, lost);
      assert lost + {} == lost && WeakOf(h1, to.value) == {};
      var (h2, ok, err2) := Assign(h1, to.value, from, err1);
      SanePools(h2, all + Stowed(err2), {});
      UnrefCallAgreed(h2, to.value, lost);
    }
  }
}
