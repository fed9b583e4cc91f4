/** The remaining calls of the library, and what they do to the references that callers hold. */
module Calls {
  import opened Options
  import opened Pools
  import opened Classes
  import opened Heaps
  import opened Cascade
  import opened Counts
  import opened Accounts

  // ---------------------------------------------------------------------------------------
  // Clearing
  // ---------------------------------------------------------------------------------------

  lemma OwningNothing(r: Ref)
    ensures Owning(r, {})
  {}

  /** Running the clear chain on a busy object that its class covers. */
  lemma ClearBusySane(h: Heap, r: Ref, held: multiset<Ref>, busy: set<Ref>)
    requires Sane(h, held, busy) && r in busy && r in h.objs && Covered(h, h.objs[r].body)
    ensures var h' := ClearObject(h, r, true);
            && Sane(h', held, busy) && (forall s :: Get(h'.objs[r].body, s) == None)
            && h'.objs[r].body.ty == h.objs[r].body.ty && h'.types == h.types
            && Frame(h, h', {r})
  {
    hide Balanced, Pinned, Covered, Frame, ClearObject;
    OwningNothing(r);
    ClearObjectBalances(h, r, true, held, {}, busy);
    BalancedParts(h, held, {}, busy);
    hide PoolsSound, Sound, Counted;
    ClearObjectReleases(h, r);
    ClearObjectFrame(h, r, true);
    FrameParts(h, ClearObject(h, r, true), {r});
    YoungKept(h, ClearObject(h, r, true));
  }

  /** `y_clear`: every slot of the object is null afterwards, and the references they held are back. */
  lemma ClearSane(h: Heap, r: Ref, held: multiset<Ref>)
    requires Sane(h, held, {}) && r in held
    ensures r in h.objs
    ensures var h' := ClearObject(h, r, true);
            && Sane(h', held, {}) && (forall s :: Get(h'.objs[r].body, s) == None)
            && h'.objs[r].body.ty == h.objs[r].body.ty
  {
    hide Sane, Frame, ClearObject, Covered;
    HeldIsGranted(h, r, held, {});
    Engage(h, r, held, {});
    assert {} + {r} == {r};
    ClearBusySane(h, r, held, {r});
    var h' := ClearObject(h, r, true);
    HeldIsGranted(h', r, held, {r});
    assert Covered(h', h'.objs[r].body) by { CoveredNone(h', h'.objs[r].body); }
    Disengage(h', r, held, {});
  }

  lemma CoveredNone(h: Heap, b: Body)
    requires b.ty in h.types && forall s :: Get(b, s) == None
    ensures Covered(h, b)
  {}

  // ---------------------------------------------------------------------------------------
  // Assigning
  // ---------------------------------------------------------------------------------------

  /** The two objects of an assignment, both held by the caller. They may be one. */
  ghost predicate Pair(h: Heap, to: Ref, from: Ref, held: multiset<Ref>) {
    to in h.objs && from in h.objs && to in held && from in held
  }

  lemma PairPinned(h: Heap, to: Ref, from: Ref, held: multiset<Ref>, more: multiset<Ref>)
    requires Pair(h, to, from, held) && Pinned(h, more, {to, from})
    ensures Pinned(h, held, {to, from})
  {}

  /** What a step of an assignment may change of the two objects. */
  ghost predicate AssignKeeps(h: Heap, h': Heap, to: Ref, from: Ref)
    requires to in h.objs && from in h.objs
  {
    && h'.types == h.types && to in h'.objs && from in h'.objs
    && (to != from ==> h'.objs[from].body == h.objs[from].body.(ty := h'.objs[from].body.ty))
    && h'.objs[to].body.weakRef == h.objs[to].body.weakRef
    && h'.objs[to].body.cause == h.objs[to].body.cause
  }

  lemma AssignDeltaSane(h: Heap, to: Ref, from: Ref, held: multiset<Ref>)
    requires Sane(h, held, {to, from}) && Pair(h, to, from, held)
    ensures var h' := AssignDelta(h, to, from);
            && Sane(h', held, {to, from}) && Pair(h', to, from, held) && AssignKeeps(h, h', to, from)
            && h'.objs[to].body.ty == h.objs[to].body.ty && h'.objs[from].body.ty == h.objs[from].body.ty
  {
    hide Sane, SetC;
    var busy := {to, from};
    var h1 := SetB(h, to, h.objs[from].body.data.b);
    DataSane(h, to, h1.objs[to].body.data, held, busy);
    var h2 := SetC(h1, to, h1.objs[from].body.c);
    SetCSane(h1, to, h1.objs[from].body.c, held, busy);
    SetCFrom(h1, to, from, h1.objs[from].body.c, held);
    var h3 := AssignDelta(h, to, from);
    DataSane(h2, to, h3.objs[to].body.data, held, busy);
  }

  /** Setting the slot of one busy object leaves the other busy object alone. */
  lemma SetCFrom(h: Heap, to: Ref, from: Ref, c: Option<Ref>, held: multiset<Ref>)
    requires Sane(h, held, {to, from}) && Pair(h, to, from, held)
    ensures from in SetC(h, to, c).objs && (to != from ==> SetC(h, to, c).objs[from].body == h.objs[from].body)
  {
    hide Unref, Sane;
    var was := h.objs[to].body.c;
    if was.Some? {
      DropFrom(h, to, from, held);
    }
  }

  lemma DropFrom(h: Heap, to: Ref, from: Ref, held: multiset<Ref>)
    requires Sane(h, held, {to, from}) && Pair(h, to, from, held) && h.objs[to].body.c.Some?
    ensures var h1 := Unref(h, h.objs[to].body.c.value);
            from in h1.objs && h1.objs[from].body == h.objs[from].body
  {
    hide Unref, Balanced, Pinned, Frame;
    var t := h.objs[to].body.c.value;
    var h1 := Unref(h, t);
    var e := Edge(to, CSlot);
    HandOver(h, e, t, held, {}, {to, from});
    UnrefBalances(h, t, held, {} + {e}, {to, from});
    BalancedParts(h, held, {}, {to, from});
    BalancedParts(h1, held, {} + {e}, {to, from});
    hide PoolsSound, Counted, Sound;
    UnrefFrame(h, t);
    BusyUntouched(h, h1, from, held, {} + {e}, {to, from});
  }

  /** One assign method. */
  lemma ExecAssignSane(h: Heap, to: Ref, from: Ref, exec: AssignExec, err: ErrorLocation, held: multiset<Ref>)
    requires Sane(h, held + Stowed(err), {to, from}) && Pair(h, to, from, held)
    ensures var r := ExecAssign(h, to, from, exec, err);
            && Sane(r.0, held + Stowed(r.2), {to, from}) && Pair(r.0, to, from, held)
            && AssignKeeps(h, r.0, to, from)
            && (exec != DeltaAssign ==> r.0.objs[to].body.c == h.objs[to].body.c)
  {
    hide Sane, AssignDelta, Throw;
    match exec
    case AlphaAssign =>
      if Casts(h, to, AlphaT) && Casts(h, from, AlphaT) {
        DataSane(h, to, h.objs[to].body.data.(a := h.objs[from].body.data.a), held + Stowed(err), {to, from});
      }
    case DeltaAssign =>
      if Casts(h, to, DeltaT) && Casts(h, from, DeltaT) {
        AssignDeltaSane(h, to, from, held + Stowed(err));
      }
    case UserAssign =>
    case RefusingAssign =>
    case ThrowingAssign(code) =>
      SaneParts(h, held + Stowed(err), {to, from});
      PairPinned(h, to, from, held, held + Stowed(err));
      ThrowSane(h, err, code, None, held, {to, from});
  }

  /** Blessing a busy object. */
  lemma BlessSane(h: Heap, r: Ref, ty: TypeId, held: multiset<Ref>, busy: set<Ref>)
    requires Sane(h, held, busy) && r in busy && r in h.objs
    ensures Sane(Bless(h, r, ty), held, busy)
  {
    hide Sane, Covered;
    WriteSane(h, r, h.objs[r].body.(ty := ty), held, busy);
  }

  lemma AssignKeepsRefl(h: Heap, to: Ref, from: Ref)
    requires to in h.objs && from in h.objs
    ensures AssignKeeps(h, h, to, from)
  {}

  lemma AssignKeepsTrans(h0: Heap, h1: Heap, h2: Heap, to: Ref, from: Ref)
    requires to in h0.objs && from in h0.objs && AssignKeeps(h0, h1, to, from)
    requires to in h1.objs && from in h1.objs && AssignKeeps(h1, h2, to, from)
    ensures AssignKeeps(h0, h2, to, from)
  {}

  lemma BlessKeeps(h: Heap, to: Ref, from: Ref, ty: TypeId, held: multiset<Ref>)
    requires Pair(h, to, from, held)
    ensures var h' := Bless(Bless(h, to, ty), from, ty);
            Pair(h', to, from, held) && AssignKeeps(h, h', to, from) && h'.objs[to].body.c == h.objs[to].body.c
  {}

  lemma {:induction false} AssignFromSane(h: Heap, to: Ref, from: Ref, list: seq<Method<AssignExec>>, i: nat,
                                          err: ErrorLocation, held: multiset<Ref>)
    requires i <= |list| && Sane(h, held + Stowed(err), {to, from}) && Pair(h, to, from, held)
    ensures var r := AssignFrom(h, to, from, list, i, err);
            && Sane(r.0, held + Stowed(r.2), {to, from}) && Pair(r.0, to, from, held)
            && AssignKeeps(h, r.0, to, from)
            && ((forall m :: m in list ==> m.exec != DeltaAssign) ==> r.0.objs[to].body.c == h.objs[to].body.c)
    decreases |list| - i
  {
    hide Sane, ExecAssign, Stowed;
    if i < |list| {
      var ty := list[i].ty;
      var h1 := Bless(Bless(h, to, ty), from, ty);
      BlessSane(h, to, ty, held + Stowed(err), {to, from});
      BlessSane(Bless(h, to, ty), from, ty, held + Stowed(err), {to, from});
      BlessKeeps(h, to, from, ty, held);
      hide Bless, AssignKeeps;
      ExecAssignSane(h1, to, from, list[i].exec, err, held);
      var (h2, ok, err1) := ExecAssign(h1, to, from, list[i].exec, err);
      AssignKeepsTrans(h, h1, h2, to, from);
      assert list[i] in list;
      if ok && !(err1.Location? && err1.error.Some?) {
        AssignFromSane(h2, to, from, list, i + 1, err1, held);
        AssignKeepsTrans(h, h2, AssignFrom(h, to, from, list, i, err).0, to, from);
      }
    } else {
      AssignKeepsRefl(h, to, from);
    }
  }

  /** A class whose assign list stores into the `c` slot also knows how to release it. */
  lemma AssignCovers(h: Heap, ty: TypeId)
    requires Sound(h.types) && exists m :: m in AssignList(h, ty) && m.exec == DeltaAssign
    ensures Releaser(CSlot) in ClearList(h, ty)
  {}

  /** The heap in which the assign methods of `y_assign` start. */
  lemma AssignStarts(h: Heap, to: Ref, from: Ref, held: multiset<Ref>)
    requires Sane(h, held, {}) && Pair(h, to, from, held)
    ensures var h1 := ClearObject(h, to, true);
            && Sane(h1, held, {to, from}) && Pair(h1, to, from, held) && h1.types == h.types
            && (forall s :: Get(h1.objs[to].body, s) == None) && h1.objs[to].body.ty == h.objs[to].body.ty
            && (to != from ==> h1.objs[from].body == h.objs[from].body)
            && Covered(h, h.objs[to].body) && Covered(h, h.objs[from].body)
  {
    hide Sane, Covered, ClearObject, Frame;
    HeldIsGranted(h, to, held, {});
    HeldIsGranted(h, from, held, {});
    Engage(h, to, held, {});
    Engage(h, from, held, {} + {to});
    assert {} + {to} + {from} == {to, from};
    ClearBusySane(h, to, held, {to, from});
    var h1 := ClearObject(h, to, true);
    if to != from { FrameAt(h, h1, {to}, from); }
    HeldIsGranted(h1, from, held, {to, from});
  }

  /** The two objects after `y_assign` has given them their own class back. */
  lemma AssignEnds(h: Heap, h1: Heap, to: Ref, from: Ref, ty: TypeId, held: multiset<Ref>)
    requires Sane(h1, held, {to, from}) && Pair(h1, to, from, held) && h1.types == h.types
    requires to in h.objs && from in h.objs && h.objs[to].body.ty == ty && h.objs[from].body.ty == ty
    requires Covered(h, h.objs[from].body)
    requires to != from ==> h1.objs[from].body == h.objs[from].body.(ty := h1.objs[from].body.ty)
    requires Covered(h1, h1.objs[to].body.(ty := ty))
    ensures Sane(Bless(Bless(h1, to, ty), from, ty), held, {})
  {
    hide Sane;
    BlessSane(h1, to, ty, held, {to, from});
    var h2 := Bless(h1, to, ty);
    BlessSane(h2, from, ty, held, {to, from});
    var h3 := Bless(h2, from, ty);
    hide Covered;
    HeldIsGranted(h3, to, held, {to, from});
    HeldIsGranted(h3, from, held, {to, from});
    CoveredKept(h1, h3, h3.objs[to].body);
    if to != from {
      assert h3.objs[from].body == h.objs[from].body;
      CoveredKept(h, h3, h3.objs[from].body);
      assert {to, from} == ({} + {to}) + {from};
      Disengage(h3, from, held, {} + {to});
    } else {
      assert {to, from} == {} + {to};
    }
    Disengage(h3, to, held, {});
  }

  /** `y_assign`, also of an object to itself: whether it succeeds, refuses or is stopped part way by
      an error, every count is right and both objects have their class back. */
  lemma AssignSane(h: Heap, to: Ref, from: Ref, err: ErrorLocation, held: multiset<Ref>)
    requires Sane(h, held + Stowed(err), {}) && Pair(h, to, from, held)
    ensures var r := Assign(h, to, from, err);
            && Sane(r.0, held + Stowed(r.2), {}) && Pair(r.0, to, from, held)
            && (to != from ==> r.0.objs[from].body == h.objs[from].body)
            && r.0.objs[to].body.ty == h.objs[to].body.ty
  {
    hide Sane, ClearObject, AssignFrom, Covered;
    var ty := h.objs[to].body.ty;
    var list := AssignList(h, ty);
    if list != [] && h.objs[from].body.ty == ty {
      var all := held + Stowed(err);
      AssignStarts(h, to, from, all);
      var h1 := ClearObject(h, to, true);
      AssignFromSane(h1, to, from, list, 0, err, held);
      var (h2, ok, err1) := AssignFrom(h1, to, from, list, 0, err);
      HeldIsGranted(h, to, all, {});
      AssignLeavesCovered(h, h1, h2, to, ty, all);
      HeldAlso(h2, to, from, held, err1);
      AssignEnds(h, h2, to, from, ty, held + Stowed(err1));
    }
  }

  lemma HeldAlso(h: Heap, to: Ref, from: Ref, held: multiset<Ref>, err: ErrorLocation)
    requires Pair(h, to, from, held)
    ensures Pair(h, to, from, held + Stowed(err))
  {}

  lemma AssignLeavesCovered(h: Heap, h1: Heap, h2: Heap, to: Ref, ty: TypeId, held: multiset<Ref>)
    requires Sane(h, held, {}) && h2.types == h.types && ty in h.types
    requires to in h1.objs && to in h2.objs && forall s :: Get(h1.objs[to].body, s) == None
    requires h2.objs[to].body.weakRef == h1.objs[to].body.weakRef
    requires h2.objs[to].body.cause == h1.objs[to].body.cause
    requires (forall m :: m in AssignList(h, ty) ==> m.exec != DeltaAssign)
             ==> h2.objs[to].body.c == h1.objs[to].body.c
    ensures Covered(h2, h2.objs[to].body.(ty := ty))
  {
    hide PoolsSound, Counted, Sound;
    assert Get(h1.objs[to].body, WeakSlot) == None && Get(h1.objs[to].body, CauseSlot) == None
           && Get(h1.objs[to].body, CSlot) == None;
    if h2.objs[to].body.c.Some? {
      AssignCovers(h, ty);
    }
  }

  // ---------------------------------------------------------------------------------------
  // Creating with init methods
  // ---------------------------------------------------------------------------------------

  /** An object that owns nothing. */
  predicate Bare(b: Body) {
    b.weakRef == None && b.cause == None && b.c == None
  }

  lemma BareSlots(b: Body)
    ensures Bare(b) <==> forall s :: Get(b, s) == None
  {
    if forall s :: Get(b, s) == None {
      assert Get(b, WeakSlot) == None && Get(b, CauseSlot) == None && Get(b, CSlot) == None;
    }
  }

  /** Members as `y_create` zeroes them, whether or not Delta's private structure is there. */
  predicate Blank(d: Data) {
    d.(priv := false) == NO_DATA
  }

  /** A new object before its cleanup is registered. */
  ghost predicate Unfinished(h: Heap, r: Ref) {
    && r in h.objs && h.objs[r].refcount == 1 && !h.objs[r].body.deleted && h.objs[r].target == None
    && Bare(h.objs[r].body) && Blank(h.objs[r].body.data)
    && (forall p :: p in h.cleanups ==> h.cleanups[p] != r)
  }

  /** The objects there were before, which creating another never touches. */
  ghost predicate Grown(h: Heap, h': Heap, r: Ref) {
    h'.types == h.types && forall x :: x in h.objs && x != r ==> x in h'.objs && h'.objs[x] == h.objs[x]
  }

  lemma ThrowCleanups(h: Heap, err: ErrorLocation, code: int, description: Option<string>)
    requires InitList(h, ErrorT) == []
    ensures var h' := Throw(h, err, code, description).0;
            forall p :: p in h'.cleanups ==>
              h'.cleanups[p] == h.next || (p in h.cleanups && h'.cleanups[p] == h.cleanups[p])
  {}

  lemma ExecInitSane(h: Heap, r: Ref, exec: InitExec, err: ErrorLocation, held: multiset<Ref>)
    requires Sane(h, held, {}) && Unfinished(h, r) && Stowed(err) == multiset{}
    ensures var (h', err') := ExecInit(h, r, exec, err);
            && Sane(h', held + Stowed(err'), {}) && Unfinished(h', r) && Grown(h, h', r)
  {
    hide Sane, Throw;
    match exec
    case DeltaInit =>
      if Casts(h, r, DeltaT) {
        DataSane(h, r, h.objs[r].body.data.(priv := true), held, {});
      }
      assert held + Stowed(err) == held;
    case UserInit =>
      assert held + Stowed(err) == held;
    case ThrowingInit(code) =>
      SanePlain(h, held, {});
      SaneYoung(h, held, {});
      PinnedNobody(h, held);
      assert held + Stowed(err) == held;
      ThrowSane(h, err, code, None, held, {});
      ThrowCleanups(h, err, code, None);
  }

  /** One turn of the loop in `y_create`. */
  lemma InitStepSane(h: Heap, r: Ref, m: Method<InitExec>, err: ErrorLocation, held: multiset<Ref>)
    requires Sane(h, held, {}) && Unfinished(h, r) && Stowed(err) == multiset{} && m.ty in h.types
    ensures var (h', err') := ExecInit(Bless(h, r, m.ty), r, m.exec, err);
            && Sane(h', held + Stowed(err'), {}) && Unfinished(h', r) && Grown(h, h', r)
  {
    hide Sane, ExecInit, Covered;
    var b := h.objs[r].body.(ty := m.ty);
    BareSlots(b);
    CoveredNone(h, b);
    WriteSane(h, r, b, held, {});
    ExecInitSane(Bless(h, r, m.ty), r, m.exec, err, held);
  }

  lemma {:induction false} InitFromSane(h: Heap, r: Ref, list: seq<Method<InitExec>>, i: nat,
                                        err: ErrorLocation, held: multiset<Ref>)
    requires i <= |list| && Sane(h, held, {}) && Unfinished(h, r) && Stowed(err) == multiset{}
    requires forall m :: m in list ==> m.ty in h.types
    ensures var (h', ok, err') := InitFrom(h, r, list, i, err);
            && Sane(h', held + Stowed(err'), {}) && Unfinished(h', r) && Grown(h, h', r)
            && (ok <==> Stowed(err') == multiset{})
    decreases |list| - i
  {
    hide Sane, ExecInit, Bless, Unfinished, Grown, Stowed;
    assert held + Stowed(err) == held;
    GrownRefl(h, r);
    if i < |list| {
      assert r in h.objs by { UnfinishedThere(h, r); }
      InitStepSane(h, r, list[i], err, held);
      var (h1, err1) := ExecInit(Bless(h, r, list[i].ty), r, list[i].exec, err);
      StowedNothing(err1);
      if !(err1.Location? && err1.error.Some?) {
        assert held + Stowed(err1) == held;
        assert h1.types == h.types by { GrownTypes(h, h1, r); }
        InitFromSane(h1, r, list, i + 1, err1, held);
        GrownTrans(h, h1, InitFrom(h1, r, list, i + 1, err1).0, r);
      }
    }
  }

  lemma UnfinishedThere(h: Heap, r: Ref)
    requires Unfinished(h, r)
    ensures r in h.objs
  {}

  lemma StowedNothing(err: ErrorLocation)
    ensures Stowed(err) == multiset{} <==> !(err.Location? && err.error.Some?)
  {}

  lemma GrownRefl(h: Heap, r: Ref)
    ensures Grown(h, h, r)
  {}

  lemma GrownTypes(h: Heap, h': Heap, r: Ref)
    requires Grown(h, h', r)
    ensures h'.types == h.types
  {}

  lemma GrownTrans(h0: Heap, h1: Heap, h2: Heap, r: Ref)
    requires Grown(h0, h1, r) && Grown(h1, h2, r)
    ensures Grown(h0, h2, r)
  {}

  /** Nothing is registered with the pool of an unfinished object. */
  lemma DiscardShape(h: Heap, r: Ref)
    requires PoolsSound(h) && Unfinished(h, r)
    ensures h.objs[r].body.pool !in h.cleanups
    ensures Discard(h, r) == h.(objs := h.objs - {r}, pools := Recycle(h.pools, h.objs[r].body.pool))
  {
    hide TearDown;
    var p := h.objs[r].body.pool;
    assert Alive(h, r);
    assert p !in h.cleanups;
    hide PoolsSound;
    assert LastResort(h, p) == h;
    assert FreePool(h, p) == h.(pools := Recycle(h.pools, p));
  }

  /** Giving back the pool of an object that never came to be. */
  lemma DiscardSane(h: Heap, r: Ref, held: multiset<Ref>)
    requires Sane(h, held + multiset{r}, {}) && Unfinished(h, r)
    ensures Sane(Discard(h, r), held, {})
    ensures Grown(h, Discard(h, r), r) && r !in Discard(h, r).objs
    ensures Discard(h, r).pools == Recycle(h.pools, h.objs[r].body.pool)
  {
    hide PoolsSound, Counted, Sound, Covered, Discard;
    var h' := Discard(h, r);
    DiscardShape(h, r);
    DiscardCounts(h, r, held, h');
    DiscardPools(h, r, h');
    forall x | x in h'.objs
      ensures Settled(h', h'.objs[x])
    {
      assert Settled(h, h.objs[x]);
      CoveredKept(h, h', h.objs[x].body);
    }
  }

  lemma DiscardCounts(h: Heap, r: Ref, held: multiset<Ref>, h': Heap)
    requires Counted(h, held + multiset{r}, {}) && Unfinished(h, r) && h'.objs == h.objs - {r}
    ensures Counted(h', held, {})
  {
    EdgesThere(h);
    EdgesThere(h');
    assert h.objs[r].refcount == (held + multiset{r})[r] + |Owners(h, r, {})|;
    assert Owners(h, r, {}) == {};
    BareSlots(h.objs[r].body);
    forall e: Edge | e.holder in h'.objs
      ensures Points(h', e) == Points(h, e) && Points(h', e) != Some(r)
    {
      assert e !in Owners(h, r, {});
    }
    forall o | o in h'.objs
      ensures Owners(h', o, {}) == Owners(h, o, {})
    {
      assert forall s :: Edge(r, s) !in Owners(h, o, {});
    }
  }

  lemma DiscardPools(h: Heap, r: Ref, h': Heap)
    requires PoolsSound(h) && Unfinished(h, r) && h.objs[r].body.pool !in h.cleanups
    requires h'.objs == h.objs - {r} && h'.cleanups == h.cleanups
    requires h'.pools == Recycle(h.pools, h.objs[r].body.pool)
    ensures PoolsSound(h')
  {
    hide PoolsSound, Recycle;
    assert Alive(h, r);
    var b := h.objs[r].body;
    var marked := SetBody(h, r, b.(deleted := true, teardowns := b.teardowns + 1));
    var buried := marked.(pools := h'.pools);
    assert Retired(h, r, buried) by {
      assert h.cleanups - {b.pool} == h.cleanups;
    }
    RetirePools(h, r, buried);
    RemoveDead(buried, r, h');
  }

  /** Forgetting a deleted object. */
  lemma RemoveDead(h: Heap, r: Ref, h': Heap)
    requires PoolsSound(h) && r in h.objs && h.objs[r].body.deleted
    requires h'.objs == h.objs - {r} && h'.cleanups == h.cleanups && h'.pools == h.pools
    ensures PoolsSound(h')
  {
    hide Idle, Distinct;
    assert forall x :: Alive(h, x) <==> Alive(h', x);
    assert forall x :: Alive(h, x) ==> h.objs[x] == h'.objs[x];
    forall p | InUse(h, p)
      ensures InUse(h', p)
    {
      var x :| Alive(h, x) && h.objs[x].body.pool == p;
      assert Alive(h', x);
    }
  }

  lemma InitTyped(h: Heap, ty: TypeId)
    requires Sound(h.types)
    ensures forall m :: m in InitList(h, ty) ==> m.ty in h.types
  {}

  lemma CreateStarts(h: Heap, ty: TypeId, held: multiset<Ref>)
    requires Sane(h, held, {}) && ty in h.types
    ensures var h1 := Allocate(h, ty);
            && Sane(h1, held + multiset{h.next}, {}) && Unfinished(h1, h.next) && Grown(h, h1, h.next)
            && h.next !in h.objs && (forall m :: m in InitList(h, ty) ==> m.ty in h1.types)
  {
    hide Sane, Unfinished, Grown, Sound, Allocate;
    AllocateSane(h, ty, held, {});
    SaneParts(h, held, {});
    BalancedParts(h, held, {}, {});
    InitTyped(h, ty);
    AllocateStarts(h, ty);
    GrownTypes(h, Allocate(h, ty), h.next);
  }

  lemma AllocateStarts(h: Heap, ty: TypeId)
    requires PoolsSound(h) && Young(h)
    ensures h.next !in h.objs && Unfinished(Allocate(h, ty), h.next) && Grown(h, Allocate(h, ty), h.next)
  {
    hide Idle, Distinct, InUse, Draw, NextPool;
    assert forall p :: p in h.cleanups ==> Alive(h, h.cleanups[p]);
  }

  /** The outcome of `y_create`, from the outcome of its init methods. */
  lemma CreateShape(h: Heap, ty: TypeId, err: ErrorLocation)
    ensures var (h1, ok, err1) := InitFrom(Allocate(h, ty), h.next, InitList(h, ty), 0, err);
            h.next in h1.objs ==>
              Create(h, ty, err) ==
              if ok then (Finish(h1, h.next, ty), Some(h.next), err1) else (Discard(h1, h.next), None, err1)
  {}

  /** The last steps of a successful `y_create`. */
  function Finish(h: Heap, r: Ref, ty: TypeId): Heap
    requires r in h.objs
  {
    var h2 := Bless(h, r, ty);
    h2.(cleanups := h2.cleanups[h2.objs[r].body.pool := r])
  }

  /** `y_create`: on success the caller holds the new object, on failure only the error; either way the
      objects there were are as they were. */
  lemma CreateSane(h: Heap, ty: TypeId, err: ErrorLocation, held: multiset<Ref>)
    requires Sane(h, held, {}) && Stowed(err) == multiset{} && ty in h.types
    ensures var (h', obj, err') := Create(h, ty, err);
            && Sane(h', held + One(obj) + Stowed(err'), {})
            && (obj.None? <==> Stowed(err') != multiset{})
            && (obj.Some? ==> obj == Some(h.next))
            && Grown(h, h', h.next)
  {
    hide Sane, InitFrom, Allocate, Discard, Create, Finish, Stowed;
    var r := h.next;
    CreateStarts(h, ty, held);
    CreateShape(h, ty, err);
    InitFromSane(Allocate(h, ty), r, InitList(h, ty), 0, err, held + multiset{r});
    var (h1, ok, err1) := InitFrom(Allocate(h, ty), r, InitList(h, ty), 0, err);
    assert held + multiset{r} + Stowed(err1) == (held + Stowed(err1)) + multiset{r};
    if ok {
      FinishSane(h1, r, ty, (held + Stowed(err1)) + multiset{r});
      assert held + One(Some(r)) + Stowed(err1) == (held + Stowed(err1)) + multiset{r};
    } else {
      DiscardSane(h1, r, held + Stowed(err1));
      assert held + One(None) + Stowed(err1) == held + Stowed(err1);
    }
  }

  lemma FinishSane(h: Heap, r: Ref, ty: TypeId, held: multiset<Ref>)
    requires Sane(h, held, {}) && Unfinished(h, r) && ty in h.types
    ensures Sane(Finish(h, r, ty), held, {}) && Grown(h, Finish(h, r, ty), r)
  {
    hide Sane, Covered;
    var b := h.objs[r].body.(ty := ty);
    BareSlots(b);
    CoveredNone(h, b);
    WriteSane(h, r, b, held, {});
    RegisterSane(Bless(h, r, ty), r, held, {});
  }

  // ---------------------------------------------------------------------------------------
  // Copying
  // ---------------------------------------------------------------------------------------

  /** `y_copy`: the caller ends up holding the copy, or an error, or neither; nothing else changes in
      its accounts. */
  lemma CopySane(h: Heap, from: Ref, err: ErrorLocation, held: multiset<Ref>)
    requires Sane(h, held, {}) && from in held && from in h.objs && Stowed(err) == multiset{}
    ensures var (h', copy, err') := Copy(h, from, err);
            Sane(h', held + One(copy) + Stowed(err'), {})
  {
    hide Sane, Create, Assign, Unref;
    var ty := h.objs[from].body.ty;
    HeldIsGranted(h, from, held, {});
    CreateSane(h, ty, err, held);
    SaneYoung(h, held, {});
    var (h1, to, err1) := Create(h, ty, err);
    if to.Some? {
      var all := held + One(to);
      assert held + One(to) + Stowed(err1) == all + Stowed(err1);
      assert h1.objs[from] == h.objs[from];
      HeldIsGranted(h1, to.value, all + Stowed(err1), {});
      AssignSane(h1, to.value, from, err1, all);
      var (h2, ok, err2) := Assign(h1, to.value, from, err1);
      if !ok || (err2.Location? && err2.error.Some?) {
        assert all + Stowed(err2) == (held + Stowed(err2)) + multiset{to.value};
        PinnedNobody(h2, held + Stowed(err2));
        UnrefSane(h2, to.value, held + Stowed(err2), {});
        assert held + One(None) + Stowed(err2) == held + Stowed(err2);
      } else {
        assert all + Stowed(err2) == held + One(to) + Stowed(err2);
      }
    }
  }
}
