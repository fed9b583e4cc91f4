/** Runs, from the start, that reach the limits: allowed calls only, and no class does anything unusual. */
module LimitRuns {
  import opened Options
  import opened Classes
  import opened Heaps
  import opened Cascade
  import opened Accounts
  import opened Calls
  import opened WeakRefs
  import opened WeakCalls
  import opened Runs
  import Copies
  import opened Limits
  import opened SafeCalls
  import opened AssignLimits

  // ---------------------------------------------------------------------------------------
  // Building runs
  // ---------------------------------------------------------------------------------------

  /** The world after creating an object of a known class, without an error location. */
  ghost function Made(w: World, ty: TypeId): World {
    Outcome(w, CreateCall(ty, false))
  }

  /** A creation that reports no errors gives the caller a new object. */
  lemma MadeGood(w: World, ty: TypeId)
    requires Good(w) && Agreed(w.heap) && ty in w.heap.types
    ensures var r, w' := w.heap.next, Made(w, ty);
            && Good(w') && Agreed(w'.heap) && w'.held == w.held + multiset{r} && r !in w.heap.objs
            && r in w'.heap.objs && w'.heap.objs[r].refcount == 1 && w'.heap.objs[r].body.ty == ty
            && Bare(w'.heap.objs[r].body) && Grown(w.heap, w'.heap, r)
  {
    hide Sane, Agreed, Create;
    CallGood(w, CreateCall(ty, false));
    CallAgreed(w, CreateCall(ty, false));
    CreateSane(w.heap, ty, Ignored, w.held);
    CreateBare(w.heap, ty, Ignored, w.held);
    SaneYoung(w.heap, w.held, {});
    var (h', r, err) := Create(w.heap, ty, Ignored);
    assert w.held + One(r) + Stowed(err) == w.held + multiset{w.heap.next};
  }

  /** A run goes on with any call that is allowed in its last world. */
  lemma RunOn(worlds: seq<World>, calls: seq<Call>, call: Call)
    requires Run(worlds, calls)
    requires Allowed(worlds[|calls|], call) && There(worlds[|calls|].heap, call)
    ensures Run(worlds + [Outcome(worlds[|calls|], call)], calls + [call])
  {
    hide Allowed, There, Outcome;
  }

  lemma RunOnce(w: World, call: Call)
    requires Allowed(w, call) && There(w.heap, call)
    ensures Run([w, Outcome(w, call)], [call])
  {
    hide Allowed, There, Outcome;
  }

  lemma ObjectIsThere(types: Types)
    requires Sound(types)
    ensures ObjectT in types && WeakRefT in types
  {}

  /** A run that creates two objects, the first of them with identity 0. */
  lemma TwoMade(types: Types, capacity: nat, ty: TypeId, tz: TypeId)
    returns (worlds: seq<World>, calls: seq<Call>, r: Ref)
    requires Sound(types) && ty in types && tz in types
    ensures Run(worlds, calls) && |worlds| == 3 && worlds[0] == Start(types, capacity)
    ensures var w := worlds[2];
            && Good(w) && Agreed(w.heap) && w.heap.types == types && 0 in w.held && r in w.held && r != 0
            && 0 in w.heap.objs && w.heap.objs[0].body.ty == ty && w.heap.objs[0].body.c == None
            && r in w.heap.objs && w.heap.objs[r].body.ty == tz && w.heap.objs[r].refcount == 1
  {
    hide Good, Agreed, Outcome, Sound;
    var w0 := Start(types, capacity);
    StartGood(types, capacity);
    MadeGood(w0, ty);
    var w1 := Made(w0, ty);
    MadeGood(w1, tz);
    r := w1.heap.next;
    worlds, calls := [w0, w1, Made(w1, tz)], [CreateCall(ty, false), CreateCall(tz, false)];
    assert 0 in w1.held && 0 in w1.heap.objs;
  }

  // ---------------------------------------------------------------------------------------
  // What some calls come to
  // ---------------------------------------------------------------------------------------

  lemma BOutcome(w: World, r: Ref, s: Option<string>)
    requires r in w.heap.objs
    ensures Outcome(w, SetBCall(r, s)) == World(SetB(w.heap, r, s), w.held)
  {
    hide Create, AddRef, Unref, WeakRefTo, Deref, Throw, SetB, SetC, SetD, ClearObject, Assign, Copy, Report;
  }

  lemma COutcome(w: World, r: Ref, c: Option<Ref>)
    requires r in w.heap.objs
    ensures Outcome(w, SetCCall(r, c)) == World(SetC(w.heap, r, c), w.held)
  {
    hide Create, AddRef, Unref, WeakRefTo, Deref, Throw, SetB, SetC, SetD, ClearObject, Assign, Copy, Report;
  }

  lemma UnrefOutcome(w: World, r: Ref)
    requires r in w.heap.objs
    ensures Outcome(w, UnrefCall(r)) == World(Unref(w.heap, r), w.held - multiset{r})
  {
    hide Create, AddRef, Unref, WeakRefTo, Deref, Throw, SetB, SetC, SetD, ClearObject, Assign, Copy, Report;
  }

  lemma ClearOutcome(w: World, call: Call)
    requires call.ClearCall? && call.r in w.heap.objs
    ensures Outcome(w, call).heap == ClearObject(w.heap, call.r, true) && Outcome(w, call).held == w.held
  {
    hide ClearObject;
  }

  lemma AssignOutcome(w: World, to: Ref, from: Ref)
    requires to in w.heap.objs && from in w.heap.objs
    ensures Outcome(w, AssignCall(to, from, false)).heap == Assign(w.heap, to, from, Ignored).0
  {
    hide Create, AddRef, Unref, WeakRefTo, Deref, Throw, SetB, SetC, SetD, ClearObject, Assign, Copy;
  }

  lemma WeakRefOutcome(w: World, r: Ref)
    requires r in w.heap.objs
    ensures Outcome(w, WeakRefCall(r)).heap == WeakRefTo(w.heap, r).0
  {
    hide Create, AddRef, Unref, WeakRefTo, Deref, Throw, SetB, SetC, SetD, ClearObject, Assign, Copy, Report;
  }

  // ---------------------------------------------------------------------------------------
  // Weak references
  // ---------------------------------------------------------------------------------------

  /** The caller takes the weak reference of an object that it holds. */
  lemma WeakRefTaken(w: World, r: Ref) returns (v: Ref)
    requires Good(w) && Agreed(w.heap) && r in w.held
    ensures r in w.heap.objs && Allowed(w, WeakRefCall(r))
    ensures var w' := Outcome(w, WeakRefCall(r));
            && Good(w') && Agreed(w'.heap) && w'.held == w.held + multiset{v}
            && r in w'.heap.objs && w'.heap.objs[r].body.weakRef == Some(v) && WeakRefTo(w.heap, r).1 == Some(v)
  {
    hide Sane, Agreed, WeakRefTo;
    HeldIsGranted(w.heap, r, w.held, {});
    CallGood(w, WeakRefCall(r));
    CallAgreed(w, WeakRefCall(r));
    WeakRefSane(w.heap, r, w.held);
    v := WeakRefTo(w.heap, r).1.value;
  }

  /** The weak reference that `y_weak_ref` makes on first use is another object, of the class of weak references. */
  lemma FirstWeakRef(w: World, r: Ref, v: Ref)
    requires Good(w) && r in w.held && r in w.heap.objs && w.heap.objs[r].body.weakRef == None
    requires WeakRefTo(w.heap, r).1 == Some(v)
    ensures var h' := WeakRefTo(w.heap, r).0;
            && v in h'.objs && h'.objs[v].body.ty == WeakRefT && v != r
            && r in h'.objs && h'.objs[r].refcount == w.heap.objs[r].refcount && h'.types == w.heap.types
  {
    hide Sane, AttachWeakRef, NewWeakRef, Young, PoolsSound;
    var h := w.heap;
    SanePlain(h, w.held, {});
    SanePools(h, w.held, {});
    AttachShape(h, r);
    NewWeakRefSane(h, r, w.held, {});
  }

  /** Taking a weak reference changes no class. */
  lemma WeakRefTypes(w: World, r: Ref, x: Ref)
    requires Good(w) && r in w.held && r in w.heap.objs && x in w.heap.objs
    ensures var h' := Outcome(w, WeakRefCall(r)).heap;
            h'.types == w.heap.types && x in h'.objs && h'.objs[x].body.ty == w.heap.objs[x].body.ty
            && r in h'.objs && h'.objs[r].body.ty == w.heap.objs[r].body.ty
  {
    hide Sane, AttachWeakRef, NewWeakRef, Create, Unref, Throw, ClearObject, Assign, Copy, SetC, SetD, SetB, Deref;
    if w.heap.objs[r].body.weakRef.None? {
      SanePlain(w.heap, w.held, {});
      SanePools(w.heap, w.held, {});
      AttachShape(w.heap, r);
      NewWeakRefSane(w.heap, r, w.held, {});
    }
  }

  /** A run that creates an object and takes its weak reference. */
  lemma WeakRefRun(types: Types, capacity: nat) returns (worlds: seq<World>, calls: seq<Call>, v: Ref)
    requires Sound(types)
    ensures Run(worlds, calls) && |worlds| == 3 && worlds[0] == Start(types, capacity)
    ensures var w := worlds[2];
            && Good(w) && Agreed(w.heap) && w.heap.types == types && 0 in w.held && v in w.held && v != 0
            && 0 in w.heap.objs && w.heap.objs[0].body.weakRef == Some(v) && w.heap.objs[0].refcount == 1
            && v in w.heap.objs && w.heap.objs[v].body.ty == WeakRefT
  {
    hide Good, Agreed, Outcome, Sound, Run, WeakRefTo;
    var w0 := Start(types, capacity);
    StartGood(types, capacity);
    ObjectIsThere(types);
    MadeGood(w0, ObjectT);
    var w1 := Made(w0, ObjectT);
    assert 0 in w1.held && 0 in w1.heap.objs;
    RunOnce(w0, CreateCall(ObjectT, false));
    v := WeakRefTaken(w1, 0);
    WeakRefOutcome(w1, 0);
    FirstWeakRef(w1, 0, v);
    RunOn([w0, w1], [CreateCall(ObjectT, false)], WeakRefCall(0));
    worlds := [w0, w1] + [Outcome(w1, WeakRefCall(0))];
    calls := [CreateCall(ObjectT, false)] + [WeakRefCall(0)];
  }

  lemma ClearedApart(w: World, r: Ref, v: Ref)
    requires Good(w) && Agreed(w.heap) && r in w.held && v in w.held
    requires r in w.heap.objs && w.heap.objs[r].body.weakRef == Some(v)
    ensures !Agreed(Outcome(w, ClearCall(r)).heap)
  {
    hide Sane, Agreed, ClearObject;
    ClearSeparatesHeld(w.heap, r, v, w.held);
  }

  /** An object is created, its weak reference is taken, and the object is cleared. */
  lemma ClearSeparates(types: Types, capacity: nat)
    requires Sound(types)
    ensures exists worlds: seq<World>, calls: seq<Call> :: Run(worlds, calls) && worlds[0] == Start(types, capacity)
                                    && |worlds| == 4 && !Agreed(worlds[3].heap)
  {
    hide Good, Agreed, Outcome, Sound, Run, Bare;
    var worlds2, calls2, v := WeakRefRun(types, capacity);
    RunLength(worlds2, calls2);
    var w2 := worlds2[2];
    RunOn(worlds2, calls2, ClearCall(0));
    ClearedApart(w2, 0, v);
    var worlds := worlds2 + [Outcome(w2, ClearCall(0))];
    assert Run(worlds, calls2 + [ClearCall(0)]);
    assert !Agreed(worlds[3].heap);
  }

  lemma AlphaAssigns(types: Types)
    requires Sound(types) && AlphaT in types
    ensures types[AlphaT].assign != []
  {
    assert SoundClass(types, AlphaT);
  }

  lemma Ready(w: World, to: Ref, from: Ref)
    requires Good(w) && to in w.held && from in w.held && to in w.heap.objs && from in w.heap.objs
    ensures Sane(w.heap, w.held + Stowed(Ignored), {}) && Pair(w.heap, to, from, w.held)
  {
    hide Sane;
    assert w.held + Stowed(Ignored) == w.held;
  }

  lemma AssignedApart(w: World, to: Ref, from: Ref, v: Ref)
    requires Good(w) && Agreed(w.heap) && to in w.held && from in w.held && v in w.held
    requires to in w.heap.objs && from in w.heap.objs && w.heap.objs[to].body.weakRef == Some(v)
    requires w.heap.objs[from].body.ty == w.heap.objs[to].body.ty && AssignList(w.heap, w.heap.objs[to].body.ty) != []
    ensures !Agreed(Assign(w.heap, to, from, Ignored).0)
  {
    hide *;
    Ready(w, to, from);
    AssignSeparatesHeld(w.heap, to, from, v, Ignored, w.held);
  }

  /** Two objects of class Alpha are created, the weak reference of the first is taken, and the second is assigned to
      the first. */
  lemma AssignSeparates(types: Types, capacity: nat)
    requires Sound(types) && AlphaT in types
    ensures exists worlds: seq<World>, calls: seq<Call> :: Run(worlds, calls) && worlds[0] == Start(types, capacity)
                                    && |worlds| == 5 && calls[3].AssignCall? && !Agreed(worlds[4].heap)
  {
    hide Good, Agreed, Outcome, Assign, Sound, Run;
    var worlds2, calls2, r := TwoMade(types, capacity, AlphaT, AlphaT);
    RunLength(worlds2, calls2);
    var w2 := worlds2[2];
    var v := WeakRefTaken(w2, 0);
    var w3 := Outcome(w2, WeakRefCall(0));
    RunOn(worlds2, calls2, WeakRefCall(0));
    WeakRefTypes(w2, 0, r);
    AlphaAssigns(types);
    AssignedApart(w3, 0, r, v);
    AssignOutcome(w3, 0, r);
    RunOn(worlds2 + [w3], calls2 + [WeakRefCall(0)], AssignCall(0, r, false));
    var worlds := worlds2 + [w3] + [Outcome(w3, AssignCall(0, r, false))];
    assert Run(worlds, calls2 + [WeakRefCall(0)] + [AssignCall(0, r, false)]);
    assert !Agreed(worlds[4].heap);
  }

  // ---------------------------------------------------------------------------------------
  // A deref after the two have been separated
  // ---------------------------------------------------------------------------------------

  /** Running one clear method on an object that owns nothing writes no target. */
  lemma ExecClearBare(h: Heap, r: Ref, exec: ClearExec)
    requires r in h.objs && Bare(h.objs[r].body)
    ensures var h' := ExecClear(h, r, exec, true);
            Bare(h'.objs[r].body) && forall x :: x in h.objs ==> h'.objs[x].target == h.objs[x].target
  {
    hide Positive, IsA, Release;
    match exec
    case ObjectClear => ErrorChains.ReleaseNone(h, r, WeakSlot);
    case ErrorClear =>
      ErrorChains.ReleaseNone(SetData(h, r, h.objs[r].body.data.(code := 0, description := None)), r, CauseSlot);
    case AlphaClear =>
    case DeltaClear => ErrorChains.ReleaseNone(SetData(h, r, h.objs[r].body.data.(b := None)), r, CSlot);
    case UserClear =>
  }

  lemma BlessBare(h: Heap, r: Ref, ty: TypeId)
    requires r in h.objs && Bare(h.objs[r].body)
    ensures Bare(Bless(h, r, ty).objs[r].body)
    ensures forall x :: x in h.objs ==> Bless(h, r, ty).objs[x].target == h.objs[x].target
  {}

  lemma {:induction false} ClearFromBare(h: Heap, r: Ref, chain: seq<Method<ClearExec>>, i: nat)
    requires r in h.objs && Bare(h.objs[r].body) && i <= |chain|
    ensures forall x :: x in h.objs ==> ClearFrom(h, r, chain, i, true).objs[x].target == h.objs[x].target
    decreases i
  {
    hide ExecClear, Bless, Bare;
    if i > 0 {
      var h0 := Bless(h, r, chain[i - 1].ty);
      BlessBare(h, r, chain[i - 1].ty);
      ExecClearBare(h0, r, chain[i - 1].exec);
      ClearFromBare(ExecClear(h0, r, chain[i - 1].exec, true), r, chain, i - 1);
    }
  }

  lemma {:induction false} ClearBare(h: Heap, r: Ref)
    requires r in h.objs && Bare(h.objs[r].body)
    ensures forall x :: x in h.objs ==> ClearObject(h, r, true).objs[x].target == h.objs[x].target
  {
    hide ClearFrom;
    var chain := ClearList(h, h.objs[r].body.ty);
    ClearFromBare(h, r, chain, |chain|);
  }

  lemma {:induction false} DestroyBare(h: Heap, r: Ref)
    requires PoolsSound(h) && Alive(h, r) && h.objs[r].refcount == 0 && Bare(h.objs[r].body)
    ensures forall x :: x in h.objs ==> x in Destroy(h, r).objs && Destroy(h, r).objs[x].target == h.objs[x].target
  {
    hide PoolsSound, ClearObject, FreePool, Frame, Bare, Destroy, Positive, LastResort, Untouched, Fades;
    ClearBare(h, r);
    ClearObjectFrame(h, r, true);
    var h1 := ClearObject(h, r, true);
    FrameAt(h, h1, {r}, r);
    var b := h1.objs[r].body;
    Copies.DestroyShape(h, r);
    Retire(h1, r);
    FrameFree(SetBody(h1, r, b.(deleted := true, teardowns := b.teardowns + 1)), b.pool, {});
  }

  /** So does dropping the last reference to it: a weak reference that it does not know stays set. */
  lemma {:induction false} UnrefBare(h: Heap, r: Ref)
    requires PoolsSound(h) && Alive(h, r) && h.objs[r].refcount == 1 && Bare(h.objs[r].body)
    ensures forall x :: x in h.objs ==> x in Unref(h, r).objs && Unref(h, r).objs[x].target == h.objs[x].target
    ensures !Alive(Unref(h, r), r)
  {
    hide PoolsSound, Destroy, Frame, Bare;
    LastGoes(h, r);
    var h1 := SetCount(h, r, 0);
    PoolsSoundKept(h, h1);
    assert h.objs[r].body.weakRef == None by {
      BareSlots(h.objs[r].body);
      assert Get(h.objs[r].body, WeakSlot) == None;
    }
    DestroyBare(h1, r);
  }

  /** A weak reference that is held and set to an object that has been destroyed. */
  ghost predicate Stale(w: World, v: Ref) {
    && Allowed(w, DerefCall(v)) && v in w.heap.objs
    && w.heap.objs[v].target.Some? && !Alive(w.heap, w.heap.objs[v].target.value)
  }

  lemma StaleIsUnsafe(w: World, v: Ref)
    requires Stale(w, v)
    ensures Allowed(w, DerefCall(v)) && !SafeCall(w.heap, DerefCall(v))
  {}

  /** After the clear the object owns nothing, and the weak reference is still set to it. */
  lemma ClearedBare(h: Heap, r: Ref, v: Ref, held: multiset<Ref>)
    requires Sane(h, held, {}) && Agreed(h) && r in held && v in held && v != r && r in h.objs && v in h.objs
    requires h.objs[r].body.weakRef == Some(v) && h.objs[r].refcount == 1 && h.objs[v].body.ty == WeakRefT
    ensures var h' := ClearObject(h, r, true);
            && Sane(h', held, {}) && r in h'.objs && Bare(h'.objs[r].body) && h'.objs[r].refcount == 1
            && v in h'.objs && h'.objs[v].target == Some(r) && h'.objs[v].body.ty == WeakRefT && h'.types == h.types
  {
    hide Sane, Agreed, ClearObject, Frame, PoolsSound, AgreedBut;
    var h' := ClearObject(h, r, true);
    ClearSane(h, r, held);
    BareSlots(h'.objs[r].body);
    ClearStrands(h, r, v, held);
    SanePools(h, held, {});
    ClearObjectFrame(h, r, true);
    FrameAt(h, h', {r}, r);
    FrameAt(h, h', {r}, v);
    HeldIsGranted(h', r, held, {});
    HeldIsGranted(h', v, held, {});
  }

  lemma DroppedStale(h: Heap, r: Ref, v: Ref, held: multiset<Ref>)
    requires Sane(h, held, {}) && r in held && v in held && v != r && r in h.objs && v in h.objs
    requires Bare(h.objs[r].body) && h.objs[r].refcount == 1 && h.objs[v].target == Some(r)
    requires h.objs[v].body.ty == WeakRefT && WeakRefT in h.types
    ensures Stale(World(Unref(h, r), held - multiset{r}), v)
  {
    hide Sane, Unref, Frame, PoolsSound, Bare;
    var h' := Unref(h, r);
    SanePools(h, held, {});
    SettledAt(h, r, held, {});
    UnrefBare(h, r);
    UnrefFrame(h, r);
    FrameAt(h, h', {}, v);
    assert (held - multiset{r}) + multiset{r} == held;
    PinnedNobody(h, held - multiset{r});
    UnrefSane(h, r, held - multiset{r}, {});
    HeldIsGranted(h', v, held - multiset{r}, {});
  }

  /** An object is created, its weak reference is taken, the object is cleared, and the caller gives it up: a deref
      would go to an object that has been destroyed. */
  lemma DerefUnsafe(types: Types, capacity: nat)
    requires Sound(types)
    ensures exists worlds: seq<World>, calls: seq<Call>, v: Ref ::
              Run(worlds, calls) && worlds[0] == Start(types, capacity) && |worlds| == 5
              && Allowed(worlds[4], DerefCall(v)) && !SafeCall(worlds[4].heap, DerefCall(v))
  {
    hide Sane, Agreed, Outcome, Sound, Stale, SafeCall, Run, ClearObject, Unref;
    ObjectIsThere(types);
    var worlds2, calls2, v := WeakRefRun(types, capacity);
    RunLength(worlds2, calls2);
    var w2 := worlds2[2];
    RunOn(worlds2, calls2, ClearCall(0));
    ClearedBare(w2.heap, 0, v, w2.held);
    ClearOutcome(w2, ClearCall(0));
    var w3 := Outcome(w2, ClearCall(0));
    RunOn(worlds2 + [w3], calls2 + [ClearCall(0)], UnrefCall(0));
    DroppedStale(w3.heap, 0, v, w3.held);
    UnrefOutcome(w3, 0);
    var w4 := Outcome(w3, UnrefCall(0));
    StaleIsUnsafe(w4, v);
    var worlds := worlds2 + [w3] + [w4];
    assert Run(worlds, calls2 + [ClearCall(0)] + [UnrefCall(0)]);
    assert worlds[4] == w4;
  }

  // ---------------------------------------------------------------------------------------
  // Members of a Delta
  // ---------------------------------------------------------------------------------------

  /** Storing the object that the slot holds leaves the slot NULL and the object destroyed. */
  ghost predicate LosesC(w: World, r: Ref, c: Ref) {
    && r in w.held && r in w.heap.objs && c in w.heap.objs && Alive(w.heap, c) && w.heap.objs[r].body.c == Some(c)
    && SetC(w.heap, r, Some(c)).objs[r].body.c == None
    && SetC(w.heap, r, Some(c)).objs[c].body.deleted
  }

  lemma StoredOnce(h: Heap, r: Ref, c: Ref)
    requires r in h.objs && c in h.objs && r != c && h.objs[r].body.c == None && h.objs[c].refcount == 1
    ensures var h1 := Unref(SetC(h, r, Some(c)), c);
            r in h1.objs && c in h1.objs && h1.objs[r].body.c == Some(c) && h1.objs[c].refcount == 1
  {
    hide Destroy, Unset;
  }

  /** An object whose only reference is that of the slot. */
  lemma OneLoses(w: World, r: Ref, c: Ref)
    requires Good(w) && r in w.held && r in w.heap.objs && c in w.heap.objs
    requires w.heap.objs[r].body.c == Some(c) && w.heap.objs[c].refcount == 1
    ensures LosesC(w, r, c)
  {
    hide Sane, SetC, PoolsSound;
    SettledAt(w.heap, c, w.held, {});
    SanePools(w.heap, w.held, {});
    SetCSameExactly(w.heap, r, c);
  }

  lemma OnlySlotKeeps(w: World, r: Ref, c: Ref)
    requires Good(w) && r in w.held && c in w.held && r != c && r in w.heap.objs && c in w.heap.objs
    requires w.heap.objs[r].body.c == None && w.heap.objs[c].refcount == 1 && Casts(w.heap, r, DeltaT)
    ensures LosesC(World(Unref(SetC(w.heap, r, Some(c)), c), w.held - multiset{c}), r, c)
  {
    hide Sane, SetC, Unref, LosesC;
    SetCCallGood(w, r, Some(c));
    var w1 := World(SetC(w.heap, r, Some(c)), w.held);
    UnrefCallGood(w1, c);
    var w2 := World(Unref(w1.heap, c), w1.held - multiset{c});
    StoredOnce(w.heap, r, c);
    assert r in w2.held;
    OneLoses(w2, r, c);
  }

  lemma SelfIsA(types: Types)
    requires DeltaT in types
    ensures IsA(types, DeltaT, DeltaT)
  {}

  /** A Delta and an Object are created, the Object is stored in the Delta and the caller's own reference given back.
      Storing the Object again, as `Delta_get_c` returns it, leaves the Delta without it, and destroys it. */
  lemma SetCLoses(types: Types, capacity: nat)
    requires Sound(types) && DeltaT in types
    ensures exists worlds: seq<World>, calls: seq<Call>, c: Ref ::
              Run(worlds, calls) && worlds[0] == Start(types, capacity) && |worlds| == 5
              && LosesC(worlds[4], 0, c)
  {
    hide Good, Agreed, Outcome, LosesC, Sound, Run, SetC, Unref;
    ObjectIsThere(types);
    var worlds2, calls2, c := TwoMade(types, capacity, DeltaT, ObjectT);
    RunLength(worlds2, calls2);
    var w2 := worlds2[2];
    SelfIsA(types);
    OnlySlotKeeps(w2, 0, c);
    var w3 := Outcome(w2, SetCCall(0, Some(c)));
    COutcome(w2, 0, Some(c));
    UnrefOutcome(w3, c);
    RunOn(worlds2, calls2, SetCCall(0, Some(c)));
    RunOn(worlds2 + [w3], calls2 + [SetCCall(0, Some(c))], UnrefCall(c));
    var worlds := worlds2 + [w3] + [Outcome(w3, UnrefCall(c))];
    assert Run(worlds, calls2 + [SetCCall(0, Some(c))] + [UnrefCall(c)]);
    assert LosesC(worlds[4], 0, c);
  }

  /** The string `b` of an object. */
  function B(w: World, r: Ref): Option<string> {
    if r in w.heap.objs then w.heap.objs[r].body.data.b else None
  }

  lemma DeltaAssigns(types: Types)
    requires Sound(types) && DeltaT in types
    ensures types[DeltaT].assign != []
  {
    assert SoundClass(types, DeltaT);
  }

  lemma BIsSet(w: World, r: Ref, s: string)
    requires Good(w) && r in w.held && r in w.heap.objs && Casts(w.heap, r, DeltaT) && s != ""
    ensures var w' := Outcome(w, SetBCall(r, Some(s)));
            && Good(w') && B(w', r) == Some(s) && r in w'.held && r in w'.heap.objs
            && w'.heap.objs[r].body.ty == w.heap.objs[r].body.ty && w'.heap.types == w.heap.types
  {
    hide Sane, Outcome;
    BOutcome(w, r, Some(s));
    SetBGood(w, r, Some(s));
  }

  lemma SelfAssigned(w: World, x: Ref)
    requires Good(w) && x in w.held && x in w.heap.objs && w.heap.objs[x].body.ty == DeltaT
    requires IsA(w.heap.types, DeltaT, DeltaT) && IsA(w.heap.types, DeltaT, AlphaT)
    requires AssignList(w.heap, DeltaT) != []
    ensures x in Assign(w.heap, x, x, Ignored).0.objs
    ensures Assign(w.heap, x, x, Ignored).0.objs[x].body.data.b == None
  {
    hide Sane, Assign, IsA;
    SelfAssignExactly(w.heap, x, Ignored, w.held);
  }

  /** A Delta is created, given a string, and assigned to itself: the string is gone. */
  lemma SelfAssignEmpties(types: Types, capacity: nat, s: string)
    requires Sound(types) && DeltaT in types && IsA(types, DeltaT, AlphaT) && s != ""
    ensures exists worlds: seq<World>, calls: seq<Call> :: Run(worlds, calls) && worlds[0] == Start(types, capacity)
                                    && |worlds| == 4 && calls[2] == AssignCall(0, 0, false)
                                    && B(worlds[2], 0) == Some(s) && B(worlds[3], 0) == None
  {
    hide Good, Agreed, Outcome, Assign, SetB, IsA;
    var w0 := Start(types, capacity);
    StartGood(types, capacity);
    MadeGood(w0, DeltaT);
    var w1 := Made(w0, DeltaT);
    assert 0 in w1.held;
    SelfIsA(types);
    BIsSet(w1, 0, s);
    var w2 := Outcome(w1, SetBCall(0, Some(s)));
    DeltaAssigns(types);
    SelfAssigned(w2, 0);
    AssignOutcome(w2, 0, 0);
    var worlds := [w0, w1, w2, Outcome(w2, AssignCall(0, 0, false))];
    var calls := [CreateCall(DeltaT, false), SetBCall(0, Some(s)), AssignCall(0, 0, false)];
    assert Run(worlds, calls);
    assert B(worlds[2], 0) == Some(s) && B(worlds[3], 0) == None;
  }
}
