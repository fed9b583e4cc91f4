/** A weak reference stays set for as long as its referent lives. */
module Derefs {
  import opened Options
  import opened Classes
  import opened Heaps
  import opened Cascade
  import opened Accounts
  import opened Calls
  import opened WeakRefs
  import opened WeakCalls
  import opened Runs
  import opened Onward

  /** Every weak reference is still set, unless it is that of an object that went; and no slot has come to point at a
      weak reference that was there before. */
  ghost predicate Stays(h: Heap, h': Heap) {
    && (forall w :: w in h.objs && h.objs[w].target.Some? ==>
          var t := h.objs[w].target.value;
          t in h.objs && (Held(h', t) || h.objs[t].body.weakRef != Some(w)) ==>
            w in h'.objs && h'.objs[w].target == Some(t))
    && (forall t :: t in h.objs && t in h'.objs ==> SlotStays(h, h.objs[t].body.weakRef, h'.objs[t].body.weakRef))
  }

  /** A weak reference slot stays, is nulled, or gets a weak reference that is new. */
  predicate SlotStays(h: Heap, was: Option<Ref>, now: Option<Ref>) {
    now == was || now == None || now.value !in h.objs
  }

  lemma StaysTrans(h0: Heap, h1: Heap, h2: Heap)
    requires Stays(h0, h1) && Stays(h1, h2) && Later(h0, h1) && Later(h1, h2)
    ensures Stays(h0, h2)
  {
    forall w | w in h0.objs && h0.objs[w].target.Some? && h0.objs[w].target.value in h0.objs
               && (Held(h2, h0.objs[w].target.value) || h0.objs[h0.objs[w].target.value].body.weakRef != Some(w))
      ensures w in h2.objs && h2.objs[w].target == h0.objs[w].target
    {
      var t := h0.objs[w].target.value;
      assert t in h1.objs && SlotStays(h0, h0.objs[t].body.weakRef, h1.objs[t].body.weakRef);
      assert Held(h2, t) ==> Held(h1, t);
    }
  }

  /** No target is written. */
  lemma SameStays(h: Heap, h': Heap)
    requires forall x :: x in h.objs ==> x in h'.objs && h'.objs[x].target == h.objs[x].target
    requires forall x :: x in h.objs ==> SlotStays(h, h.objs[x].body.weakRef, h'.objs[x].body.weakRef)
    ensures Stays(h, h')
  {}

  lemma KeptStays(h: Heap, h': Heap)
    requires Kept(h, h')
    ensures Stays(h, h')
  {}

  lemma RefStays(h: Heap, r: Ref)
    ensures Stays(h, AddRef(h, r))
  {
    hide Stays;
    SameStays(h, AddRef(h, r));
  }

  lemma DataStays(h: Heap, r: Ref, d: Data)
    requires r in h.objs
    ensures Stays(h, SetData(h, r, d))
  {
    hide Stays;
    SameStays(h, SetData(h, r, d));
  }

  lemma UnrefStays(h: Heap, r: Ref, lost: set<Ref>)
    requires AgreedBut(h, lost) && PoolsSound(h)
    ensures Stays(h, Unref(h, r))
  {
    hide Unref, PoolsSound, AgreedBut, Stays, Kept;
    UnrefAgreed(h, r, lost);
    KeptStays(h, Unref(h, r));
  }

  /** Clearing an object unsets no weak reference to an object that lives on, not even to the object itself. */
  lemma ClearStays(h: Heap, r: Ref, lost: set<Ref>)
    requires AgreedBut(h, lost) && PoolsSound(h) && r in h.objs
    ensures Stays(h, ClearObject(h, r, true))
  {
    hide ClearObject, PoolsSound, AgreedBut, Stays, Kept;
    AgreedMore(h, lost, lost + WeakOf(h, r));
    ClearObjectAgreed(h, r, true, lost + WeakOf(h, r));
    KeptStays(h, ClearObject(h, r, true));
  }

  lemma SetCStays(h: Heap, r: Ref, c: Option<Ref>, lost: set<Ref>)
    requires AgreedBut(h, lost) && PoolsSound(h) && r in h.objs
    ensures Stays(h, SetC(h, r, c))
  {
    hide AgreedBut, PoolsSound, Unref, Stays, Later;
    var was := h.objs[r].body.c;
    var h1 := if was.Some? then Unref(h, was.value) else h;
    SameStays(h, h);
    LaterRefl(h);
    if was.Some? {
      UnrefStays(h, was.value, lost);
      UnrefLater(h, was.value);
    }
    var h2 := SetC(h, r, c);
    assert r in h1.objs by { LaterKeys(h, h1); }
    SetCLast(h1, r, c);
    StaysTrans(h, h1, h2);
  }

  lemma SetCLast(h1: Heap, r: Ref, c: Option<Ref>)
    requires r in h1.objs
    ensures var h2 := if c.Some? then AddRef(h1, c.value) else h1;
            r in h2.objs
            && var h3 := SetSlot(h2, r, CSlot, if c.Some? && Granted(h1, c.value) then c else None);
               Later(h1, h3) && Stays(h1, h3)
  {
    hide Later, Stays, AddRef;
    var h2 := if c.Some? then AddRef(h1, c.value) else h1;
    LaterRefl(h1);
    SameStays(h1, h1);
    if c.Some? {
      RefLater(h1, c.value);
      RefStays(h1, c.value);
    }
    RefKeys(h1, c);
    var b := Put(h2.objs[r].body, CSlot, if c.Some? && Granted(h1, c.value) then c else None);
    BodyLater(h2, r, b);
    BodyStays(h2, r, b);
    LaterTrans(h1, h2, SetBody(h2, r, b));
    StaysTrans(h1, h2, SetBody(h2, r, b));
  }

  lemma BodyStays(h: Heap, r: Ref, b: Body)
    requires r in h.objs && b.weakRef == h.objs[r].body.weakRef
    ensures Stays(h, SetBody(h, r, b))
  {
    hide Stays;
    SameStays(h, SetBody(h, r, b));
  }

  lemma LaterKeys(h: Heap, h': Heap)
    requires Later(h, h')
    ensures h.objs.Keys <= h'.objs.Keys
  {}

  lemma AssignDeltaStays(h: Heap, to: Ref, from: Ref, lost: set<Ref>)
    requires AgreedBut(h, lost) && PoolsSound(h) && to in h.objs && from in h.objs
    ensures Stays(h, AssignDelta(h, to, from))
  {
    hide AgreedBut, PoolsSound, SetC, Stays, Later;
    var h1 := SetB(h, to, h.objs[from].body.data.b);
    SameStays(h, h1);
    BodyLater(h, to, h1.objs[to].body);
    WriteAgreed(h, to, h1.objs[to].body, lost);
    PoolsSoundKept(h, h1);
    var h2 := SetC(h1, to, h1.objs[from].body.c);
    SetCStays(h1, to, h1.objs[from].body.c, lost);
    SetCLater(h1, to, h1.objs[from].body.c);
    StaysTrans(h, h1, h2);
    LaterTrans(h, h1, h2);
    var h3 := AssignDelta(h, to, from);
    SameStays(h2, h3);
    BodyLater(h2, to, h3.objs[to].body);
    StaysTrans(h, h2, h3);
  }

  lemma ExecAssignStays(h: Heap, to: Ref, from: Ref, exec: AssignExec, err: ErrorLocation, held: multiset<Ref>,
                        lost: set<Ref>)
    requires Sane(h, held + Stowed(err), {to, from}) && Pair(h, to, from, held) && AgreedBut(h, lost)
    ensures Stays(h, ExecAssign(h, to, from, exec, err).0)
  {
    hide Sane, AssignDelta, Throw, Stays, AgreedBut, PoolsSound, Young;
    SanePools(h, held + Stowed(err), {to, from});
    SanePlain(h, held + Stowed(err), {to, from});
    SameStays(h, h);
    match exec
    case AlphaAssign =>
      BodyStays(h, to, h.objs[to].body.(data := h.objs[to].body.data.(a := h.objs[from].body.data.a)));
    case DeltaAssign => SameStays(h, h); AssignDeltaStays(h, to, from, lost);
    case UserAssign => SameStays(h, h);
    case RefusingAssign => SameStays(h, h);
    case ThrowingAssign(code) =>
      ThrowAdds(h, err, code, None);
      SameStays(h, Throw(h, err, code, None).0);
  }

  lemma {:induction false} AssignFromStays(h: Heap, to: Ref, from: Ref, list: seq<Method<AssignExec>>, i: nat,
                                           err: ErrorLocation, held: multiset<Ref>, lost: set<Ref>)
    requires i <= |list| && Sane(h, held + Stowed(err), {to, from}) && Pair(h, to, from, held) && AgreedBut(h, lost)
    ensures Stays(h, AssignFrom(h, to, from, list, i, err).0)
    decreases |list| - i
  {
    hide Sane, ExecAssign, Later, Stays, AgreedBut;
    SameStays(h, h);
    if i < |list| {
      var m := list[i];
      var h1 := Bless(Bless(h, to, m.ty), from, m.ty);
      SameStays(h, h1);
      BlessPair(h, to, from, m.ty, held + Stowed(err), lost);
      ExecAssignSane(h1, to, from, m.exec, err, held);
      ExecAssignStays(h1, to, from, m.exec, err, held, lost);
      ExecAssignLater(h1, to, from, m.exec, err, held);
      var (h2, ok, err1) := ExecAssign(h1, to, from, m.exec, err);
      StaysTrans(h, h1, h2);
      LaterTrans(h, h1, h2);
      if ok && !(err1.Location? && err1.error.Some?) {
        SanePools(h1, held + Stowed(err), {to, from});
        SanePlain(h1, held + Stowed(err), {to, from});
        ExecAssignAgreed(h1, to, from, m.exec, err, lost);
        AssignFromStays(h2, to, from, list, i + 1, err1, held, lost);
        AssignFromLater(h2, to, from, list, i + 1, err1, held);
        StaysTrans(h, h2, AssignFrom(h, to, from, list, i, err).0);
      }
    }
  }

  /** Both objects of an assignment, blessed. */
  lemma BlessPair(h: Heap, to: Ref, from: Ref, ty: TypeId, held: multiset<Ref>, lost: set<Ref>)
    requires Sane(h, held, {to, from}) && to in h.objs && from in h.objs && AgreedBut(h, lost)
    ensures var h1 := Bless(Bless(h, to, ty), from, ty);
            Sane(h1, held, {to, from}) && AgreedBut(h1, lost) && Later(h, h1)
  {
    hide Sane, Later, AgreedBut;
    var h0 := Bless(h, to, ty);
    var h1 := Bless(h0, from, ty);
    BlessSane(h, to, ty, held, {to, from});
    BlessSane(h0, from, ty, held, {to, from});
    BlessAgreed(h, to, ty, lost);
    BlessAgreed(h0, from, ty, lost);
    BodyLater(h, to, h0.objs[to].body);
    BodyLater(h0, from, h1.objs[from].body);
    LaterTrans(h, h0, h1);
  }

  lemma BlessStays(h: Heap, to: Ref, from: Ref, ty: TypeId)
    requires to in h.objs && from in h.objs
    ensures var h' := Bless(Bless(h, to, ty), from, ty); Stays(h, h') && Later(h, h')
  {
    hide Later, Stays;
    var h1 := Bless(h, to, ty);
    var h2 := Bless(h1, from, ty);
    SameStays(h, h2);
    BodyLater(h, to, h.objs[to].body.(ty := ty));
    BodyLater(h1, from, h1.objs[from].body.(ty := ty));
    LaterTrans(h, h1, h2);
  }

  lemma AssignStays(h: Heap, to: Ref, from: Ref, err: ErrorLocation, held: multiset<Ref>, lost: set<Ref>)
    requires Sane(h, held + Stowed(err), {}) && Pair(h, to, from, held) && AgreedBut(h, lost)
    ensures Stays(h, Assign(h, to, from, err).0)
  {
    hide Sane, ClearObject, AssignFrom, Later, Stays, AgreedBut, Bless, Sheds;
    SameStays(h, h);
    var ty := h.objs[to].body.ty;
    var list := AssignList(h, ty);
    if list != [] && h.objs[from].body.ty == ty {
      SanePools(h, held + Stowed(err), {});
      ClearStays(h, to, lost);
      ClearLater(h, to);
      HeldAlso(h, to, from, held, err);
      ClearLosing(h, to, held + Stowed(err), lost);
      AssignStarts(h, to, from, held + Stowed(err));
      var h1 := ClearObject(h, to, true);
      AssignFromStays(h1, to, from, list, 0, err, held, lost + WeakOf(h, to));
      AssignFromLater(h1, to, from, list, 0, err, held);
      AssignFromSane(h1, to, from, list, 0, err, held);
      var h2 := AssignFrom(h1, to, from, list, 0, err).0;
      StaysTrans(h, h1, h2);
      LaterTrans(h, h1, h2);
      BlessStays(h2, to, from, ty);
      StaysTrans(h, h2, Bless(Bless(h2, to, ty), from, ty));
    }
  }

  lemma CreateStays(h: Heap, ty: TypeId, err: ErrorLocation, held: multiset<Ref>)
    requires Sane(h, held, {}) && Stowed(err) == multiset{} && ty in h.types
    ensures Stays(h, Create(h, ty, err).0)
  {
    hide Sane, Create, Stays;
    CreateAdds(h, ty, err, held);
    SameStays(h, Create(h, ty, err).0);
  }

  lemma CopyStays(h: Heap, from: Ref, err: ErrorLocation, held: multiset<Ref>, lost: set<Ref>)
    requires Sane(h, held, {}) && from in held && from in h.objs && Stowed(err) == multiset{} && AgreedBut(h, lost)
    ensures Stays(h, Copy(h, from, err).0)
  {
    hide Sane, Create, Assign, Unref, Later, Stays, AgreedBut;
    var ty := h.objs[from].body.ty;
    HeldIsGranted(h, from, held, {});
    CreateSane(h, ty, err, held);
    CreateStays(h, ty, err, held);
    CreateLater(h, ty, err, held);
    CreateAgreed(h, ty, err, held, lost);
    SaneYoung(h, held, {});
    var (h1, to, err1) := Create(h, ty, err);
    if to.Some? {
      CreateBare(h, ty, err, held);
      var all := held + One(to);
      assert held + One(to) + Stowed(err1) == all + Stowed(err1);
      AssignSane(h1, to.value, from, err1, all);
      AssignStays(h1, to.value, from, err1, all, lost);
      AssignLater(h1, to.value, from, err1, all);
      AssignLosing(h1, to.value, from, err1, all, lost);
      assert lost + {} == lost && WeakOf(h1, to.value) == {};
      var (h2, ok, err2) := Assign(h1, to.value, from, err1);
      StaysTrans(h, h1, h2);
      LaterTrans(h, h1, h2);
      SanePools(h2, all + Stowed(err2), {});
      UnrefStays(h2, to.value, lost);
      UnrefLater(h2, to.value);
      StaysTrans(h, h2, Unref(h2, to.value));
    }
  }

  lemma WeakRefStays(h: Heap, r: Ref, held: multiset<Ref>)
    requires Sane(h, held, {}) && r in held && r in h.objs
    ensures Stays(h, WeakRefTo(h, r).0)
  {
    hide Sane, AttachWeakRef, Stays, NewWeakRef;
    if h.objs[r].body.weakRef.None? {
      SanePools(h, held, {});
      SanePlain(h, held, {});
      AttachShape(h, r);
      NewWeakRefSane(h, r, held, {});
    }
    SameStays(h, WeakRefTo(h, r).0);
  }

  lemma DerefStays(h: Heap, v: Ref)
    requires v in h.objs
    ensures Stays(h, Deref(h, v).0)
  {
    hide Stays, AddRef;
    SameStays(h, h);
    if h.objs[v].target.Some? { RefStays(h, h.objs[v].target.value); }
  }

  lemma HeapStays(w: World, call: Call, lost: set<Ref>)
    requires Good(w) && AgreedBut(w.heap, lost) && Allowed(w, call) && There(w.heap, call)
    ensures Stays(w.heap, HeapAfter(w.heap, call))
  {
    hide Sane, PoolsSound, Young, AgreedBut, Create, Unref, WeakRefTo, Throw, ClearObject, Assign, Copy, SetC, Stays,
         Sheds, AddRef, Deref, SetData;
    var h, held := w.heap, w.held;
    SanePools(h, held, {});
    SanePlain(h, held, {});
    match call
    case CreateCall(ty, reporting) => CreateStays(h, ty, Report(reporting), held);
    case RefCall(r) => RefStays(h, r);
    case UnrefCall(r) => UnrefStays(h, r, lost);
    case WeakRefCall(r) => WeakRefStays(h, r, held);
    case DerefCall(v) => DerefStays(h, v);
    case ThrowCall(cause, code) =>
      ThrowAdds(h, Location(cause), code, None);
      SameStays(h, Throw(h, Location(cause), code, None).0);
    case SetBCall(r, s) => DataStays(h, r, h.objs[r].body.data.(b := Stored(s)));
    case SetCCall(r, c) => SetCStays(h, r, c, lost);
    case SetDCall(r, s) => DataStays(h, r, h.objs[r].body.data.(d := Stored(s)));
    case ClearCall(r) => ClearStays(h, r, lost);
    case AssignCall(to, from, reporting) =>
      assert held + Stowed(Report(reporting)) == held;
      AssignStays(h, to, from, Report(reporting), held, lost);
    case CopyCall(r, reporting) => CopyStays(h, r, Report(reporting), held, lost);
  }

  /** One call of a careful run. */
  lemma CallStays(w: World, call: Call, lost: set<Ref>)
    requires Good(w) && AgreedBut(w.heap, lost) && Allowed(w, call) && There(w.heap, call)
    ensures Stays(w.heap, Outcome(w, call).heap)
  {
    hide Good, AgreedBut, HeapAfter, Outcome, Allowed, Careful, Stays;
    HeapStays(w, call, lost);
    OutcomeHeap(w, call);
  }

  /** In every run a weak reference stays set, unless it is that of an object that went. */
  lemma {:induction false} RunsStay(worlds: seq<World>, calls: seq<Call>, i: nat, j: nat)
    requires Run(worlds, calls) && Good(worlds[0]) && Agreed(worlds[0].heap) && i <= j < |worlds|
    ensures Stays(worlds[i].heap, worlds[j].heap)
    decreases j
  {
    hide Good, Outcome, Allowed, There, Later, Stays, AgreedBut, Lost;
    RunsAreGood(worlds, calls);
    if i < j {
      RunsStay(worlds, calls, i, j - 1);
      RunsMoveOn(worlds, calls, i, j - 1);
      CallLater(worlds[j - 1], calls[j - 1]);
      RunsAgreeBut(worlds, calls, j - 1);
      CallStays(worlds[j - 1], calls[j - 1], Lost(worlds, calls, j - 1));
      StaysTrans(worlds[i].heap, worlds[j - 1].heap, worlds[j].heap);
    } else {
      SameStays(worlds[i].heap, worlds[j].heap);
    }
  }

  /** Once set to an object, a weak reference yields that object exactly as long as the object lives: at any later
      point of any run, `y_WeakRef_deref` returns the object if it is alive, and NULL if it is not. When the weak
      reference has been cut off, the NULL is what the model's `y_ref` makes of a destroyed object, whose count is
      zero; see `DerefIsSafeExactly`. */
  lemma DerefExactlyWhileAlive(worlds: seq<World>, calls: seq<Call>, i: nat, j: nat, w: Ref, o: Ref)
    requires Run(worlds, calls) && Good(worlds[0]) && Agreed(worlds[0].heap) && i <= j < |worlds|
    requires w in worlds[i].heap.objs && worlds[i].heap.objs[w].target == Some(o) && o in worlds[i].heap.objs
    requires w in worlds[j].held
    ensures w in worlds[j].heap.objs
    ensures Deref(worlds[j].heap, w).1 == if Alive(worlds[j].heap, o) then Some(o) else None
  {
    hide Run, Later, Agreed, Sane;
    RunsAreGood(worlds, calls);
    RunsStay(worlds, calls, i, j);
    RunsMoveOn(worlds, calls, i, j);
    GoodMeans(worlds[j]);
    LaterAt(worlds[i].heap, worlds[j].heap, w);
  }

  lemma LaterAt(h: Heap, h': Heap, x: Ref)
    requires Later(h, h') && x in h.objs
    ensures x in h'.objs && (h'.objs[x].target == h.objs[x].target || h'.objs[x].target == None)
  {}
}
