/** What each call of the library uses is alive when it is used, and so throughout every run. */
module SafeCalls {
  import opened Options
  import opened Classes
  import opened Heaps
  import opened Cascade
  import opened Counts
  import opened Accounts
  import opened Calls
  import opened WeakRefs
  import opened WeakCalls
  import opened Runs
  import opened Onward
  import opened Uses
  import opened WeakKinds
  import opened Derefs

  // ---------------------------------------------------------------------------------------
  // What each call uses
  // ---------------------------------------------------------------------------------------

  /** The new object is alive in every turn of the loop in `y_create`, and at its end. An error that an init method
      throws is an object of its own, and new. */
  ghost predicate SafeInitFrom(h: Heap, r: Ref, list: seq<Method<InitExec>>, i: nat, err: ErrorLocation)
    requires i <= |list|
    decreases |list| - i
  {
    && Alive(h, r)
    && (i < |list| ==>
          var (h1, err1) := ExecInit(Bless(h, r, list[i].ty), r, list[i].exec, err);
          if err1.Location? && err1.error.Some? then Alive(h1, r) else SafeInitFrom(h1, r, list, i + 1, err1))
  }

  ghost predicate SafeCreate(h: Heap, ty: TypeId, err: ErrorLocation) {
    SafeInitFrom(Allocate(h, ty), h.next, InitList(h, ty), 0, err)
  }

  ghost predicate SafeWeakRef(h: Heap, r: Ref) {
    && Alive(h, r)
    && var h1 := if h.objs[r].body.weakRef.Some? then h else AttachWeakRef(h, r);
       Alive(h1, r) && (h1.objs[r].body.weakRef.Some? ==> SafeRef(h1, h1.objs[r].body.weakRef.value))
  }

  ghost predicate SafeDeref(h: Heap, w: Ref) {
    Alive(h, w) && (h.objs[w].target.Some? ==> SafeRef(h, h.objs[w].target.value))
  }

  /** `Delta_set_c`: the object is alive to the end, and the new `c` is when it is taken. */
  ghost predicate SafeSetC(h: Heap, r: Ref, c: Option<Ref>) {
    && Alive(h, r)
    && var was := h.objs[r].body.c;
       (was.Some? ==> SafeUnref(h, was.value))
       && var h1 := if was.Some? then Unref(h, was.value) else h;
          Alive(h1, r) && (c.Some? ==> SafeRef(h1, c.value))
  }

  ghost predicate SafeAssignDelta(h: Heap, to: Ref, from: Ref) {
    && Alive(h, to) && Alive(h, from)
    && var h1 := SetB(h, to, h.objs[from].body.data.b);
       SafeSetC(h1, to, h1.objs[from].body.c)
       && var h2 := SetC(h1, to, h1.objs[from].body.c);
          Alive(h2, to) && Alive(h2, from)
  }

  ghost predicate SafeExecAssign(h: Heap, to: Ref, from: Ref, exec: AssignExec) {
    && Alive(h, to) && Alive(h, from)
    && (exec.DeltaAssign? && Casts(h, to, DeltaT) && Casts(h, from, DeltaT) ==> SafeAssignDelta(h, to, from))
  }

  /** Both objects are alive in every turn of the loop in `y_assign`, and at its end. */
  ghost predicate SafeAssignFrom(h: Heap, to: Ref, from: Ref, list: seq<Method<AssignExec>>, i: nat, err: ErrorLocation)
    requires i <= |list|
    decreases |list| - i
  {
    && Alive(h, to) && Alive(h, from)
    && (i < |list| ==>
          var h1 := Bless(Bless(h, to, list[i].ty), from, list[i].ty);
          SafeExecAssign(h1, to, from, list[i].exec)
          && var (h2, ok, err1) := ExecAssign(h1, to, from, list[i].exec, err);
             if !ok || (err1.Location? && err1.error.Some?) then Alive(h2, to) && Alive(h2, from)
             else SafeAssignFrom(h2, to, from, list, i + 1, err1))
  }

  ghost predicate SafeAssign(h: Heap, to: Ref, from: Ref, err: ErrorLocation) {
    && Alive(h, to) && Alive(h, from)
    && var list := AssignList(h, h.objs[to].body.ty);
       (list != [] && h.objs[from].body.ty == h.objs[to].body.ty ==>
          SafeClear(h, to, true) && SafeAssignFrom(ClearObject(h, to, true), to, from, list, 0, err))
  }

  ghost predicate SafeCopy(h: Heap, from: Ref, err: ErrorLocation) {
    && Alive(h, from) && SafeCreate(h, h.objs[from].body.ty, err)
    && var (h1, to, err1) := Create(h, h.objs[from].body.ty, err);
       to.Some? ==>
         if err1.Location? && err1.error.Some? then SafeUnref(h1, to.value)
         else
           SafeAssign(h1, to.value, from, err1)
           && var (h2, ok, err2) := Assign(h1, to.value, from, err1);
              (!ok || (err2.Location? && err2.error.Some?) ==> SafeUnref(h2, to.value))
  }

  ghost predicate SafeCall(h: Heap, call: Call) {
    match call
    case CreateCall(ty, reporting) => SafeCreate(h, ty, Report(reporting))
    case RefCall(r) => SafeRef(h, r)
    case UnrefCall(r) => SafeUnref(h, r)
    case WeakRefCall(r) => SafeWeakRef(h, r)
    case DerefCall(w) => SafeDeref(h, w)
    case ThrowCall(_, _) => true
    case SetBCall(r, _) => Alive(h, r)
    case SetCCall(r, c) => SafeSetC(h, r, c)
    case SetDCall(r, _) => Alive(h, r)
    case ClearCall(r) => SafeClear(h, r, true)
    case AssignCall(to, from, reporting) => SafeAssign(h, to, from, Report(reporting))
    case CopyCall(r, reporting) => SafeCopy(h, r, Report(reporting))
  }

  // ---------------------------------------------------------------------------------------
  // Each call is safe
  // ---------------------------------------------------------------------------------------

  /** An object that a caller holds is alive, also while a call is working on it. */
  lemma HeldIsAlive(h: Heap, r: Ref, held: multiset<Ref>, busy: set<Ref>)
    requires Sane(h, held, busy) && r in held
    ensures Alive(h, r)
  {
    hide Balanced;
    HeldIsGranted(h, r, held, busy);
  }

  /** An object that is alive may be reffed: so is its weak reference, which is locked around it. */
  lemma AliveIsSafe(h: Heap, r: Ref, held: multiset<Ref>, busy: set<Ref>)
    requires Sane(h, held, busy) && Alive(h, r)
    ensures SafeRef(h, r)
  {
    hide Balanced, Pinned;
    if h.objs[r].body.weakRef.Some? {
      SlotIsAlive(h, Edge(r, WeakSlot), held, {}, busy, held);
    }
  }

  lemma {:induction false} InitFromIsSafe(h: Heap, r: Ref, list: seq<Method<InitExec>>, i: nat, err: ErrorLocation,
                                          held: multiset<Ref>)
    requires i <= |list| && Sane(h, held, {}) && Unfinished(h, r) && Stowed(err) == multiset{}
    requires forall m :: m in list ==> m.ty in h.types
    ensures SafeInitFrom(h, r, list, i, err)
    decreases |list| - i
  {
    hide Sane, ExecInit, Bless;
    assert held + Stowed(err) == held;
    if i < |list| {
      InitStepSane(h, r, list[i], err, held);
      var (h1, err1) := ExecInit(Bless(h, r, list[i].ty), r, list[i].exec, err);
      if !(err1.Location? && err1.error.Some?) {
        assert held + Stowed(err1) == held;
        InitFromIsSafe(h1, r, list, i + 1, err1, held);
      }
    }
  }

  lemma CreateIsSafe(h: Heap, ty: TypeId, err: ErrorLocation, held: multiset<Ref>)
    requires Sane(h, held, {}) && Stowed(err) == multiset{} && ty in h.types
    ensures SafeCreate(h, ty, err)
  {
    hide Sane, Allocate, SafeInitFrom, Unfinished;
    CreateStarts(h, ty, held);
    InitFromIsSafe(Allocate(h, ty), h.next, InitList(h, ty), 0, err, held + multiset{h.next});
  }

  lemma WeakRefIsSafe(h: Heap, r: Ref, held: multiset<Ref>)
    requires Sane(h, held, {}) && r in held && r in h.objs
    ensures SafeWeakRef(h, r)
  {
    hide Sane, AttachWeakRef;
    HeldIsAlive(h, r, held, {});
    var h1 := if h.objs[r].body.weakRef.Some? then h else AttachWeakRef(h, r);
    if h.objs[r].body.weakRef.None? { AttachSane(h, r, held); }
    HeldIsAlive(h1, r, held, {});
    if h1.objs[r].body.weakRef.Some? {
      WeakSlotHeld(h1, r, held);
      SettledAt(h1, h1.objs[r].body.weakRef.value, held, {});
      AliveIsSafe(h1, h1.objs[r].body.weakRef.value, held, {});
    }
  }

  /** `Delta_set_c` on a busy object, with a new `c` that is alive once the old one is released. */
  lemma SetCIsSafe(h: Heap, r: Ref, c: Option<Ref>, held: multiset<Ref>, busy: set<Ref>)
    requires Sane(h, held, busy) && r in busy && r in h.objs && r in held
    requires var h1 := if h.objs[r].body.c.Some? then Unref(h, h.objs[r].body.c.value) else h;
             c.Some? ==> Alive(h1, c.value)
    ensures SafeSetC(h, r, c)
  {
    hide Sane, Unref, SafeUnref, SafeRef;
    var was := h.objs[r].body.c;
    HeldIsAlive(h, r, held, busy);
    if was.Some? {
      ReleaseCIsSafe(h, r, held, busy);
      if c.Some? { NulledIsSafe(h, Unref(h, was.value), r, c.value, held, busy); }
    } else if c.Some? {
      AliveIsSafe(h, c.value, held, busy);
    }
  }

  lemma ReleaseCIsSafe(h: Heap, r: Ref, held: multiset<Ref>, busy: set<Ref>)
    requires Sane(h, held, busy) && r in busy && r in h.objs && h.objs[r].body.c.Some?
    ensures SafeUnref(h, h.objs[r].body.c.value) && Alive(Unref(h, h.objs[r].body.c.value), r)
  {
    hide Balanced, Unref, SafeUnref;
    var was := h.objs[r].body.c.value;
    var given := {} + {Edge(r, CSlot)};
    HandOver(h, Edge(r, CSlot), was, held, {}, busy);
    assert forall e :: e in given ==> !OnLoan(h, e);
    UnrefIsSafe(h, was, held, given, busy);
    UnrefBalances(h, was, held, given, busy);
  }

  /** Nulling the `c` slot afterwards makes no difference to which objects are alive. */
  lemma NulledIsSafe(h: Heap, h1: Heap, r: Ref, c: Ref, held: multiset<Ref>, busy: set<Ref>)
    requires Sane(h, held, busy) && r in busy && r in h.objs && h.objs[r].body.c.Some?
    requires h1 == Unref(h, h.objs[r].body.c.value) && Alive(h1, c)
    ensures SafeRef(h1, c)
  {
    hide Sane, Unref;
    DropSane(h, r, CSlot, held, busy);
    var h2 := SetSlot(h1, r, CSlot, None);
    assert Get(h2.objs[r].body, WeakSlot) == Get(h1.objs[r].body, WeakSlot);
    AliveIsSafe(h2, c, held, busy);
  }

  /** What a caller holds outlives the release of a slot. */
  lemma HeldOutlives(h: Heap, r: Ref, c: Ref, held: multiset<Ref>, busy: set<Ref>)
    requires Sane(h, held, busy) && r in busy && r in h.objs && h.objs[r].body.c.Some? && c in held
    ensures Alive(Unref(h, h.objs[r].body.c.value), c)
  {
    hide Sane, Unref;
    DropSane(h, r, CSlot, held, busy);
    HeldIsAlive(SetSlot(Unref(h, h.objs[r].body.c.value), r, CSlot, None), c, held, busy);
  }

  /** So does what the slot of another object points at. */
  lemma SlotOutlives(h: Heap, to: Ref, from: Ref, held: multiset<Ref>)
    requires Sane(h, held, {to, from}) && Pair(h, to, from, held) && to != from
    requires h.objs[to].body.c.Some? && h.objs[from].body.c.Some?
    ensures Alive(Unref(h, h.objs[to].body.c.value), h.objs[from].body.c.value)
  {
    hide Sane, Unref;
    DropSane(h, to, CSlot, held, {to, from});
    DropFrom(h, to, from, held);
    var h2 := SetSlot(Unref(h, h.objs[to].body.c.value), to, CSlot, None);
    SlotIsAliveIn(h2, from, held, {to, from});
  }

  lemma SlotIsAliveIn(h: Heap, r: Ref, held: multiset<Ref>, busy: set<Ref>)
    requires Sane(h, held, busy) && r in h.objs && h.objs[r].body.c.Some?
    ensures Alive(h, h.objs[r].body.c.value)
  {
    hide Balanced, Pinned;
    SlotIsAlive(h, Edge(r, CSlot), held, {}, busy, held);
  }

  lemma AssignDeltaIsSafe(h: Heap, to: Ref, from: Ref, held: multiset<Ref>)
    requires Sane(h, held, {to, from}) && Pair(h, to, from, held)
    requires to == from ==> h.objs[to].body.c == None
    ensures SafeAssignDelta(h, to, from)
  {
    hide Sane, SetC, SafeSetC, Unref;
    HeldIsAlive(h, to, held, {to, from});
    HeldIsAlive(h, from, held, {to, from});
    var h1 := SetB(h, to, h.objs[from].body.data.b);
    var c := h1.objs[from].body.c;
    DataSane(h, to, h1.objs[to].body.data, held, {to, from});
    if c.Some? {
      SlotIsAliveIn(h1, from, held, {to, from});
      if h1.objs[to].body.c.Some? { SlotOutlives(h1, to, from, held); }
    }
    SetCIsSafe(h1, to, c, held, {to, from});
    SetCSane(h1, to, c, held, {to, from});
    HeldIsAlive(SetC(h1, to, c), to, held, {to, from});
    HeldIsAlive(SetC(h1, to, c), from, held, {to, from});
  }

  lemma ExecAssignIsSafe(h: Heap, to: Ref, from: Ref, exec: AssignExec, held: multiset<Ref>)
    requires Sane(h, held, {to, from}) && Pair(h, to, from, held)
    requires to == from ==> h.objs[to].body.c == None
    ensures SafeExecAssign(h, to, from, exec)
  {
    hide Sane, SafeAssignDelta;
    HeldIsAlive(h, to, held, {to, from});
    HeldIsAlive(h, from, held, {to, from});
    if exec.DeltaAssign? { AssignDeltaIsSafe(h, to, from, held); }
  }

  /** An object without a `c` that is assigned to itself does not get one. */
  lemma SelfKeepsNone(h: Heap, x: Ref, exec: AssignExec, err: ErrorLocation, held: multiset<Ref>)
    requires Sane(h, held + Stowed(err), {x, x}) && Pair(h, x, x, held) && h.objs[x].body.c == None
    ensures var h' := ExecAssign(h, x, x, exec, err).0; x in h'.objs && h'.objs[x].body.c == None
  {
    hide Sane, SetC, Throw;
    ExecAssignSane(h, x, x, exec, err, held);
    if exec.DeltaAssign? && Casts(h, x, DeltaT) {
      var h1 := SetB(h, x, h.objs[x].body.data.b);
      DataSane(h, x, h1.objs[x].body.data, held + Stowed(err), {x, x});
      SetCSane(h1, x, None, held + Stowed(err), {x, x});
    }
  }

  lemma {:induction false} AssignFromIsSafe(h: Heap, to: Ref, from: Ref, list: seq<Method<AssignExec>>, i: nat,
                                            err: ErrorLocation, held: multiset<Ref>)
    requires i <= |list| && Sane(h, held + Stowed(err), {to, from}) && Pair(h, to, from, held)
    requires to == from ==> h.objs[to].body.c == None
    ensures SafeAssignFrom(h, to, from, list, i, err)
    decreases |list| - i
  {
    hide Sane, ExecAssign, SafeExecAssign, Alive;
    var all := held + Stowed(err);
    HeldIsAlive(h, to, all, {to, from});
    HeldIsAlive(h, from, all, {to, from});
    if i < |list| {
      var m := list[i];
      var h1 := Bless(Bless(h, to, m.ty), from, m.ty);
      BlessSane(h, to, m.ty, all, {to, from});
      BlessSane(Bless(h, to, m.ty), from, m.ty, all, {to, from});
      HeldAlso(h1, to, from, held, err);
      ExecAssignIsSafe(h1, to, from, m.exec, all);
      ExecAssignSane(h1, to, from, m.exec, err, held);
      if to == from { SelfKeepsNone(h1, to, m.exec, err, held); }
      var (h2, ok, err1) := ExecAssign(h1, to, from, m.exec, err);
      HeldIsAlive(h2, to, held + Stowed(err1), {to, from});
      HeldIsAlive(h2, from, held + Stowed(err1), {to, from});
      if ok && !(err1.Location? && err1.error.Some?) {
        AssignFromIsSafe(h2, to, from, list, i + 1, err1, held);
      }
    }
  }

  /** Clearing an object that the caller holds. */
  lemma ClearCallIsSafe(h: Heap, r: Ref, held: multiset<Ref>)
    requires Sane(h, held, {}) && r in held && Weakly(h)
    ensures SafeClear(h, r, true)
  {
    hide Balanced, Pinned, SafeClear, Weakly;
    HeldIsGranted(h, r, held, {});
    Engage(h, r, held, {});
    OwningNothing(r);
    ClearIsSafe(h, r, true, held, {}, {} + {r});
  }

  lemma AssignIsSafe(h: Heap, to: Ref, from: Ref, err: ErrorLocation, held: multiset<Ref>)
    requires Sane(h, held + Stowed(err), {}) && Pair(h, to, from, held) && Weakly(h)
    ensures SafeAssign(h, to, from, err)
  {
    hide Sane, ClearObject, SafeClear, SafeAssignFrom, Covered, Alive, Weakly;
    var all := held + Stowed(err);
    HeldIsAlive(h, to, all, {});
    HeldIsAlive(h, from, all, {});
    var list := AssignList(h, h.objs[to].body.ty);
    if list != [] && h.objs[from].body.ty == h.objs[to].body.ty {
      ClearCallIsSafe(h, to, all);
      HeldAlso(h, to, from, held, err);
      AssignStarts(h, to, from, all);
      var h1 := ClearObject(h, to, true);
      assert Get(h1.objs[to].body, CSlot) == None;
      AssignFromIsSafe(h1, to, from, list, 0, err, held);
    }
  }

  /** New objects have no weak reference. */
  lemma WeaklyGrows(h: Heap, h': Heap)
    requires Weakly(h) && Adds(h, h')
    ensures Weakly(h')
  {}

  lemma CopyIsSafe(h: Heap, from: Ref, err: ErrorLocation, held: multiset<Ref>)
    requires Sane(h, held, {}) && from in held && from in h.objs && Stowed(err) == multiset{} && Weakly(h)
    ensures SafeCopy(h, from, err)
  {
    hide Sane, Create, Assign, SafeUnref, SafeCreate, SafeAssign, Alive, Weakly, Adds;
    var ty := h.objs[from].body.ty;
    HeldIsGranted(h, from, held, {});
    HeldIsAlive(h, from, held, {});
    CreateIsSafe(h, ty, err, held);
    CreateSane(h, ty, err, held);
    SaneYoung(h, held, {});
    var (h1, to, err1) := Create(h, ty, err);
    if to.Some? {
      var all := held + One(to);
      assert held + One(to) + Stowed(err1) == all + Stowed(err1);
      HeldIsGranted(h1, to.value, all + Stowed(err1), {});
      CreateAdds(h, ty, err, held);
      WeaklyGrows(h, h1);
      AssignIsSafe(h1, to.value, from, err1, all);
      AssignSane(h1, to.value, from, err1, all);
      var (h2, ok, err2) := Assign(h1, to.value, from, err1);
      assert all + Stowed(err2) == (held + Stowed(err2)) + multiset{to.value};
      UnrefCallIsSafe(h2, to.value, held + Stowed(err2));
    }
  }

  lemma UnrefCallIsSafe(h: Heap, r: Ref, held: multiset<Ref>)
    requires Sane(h, held + multiset{r}, {})
    ensures SafeUnref(h, r)
  {
    hide Balanced, SafeUnref;
    UnrefIsSafe(h, r, held, {}, {});
  }

  lemma SetCCallIsSafe(h: Heap, r: Ref, c: Option<Ref>, held: multiset<Ref>)
    requires Sane(h, held, {}) && r in held && r in h.objs && (c.Some? ==> c.value in held)
    ensures SafeSetC(h, r, c)
  {
    hide Sane, Unref, SafeSetC;
    Engage(h, r, held, {});
    if c.Some? {
      HeldIsAlive(h, c.value, held, {});
      if h.objs[r].body.c.Some? { HeldOutlives(h, r, c.value, held, {} + {r}); }
    }
    SetCIsSafe(h, r, c, held, {} + {r});
  }

  /** Every call by a caller that uses references it holds touches live objects only. For `y_WeakRef_deref` this takes
      agreement: the target of a weak reference is not counted. */
  lemma CallIsSafe(w: World, call: Call)
    requires Good(w) && Allowed(w, call) && There(w.heap, call) && Weakly(w.heap)
    requires call.DerefCall? ==> Agreed(w.heap)
    ensures SafeCall(w.heap, call)
  {
    hide Sane, AgreedBut, SafeCreate, SafeUnref, SafeRef, SafeWeakRef, SafeSetC, SafeClear, SafeAssign, SafeCopy, Alive,
         Unref, Weakly, Deref;
    var h, held := w.heap, w.held;
    match call
    case CreateCall(ty, reporting) => CreateIsSafe(h, ty, Report(reporting), held);
    case RefCall(r) => HeldIsAlive(h, r, held, {}); AliveIsSafe(h, r, held, {});
    case UnrefCall(r) =>
      assert (held - multiset{r}) + multiset{r} == held;
      UnrefCallIsSafe(h, r, held - multiset{r});
    case WeakRefCall(r) => WeakRefIsSafe(h, r, held);
    case DerefCall(v) =>
      HeldIsAlive(h, v, held, {});
      DerefFinds(h, v, held, {});
      if h.objs[v].target.Some? { AliveIsSafe(h, h.objs[v].target.value, held, {}); }
    case ThrowCall(_, _) =>
    case SetBCall(r, _) => HeldIsAlive(h, r, held, {});
    case SetCCall(r, c) => SetCCallIsSafe(h, r, c, held);
    case SetDCall(r, _) => HeldIsAlive(h, r, held, {});
    case ClearCall(r) => ClearCallIsSafe(h, r, held);
    case AssignCall(to, from, reporting) =>
      assert held + Stowed(Report(reporting)) == held;
      AssignIsSafe(h, to, from, Report(reporting), held);
    case CopyCall(r, reporting) => CopyIsSafe(h, r, Report(reporting), held);
  }

  // ---------------------------------------------------------------------------------------
  // When a deref is safe
  // ---------------------------------------------------------------------------------------

  /** The object that a call clears is held, and afterwards does not know its weak reference any more. */
  lemma ClearedNulls(w: World, call: Call)
    requires Good(w) && Allowed(w, call) && There(w.heap, call) && Cleared(w.heap, call).Some?
    ensures var o, w' := Cleared(w.heap, call).value, Outcome(w, call);
            o in w.held && Good(w') && o in w'.held && o in w'.heap.objs && w'.heap.objs[o].body.weakRef == None
  {
    hide Sane, ClearObject, Assign, HeapAfter;
    CallGood(w, call);
    match call
    case ClearCall(r) =>
      ClearSane(w.heap, r, w.held);
      assert Get(ClearObject(w.heap, r, true).objs[r].body, WeakSlot) == None;
    case AssignCall(to, from, reporting) =>
      ReportNothing(w.held, reporting);
      AssignNulls(w.heap, to, from, Report(reporting), w.held);
    case _ =>
  }

  /** A weak reference that has been cut off stays set to its referent for good, dead or alive. */
  lemma CutOffStaysSet(worlds: seq<World>, calls: seq<Call>, k: nat, j: nat, v: Ref)
    requires Run(worlds, calls) && Good(worlds[0]) && Agreed(worlds[0].heap) && k < j < |worlds|
    requires v in CutOff(worlds[k].heap, calls[k])
    ensures v in worlds[j].heap.objs && worlds[j].heap.objs[v].target == Cleared(worlds[k].heap, calls[k])
    ensures worlds[j].heap.objs[v].target.value in worlds[j].heap.objs
  {
    hide Good, Outcome, Allowed, There, Later, Agreed;
    var w, w', o := worlds[k], worlds[k + 1], Cleared(worlds[k].heap, calls[k]).value;
    RunsAreGood(worlds, calls);
    RunsAgreeBut(worlds, calls, k);
    ClearedNulls(w, calls[k]);
    GoodHeld(w, o);
    GoodHeld(w', o);
    RunsStay(worlds, calls, k, k + 1);
    RunsStay(worlds, calls, k + 1, j);
    RunsMoveOn(worlds, calls, k + 1, j);
    LaterKeys(w'.heap, worlds[j].heap);
  }

  lemma GoodHeld(w: World, r: Ref)
    requires Good(w) && r in w.held
    ensures Held(w.heap, r)
  {
    hide Sane;
    HeldIsGranted(w.heap, r, w.held, {});
  }

  /** The weak reference has been cut off from its referent, and its referent has been destroyed since. */
  ghost predicate Dangles(worlds: seq<World>, calls: seq<Call>, j: nat, v: Ref)
    requires j <= |calls| && j < |worlds|
  {
    exists k :: 0 <= k < j && v in CutOff(worlds[k].heap, calls[k])
                && !Alive(worlds[j].heap, Cleared(worlds[k].heap, calls[k]).value)
  }

  lemma DanglingIsUnsafe(worlds: seq<World>, calls: seq<Call>, j: nat, v: Ref)
    requires Run(worlds, calls) && Good(worlds[0]) && Agreed(worlds[0].heap) && j < |worlds|
    requires Dangles(worlds, calls, j, v)
    ensures !SafeDeref(worlds[j].heap, v)
  {
    hide Good, Run, Agreed, WeakOf, Reassigns;
    RunLength(worlds, calls);
    var k :| 0 <= k < j && v in CutOff(worlds[k].heap, calls[k])
             && !Alive(worlds[j].heap, Cleared(worlds[k].heap, calls[k]).value);
    CutOffStaysSet(worlds, calls, k, j, v);
  }

  lemma OthersAreSafe(worlds: seq<World>, calls: seq<Call>, j: nat, v: Ref)
    requires Run(worlds, calls) && Good(worlds[0]) && Agreed(worlds[0].heap) && j < |worlds| && v in worlds[j].held
    requires !Dangles(worlds, calls, j, v)
    ensures SafeDeref(worlds[j].heap, v)
  {
    hide Sane, Run, Agreed, AgreedBut, CutOff, Cleared;
    RunLength(worlds, calls);
    RunsAreGood(worlds, calls);
    var w := worlds[j];
    HeldIsAlive(w.heap, v, w.held, {});
    var t := w.heap.objs[v].target;
    if t.Some? {
      if v in Lost(worlds, calls, j) {
        var k :| 0 <= k < j && v in CutOff(worlds[k].heap, calls[k]);
        CutOffStaysSet(worlds, calls, k, j, v);
      } else {
        RunsAgreeBut(worlds, calls, j);
        DerefFinds(w.heap, v, w.held, Lost(worlds, calls, j));
      }
      AliveIsSafe(w.heap, t.value, w.held, {});
    }
  }

  /** At any point of any run: a deref of a weak reference that the caller holds uses a destroyed object if and only if
      an earlier call cleared the referent, or assigned over it, while the weak reference was its own, and the referent
      has been destroyed since. No other deref is affected, and a cut-off one is harmless while its referent lives. */
  lemma DerefIsSafeExactly(worlds: seq<World>, calls: seq<Call>, j: nat, v: Ref)
    requires Run(worlds, calls) && Good(worlds[0]) && Agreed(worlds[0].heap) && j < |worlds|
    requires Allowed(worlds[j], DerefCall(v))
    ensures SafeCall(worlds[j].heap, DerefCall(v)) <==> !Dangles(worlds, calls, j, v)
  {
    hide Good, Run, Agreed, Dangles, SafeDeref;
    RunLength(worlds, calls);
    if Dangles(worlds, calls, j, v) {
      DanglingIsUnsafe(worlds, calls, j, v);
    } else {
      OthersAreSafe(worlds, calls, j, v);
    }
  }

  /** In no run does any call, at any depth of its cascades, use an object that has been destroyed, except a deref in a
      world whose weak references do not agree; and in a careful run there is no such world. From a world in which they
      agree on, exactly the derefs of dangling weak references do. */
  lemma RunsAreSafe(worlds: seq<World>, calls: seq<Call>)
    requires Run(worlds, calls) && Good(worlds[0]) && WeakTyped(worlds[0].heap) && Aging(worlds[0].heap)
    ensures forall i :: 0 <= i < |calls| ==>
              SafeCall(worlds[i].heap, calls[i]) || (calls[i].DerefCall? && !Agreed(worlds[i].heap))
    ensures Agreed(worlds[0].heap) && (forall i :: 0 <= i < |calls| ==> Careful(worlds[i], calls[i])) ==>
              forall i :: 0 <= i < |calls| ==> SafeCall(worlds[i].heap, calls[i])
    ensures |worlds| == |calls| + 1
    ensures Agreed(worlds[0].heap) ==>
              forall i :: 0 <= i < |calls| ==>
                (SafeCall(worlds[i].heap, calls[i])
                 <==> !(calls[i].DerefCall? && Dangles(worlds, calls, i, calls[i].w)))
  {
    hide Good, Outcome, Allowed, There, Agreed, Careful, SafeCall, Weakly, WeakTyped, Aging, Dangles;
    RunsAreGood(worlds, calls);
    RunsAreWeakly(worlds, calls);
    forall i | 0 <= i < |calls|
      ensures SafeCall(worlds[i].heap, calls[i]) || (calls[i].DerefCall? && !Agreed(worlds[i].heap))
    {
      if !calls[i].DerefCall? || Agreed(worlds[i].heap) {
        CallIsSafe(worlds[i], calls[i]);
      }
    }
    if Agreed(worlds[0].heap) && forall i :: 0 <= i < |calls| ==> Careful(worlds[i], calls[i]) {
      RunsAgree(worlds, calls);
    }
    if Agreed(worlds[0].heap) {
      forall i | 0 <= i < |calls|
        ensures SafeCall(worlds[i].heap, calls[i]) <==> !(calls[i].DerefCall? && Dangles(worlds, calls, i, calls[i].w))
      {
        if calls[i].DerefCall? { DerefIsSafeExactly(worlds, calls, i, calls[i].w); }
      }
    }
  }
}
