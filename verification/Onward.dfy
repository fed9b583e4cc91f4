/** What no call ever undoes: a count that has reached zero, a weak reference that is unset, strings that are
    NULL or not empty, and weak references that are younger than their referents. */
module Onward {
  import opened Options
  import opened Pools
  import opened Classes
  import opened Heaps
  import opened Cascade
  import opened Accounts
  import opened Calls
  import opened ErrorChains
  import opened WeakCalls
  import opened Runs

  /** The strings of an object are NULL or not empty. */
  predicate Tidy(d: Data) {
    d.b != Some("") && d.d != Some("")
  }

  ghost predicate AllTidy(h: Heap) {
    forall x :: x in h.objs ==> Tidy(h.objs[x].body.data)
  }

  /** No object disappears, a count of zero stays zero, a weak reference is only ever unset, and strings stay
      tidy and weak references young. */
  ghost predicate Later(h: Heap, h': Heap) {
    && h.objs.Keys <= h'.objs.Keys
    && (AllTidy(h) ==> AllTidy(h'))
    && (Aging(h) ==> Aging(h'))
    && (forall x :: x in h.objs && h.objs[x].refcount == 0 ==> h'.objs[x].refcount == 0)
    && (forall x :: x in h.objs ==> h'.objs[x].target == h.objs[x].target || h'.objs[x].target == None)
  }

  lemma LaterTrans(h0: Heap, h1: Heap, h2: Heap)
    requires Later(h0, h1) && Later(h1, h2)
    ensures Later(h0, h2)
  {}

  lemma LaterRefl(h: Heap)
    ensures Later(h, h)
  {}

  lemma FrameLater(h: Heap, h': Heap, busy: set<Ref>)
    requires Frame(h, h', busy)
    ensures Later(h, h')
  {
    forall x | x in h.objs
      ensures Tidy(h.objs[x].body.data) ==> Tidy(h'.objs[x].body.data)
      ensures h'.objs[x].body.weakRef == h.objs[x].body.weakRef || h'.objs[x].body.weakRef == None
      ensures h.objs[x].refcount == 0 ==> h'.objs[x].refcount == 0
      ensures h'.objs[x].target == h.objs[x].target || h'.objs[x].target == None
    {
      assert Fades(h.objs[x], h'.objs[x]);
      assert Get(h'.objs[x].body, WeakSlot) == Get(h.objs[x].body, WeakSlot) || Get(h'.objs[x].body, WeakSlot) == None;
    }
  }

  lemma UnrefLater(h: Heap, r: Ref)
    requires PoolsSound(h)
    ensures Later(h, Unref(h, r))
  {
    hide Frame, Unref, PoolsSound, Later;
    UnrefFrame(h, r);
    FrameLater(h, Unref(h, r), {});
  }

  lemma RefLater(h: Heap, r: Ref)
    ensures Later(h, AddRef(h, r))
  {}

  lemma BodyLater(h: Heap, r: Ref, b: Body)
    requires r in h.objs && (Tidy(h.objs[r].body.data) ==> Tidy(b.data))
    requires b.weakRef == h.objs[r].body.weakRef || (b.weakRef.Some? && r < b.weakRef.value)
    ensures Later(h, SetBody(h, r, b))
  {}

  predicate Plain(b: Body) {
    Tidy(b.data) && b.weakRef == None
  }

  /** The objects that are new are tidy, and without a weak reference. */
  ghost predicate Adds(h: Heap, h': Heap) {
    && (forall x :: x in h.objs ==> x in h'.objs && h'.objs[x] == h.objs[x])
    && (forall x :: x in h'.objs && x !in h.objs ==> Plain(h'.objs[x].body))
  }

  lemma AddsLater(h: Heap, h': Heap)
    requires Adds(h, h')
    ensures Later(h, h')
  {}

  lemma {:induction false} ThrowAdds(h: Heap, err: ErrorLocation, code: int, description: Option<string>)
    requires InitList(h, ErrorT) == [] && Young(h)
    ensures Adds(h, Throw(h, err, code, description).0)
  {
    if err.Location? {
      ThrowOne(h, err, code, description);
    }
  }

  lemma ThrowLater(h: Heap, err: ErrorLocation, code: int, description: Option<string>)
    requires InitList(h, ErrorT) == [] && Young(h)
    ensures Later(h, Throw(h, err, code, description).0)
  {
    hide Throw, Adds, Later;
    ThrowAdds(h, err, code, description);
    AddsLater(h, Throw(h, err, code, description).0);
  }

  lemma SetCLater(h: Heap, r: Ref, c: Option<Ref>)
    requires PoolsSound(h) && r in h.objs
    ensures Later(h, SetC(h, r, c))
  {
    hide PoolsSound, Unref, Later, AddRef;
    var was := h.objs[r].body.c;
    var h1 := if was.Some? then Unref(h, was.value) else h;
    LaterRefl(h);
    if was.Some? { UnrefLater(h, was.value); }
    var h2 := if c.Some? then AddRef(h1, c.value) else h1;
    LaterRefl(h1);
    if c.Some? { RefLater(h1, c.value); }
    LaterTrans(h, h1, h2);
    assert r in h2.objs by { RefKeys(h1, c); }
    var kept := if c.Some? && Granted(h1, c.value) then c else None;
    BodyLater(h2, r, Put(h2.objs[r].body, CSlot, kept));
    LaterTrans(h, h2, SetC(h, r, c));
  }

  lemma AssignDeltaLater(h: Heap, to: Ref, from: Ref)
    requires PoolsSound(h) && to in h.objs && from in h.objs
    ensures Later(h, AssignDelta(h, to, from))
  {
    hide PoolsSound, SetC, Later;
    var h1 := SetB(h, to, h.objs[from].body.data.b);
    BodyLater(h, to, h1.objs[to].body);
    PoolsSoundKept(h, h1);
    var h2 := SetC(h1, to, h1.objs[from].body.c);
    SetCLater(h1, to, h1.objs[from].body.c);
    LaterTrans(h, h1, h2);
    BodyLater(h2, to, AssignDelta(h, to, from).objs[to].body);
    LaterTrans(h, h2, AssignDelta(h, to, from));
  }

  lemma ExecAssignLater(h: Heap, to: Ref, from: Ref, exec: AssignExec, err: ErrorLocation, held: multiset<Ref>)
    requires Sane(h, held + Stowed(err), {to, from}) && Pair(h, to, from, held)
    ensures Later(h, ExecAssign(h, to, from, exec, err).0)
  {
    hide Sane, AssignDelta, Throw, Later;
    LaterRefl(h);
    SanePools(h, held + Stowed(err), {to, from});
    match exec
    case AlphaAssign =>
      BodyLater(h, to, h.objs[to].body.(data := h.objs[to].body.data.(a := h.objs[from].body.data.a)));
    case DeltaAssign => AssignDeltaLater(h, to, from);
    case UserAssign =>
    case RefusingAssign =>
    case ThrowingAssign(code) =>
      SanePlain(h, held + Stowed(err), {to, from});
      ThrowLater(h, err, code, None);
  }

  lemma {:induction false} AssignFromLater(h: Heap, to: Ref, from: Ref, list: seq<Method<AssignExec>>, i: nat,
                                           err: ErrorLocation, held: multiset<Ref>)
    requires i <= |list| && Sane(h, held + Stowed(err), {to, from}) && Pair(h, to, from, held)
    ensures Later(h, AssignFrom(h, to, from, list, i, err).0)
    decreases |list| - i
  {
    hide Sane, ExecAssign, Later;
    LaterRefl(h);
    if i < |list| {
      var ty := list[i].ty;
      var h0 := Bless(h, to, ty);
      var h1 := Bless(h0, from, ty);
      BodyLater(h, to, h0.objs[to].body);
      BodyLater(h0, from, h1.objs[from].body);
      LaterTrans(h, h0, h1);
      BlessSane(h, to, ty, held + Stowed(err), {to, from});
      BlessSane(h0, from, ty, held + Stowed(err), {to, from});
      ExecAssignSane(h1, to, from, list[i].exec, err, held);
      ExecAssignLater(h1, to, from, list[i].exec, err, held);
      var (h2, ok, err1) := ExecAssign(h1, to, from, list[i].exec, err);
      LaterTrans(h, h1, h2);
      if ok && !(err1.Location? && err1.error.Some?) {
        AssignFromLater(h2, to, from, list, i + 1, err1, held);
        LaterTrans(h, h2, AssignFrom(h, to, from, list, i, err).0);
      }
    }
  }

  lemma ClearLater(h: Heap, r: Ref)
    requires PoolsSound(h) && r in h.objs
    ensures Later(h, ClearObject(h, r, true))
  {
    hide PoolsSound, Frame, ClearObject, Later;
    ClearObjectFrame(h, r, true);
    FrameLater(h, ClearObject(h, r, true), {r});
  }

  lemma AssignLater(h: Heap, to: Ref, from: Ref, err: ErrorLocation, held: multiset<Ref>)
    requires Sane(h, held + Stowed(err), {}) && Pair(h, to, from, held)
    ensures Later(h, Assign(h, to, from, err).0)
  {
    hide Sane, ClearObject, AssignFrom, Later;
    LaterRefl(h);
    var ty := h.objs[to].body.ty;
    var list := AssignList(h, ty);
    if list != [] && h.objs[from].body.ty == ty {
      SanePools(h, held + Stowed(err), {});
      ClearLater(h, to);
      HeldAlso(h, to, from, held, err);
      AssignStarts(h, to, from, held + Stowed(err));
      var h1 := ClearObject(h, to, true);
      AssignFromLater(h1, to, from, list, 0, err, held);
      AssignFromSane(h1, to, from, list, 0, err, held);
      var h2 := AssignFrom(h1, to, from, list, 0, err).0;
      LaterTrans(h, h1, h2);
      var h3 := Bless(h2, to, ty);
      BodyLater(h2, to, h3.objs[to].body);
      LaterTrans(h, h2, h3);
      BodyLater(h3, from, h3.objs[from].body.(ty := ty));
      LaterTrans(h, h3, Bless(h3, from, ty));
    }
  }

  lemma {:induction false} InitFromAdds(h: Heap, r: Ref, list: seq<Method<InitExec>>, i: nat, err: ErrorLocation,
                                        held: multiset<Ref>)
    requires i <= |list| && Sane(h, held, {}) && Unfinished(h, r) && Stowed(err) == multiset{}
    requires forall m :: m in list ==> m.ty in h.types
    ensures var h' := InitFrom(h, r, list, i, err).0;
            forall x :: x in h'.objs && x !in h.objs ==> Plain(h'.objs[x].body)
    decreases |list| - i
  {
    hide Sane, ExecInit, Bless;
    assert held + Stowed(err) == held;
    if i < |list| {
      InitStepSane(h, r, list[i], err, held);
      var h0 := Bless(h, r, list[i].ty);
      var (h1, err1) := ExecInit(h0, r, list[i].exec, err);
      SanePlain(h, held, {});
      SanePools(h, held, {});
      ExecInitAdds(h, r, list[i], err);
      if !(err1.Location? && err1.error.Some?) {
        assert held + Stowed(err1) == held;
        InitFromSane(h1, r, list, i + 1, err1, held);
        InitFromAdds(h1, r, list, i + 1, err1, held);
      }
    }
  }

  lemma ExecInitAdds(h: Heap, r: Ref, m: Method<InitExec>, err: ErrorLocation)
    requires r in h.objs && InitList(h, ErrorT) == [] && Young(h)
    ensures var h' := ExecInit(Bless(h, r, m.ty), r, m.exec, err).0;
            forall x :: x in h'.objs && x !in h.objs ==> Plain(h'.objs[x].body)
  {
    hide Throw;
    if m.exec.ThrowingInit? {
      var h0 := Bless(h, r, m.ty);
      assert InitList(h0, ErrorT) == [] && Young(h0);
      ThrowAdds(h0, err, m.exec.code, None);
    }
  }

  lemma CreateAdds(h: Heap, ty: TypeId, err: ErrorLocation, held: multiset<Ref>)
    requires Sane(h, held, {}) && Stowed(err) == multiset{} && ty in h.types
    ensures Adds(h, Create(h, ty, err).0)
  {
    hide Sane, InitFrom, Allocate, Discard, Create, Finish, Stowed, Unfinished;
    var r := h.next;
    CreateStarts(h, ty, held);
    CreateShape(h, ty, err);
    InitFromSane(Allocate(h, ty), r, InitList(h, ty), 0, err, held + multiset{r});
    InitFromAdds(Allocate(h, ty), r, InitList(h, ty), 0, err, held + multiset{r});
    var (h1, ok, err1) := InitFrom(Allocate(h, ty), r, InitList(h, ty), 0, err);
    assert forall x :: x in Allocate(h, ty).objs <==> x in h.objs || x == r by { AllocateKeys(h, ty); }
    UnfinishedTidy(h1, r);
    CreateSane(h, ty, err, held);
    if ok { FinishKeeps(h1, r, ty); } else { DiscardKeeps(h1, r, held + multiset{r} + Stowed(err1)); }
  }

  lemma AllocateKeys(h: Heap, ty: TypeId)
    ensures forall x :: x in Allocate(h, ty).objs <==> x in h.objs || x == h.next
  {}

  lemma UnfinishedTidy(h: Heap, r: Ref)
    requires Unfinished(h, r)
    ensures r in h.objs && Plain(h.objs[r].body)
  {}

  lemma FinishKeeps(h: Heap, r: Ref, ty: TypeId)
    requires r in h.objs
    ensures Finish(h, r, ty).objs.Keys == h.objs.Keys
    ensures forall x :: x in h.objs ==> Plain(h.objs[x].body) ==> Plain(Finish(h, r, ty).objs[x].body)
  {}

  lemma DiscardKeeps(h: Heap, r: Ref, held: multiset<Ref>)
    requires Sane(h, held, {}) && Unfinished(h, r)
    ensures Discard(h, r).objs == h.objs - {r}
  {
    hide Discard, PoolsSound;
    SanePools(h, held, {});
    DiscardShape(h, r);
  }

  lemma CreateLater(h: Heap, ty: TypeId, err: ErrorLocation, held: multiset<Ref>)
    requires Sane(h, held, {}) && Stowed(err) == multiset{} && ty in h.types
    ensures Later(h, Create(h, ty, err).0)
  {
    hide Sane, Create, Later, Adds;
    CreateAdds(h, ty, err, held);
    AddsLater(h, Create(h, ty, err).0);
  }

  lemma CopyLater(h: Heap, from: Ref, err: ErrorLocation, held: multiset<Ref>)
    requires Sane(h, held, {}) && from in held && from in h.objs && Stowed(err) == multiset{}
    ensures Later(h, Copy(h, from, err).0)
  {
    hide Sane, Create, Assign, Unref, Later;
    var ty := h.objs[from].body.ty;
    HeldIsGranted(h, from, held, {});
    CreateSane(h, ty, err, held);
    CreateLater(h, ty, err, held);
    SaneYoung(h, held, {});
    var (h1, to, err1) := Create(h, ty, err);
    if to.Some? {
      var all := held + One(to);
      assert held + One(to) + Stowed(err1) == all + Stowed(err1);
      HeldIsGranted(h1, to.value, all + Stowed(err1), {});
      AssignSane(h1, to.value, from, err1, all);
      AssignLater(h1, to.value, from, err1, all);
      var (h2, ok, err2) := Assign(h1, to.value, from, err1);
      LaterTrans(h, h1, h2);
      SanePools(h2, all + Stowed(err2), {});
      UnrefLater(h2, to.value);
      LaterTrans(h, h2, Unref(h2, to.value));
    }
  }

  lemma WeakRefLater(h: Heap, r: Ref, held: multiset<Ref>)
    requires Sane(h, held, {}) && r in held && r in h.objs
    ensures Later(h, WeakRefTo(h, r).0)
  {
    hide Sane, AttachWeakRef, Later, AddRef, NewWeakRef;
    LaterRefl(h);
    var h1 := if h.objs[r].body.weakRef.Some? then h else AttachWeakRef(h, r);
    if h.objs[r].body.weakRef.None? {
      SanePools(h, held, {});
      SanePlain(h, held, {});
      AttachShape(h, r);
      NewWeakRefSane(h, r, held, {});
      var h2 := NewWeakRef(h, r);
      NewWeakRefAdds(h, r);
      AddsLater(h, h2);
      assert r < h.next;
      BodyLater(h2, r, Put(h2.objs[r].body, WeakSlot, Some(h.next)));
      LaterTrans(h, h2, h1);
    }
    WeakRefSane(h, r, held);
    var w := h1.objs[r].body.weakRef;
    if w.Some? {
      RefLater(h1, w.value);
      LaterTrans(h, h1, AddRef(h1, w.value));
    }
  }

  lemma NewWeakRefAdds(h: Heap, r: Ref)
    requires r in h.objs && Young(h) && InitList(h, WeakRefT) == []
    ensures Adds(h, NewWeakRef(h, r))
  {}

  lemma DerefLater(h: Heap, v: Ref)
    requires v in h.objs
    ensures Later(h, Deref(h, v).0)
  {
    hide Later, AddRef;
    LaterRefl(h);
    if h.objs[v].target.Some? { RefLater(h, h.objs[v].target.value); }
  }

  lemma SetBLater(h: Heap, r: Ref, s: Option<string>)
    requires r in h.objs
    ensures Later(h, SetB(h, r, s))
  {
    hide Later;
    BodyLater(h, r, h.objs[r].body.(data := h.objs[r].body.data.(b := Stored(s))));
  }

  lemma SetDLater(h: Heap, r: Ref, s: Option<string>)
    requires r in h.objs
    ensures Later(h, SetD(h, r, s))
  {
    hide Later;
    BodyLater(h, r, h.objs[r].body.(data := h.objs[r].body.data.(d := Stored(s))));
  }

  lemma HeapLater(w: World, call: Call)
    requires Good(w) && Allowed(w, call) && There(w.heap, call)
    ensures Later(w.heap, HeapAfter(w.heap, call))
  {
    hide Sane, PoolsSound, Young, Create, Unref, WeakRefTo, Throw, ClearObject, Assign, Copy, SetC, AddRef, Deref, SetB,
         SetD, Later, Casts, Stowed;
    var h, held := w.heap, w.held;
    SanePools(h, held, {});
    LaterRefl(h);
    match call
    case CreateCall(ty, reporting) => ReportNothing(held, reporting); CreateLater(h, ty, Report(reporting), held);
    case RefCall(r) => RefLater(h, r);
    case UnrefCall(r) => UnrefLater(h, r);
    case WeakRefCall(r) => WeakRefLater(h, r, held);
    case DerefCall(v) => DerefLater(h, v);
    case ThrowCall(cause, code) => SanePlain(h, held, {}); ThrowLater(h, Location(cause), code, None);
    case SetBCall(r, s) => SetBLater(h, r, s);
    case SetCCall(r, c) => SetCLater(h, r, c);
    case SetDCall(r, s) => SetDLater(h, r, s);
    case ClearCall(r) => ClearLater(h, r);
    case AssignCall(to, from, reporting) =>
      ReportNothing(held, reporting);
      AssignLater(h, to, from, Report(reporting), held);
    case CopyCall(r, reporting) => ReportNothing(held, reporting); CopyLater(h, r, Report(reporting), held);
  }

  /** Every call only moves on. */
  lemma CallLater(w: World, call: Call)
    requires Good(w) && Allowed(w, call) && There(w.heap, call)
    ensures Later(w.heap, Outcome(w, call).heap)
  {
    hide Good, HeapAfter, Outcome, Allowed, Later;
    HeapLater(w, call);
    OutcomeHeap(w, call);
  }

  /** Throughout a run, an object whose count has reached zero is never revived, a weak reference that has
      been unset is never set again, no empty string is ever stored, and weak references stay younger than
      their referents. */
  lemma {:induction false} RunsMoveOn(worlds: seq<World>, calls: seq<Call>, i: nat, j: nat)
    requires Run(worlds, calls) && Good(worlds[0]) && i <= j < |worlds|
    ensures Later(worlds[i].heap, worlds[j].heap)
    decreases j
  {
    hide Good, Outcome, Allowed, There, Later;
    RunsAreGood(worlds, calls);
    if i < j {
      RunsMoveOn(worlds, calls, i, j - 1);
      CallLater(worlds[j - 1], calls[j - 1]);
      LaterTrans(worlds[i].heap, worlds[j - 1].heap, worlds[j].heap);
    } else {
      LaterRefl(worlds[i].heap);
    }
  }

  // ---------------------------------------------------------------------------------------
  // Pools over runs
  // ---------------------------------------------------------------------------------------

  /** How many of the three states of a pool apply. */
  ghost function States(h: Heap, p: Pool): nat {
    (if InUse(h, p) then 1 else 0) + (if p in h.pools.stack then 1 else 0)
    + (if p in h.pools.destroyed then 1 else 0)
  }

  /** In every world of every run each pool ever made is in exactly one of three states: used by one
      live object, buffered, or destroyed; no pool is buffered or destroyed twice; each live object has
      a pool of its own; and the clear chain ran for the last time exactly once on each deleted object,
      so that no last-resort cleanup ever cleared anything. */
  lemma PoolsPartition(w: World)
    requires Good(w)
    ensures forall p: Pool :: p < w.heap.pools.made ==> States(w.heap, p) == 1
    ensures Distinct(w.heap.pools.stack) && Distinct(w.heap.pools.destroyed)
    ensures forall r :: Alive(w.heap, r) ==> w.heap.objs[r].body.pool < w.heap.pools.made
    ensures forall r, q :: Alive(w.heap, r) && Alive(w.heap, q) && r != q ==>
              w.heap.objs[r].body.pool != w.heap.objs[q].body.pool
    ensures forall r :: r in w.heap.objs ==>
              w.heap.objs[r].body.teardowns == if Alive(w.heap, r) then 0 else 1
  {
    var h := w.heap;
    SanePools(h, w.held, {});
    var idle, n := Idle(h.pools), |h.pools.destroyed|;
    assert forall i :: 0 <= i < n ==> idle[i] == h.pools.destroyed[i];
    assert forall i :: 0 <= i < |h.pools.stack| ==> idle[n + i] == h.pools.stack[i];
    forall p: Pool | p < h.pools.made
      ensures States(h, p) == 1
    {
      assert p in idle <==> p in h.pools.destroyed || p in h.pools.stack;
    }
  }
}
