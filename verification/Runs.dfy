/** Whole runs: any number of calls, in any order, by a caller that uses only what it holds. */
module Runs {
  import opened Options
  import opened Pools
  import opened Classes
  import opened Heaps
  import opened Cascade
  import opened Counts
  import opened Accounts
  import opened Calls
  import opened WeakRefs
  import opened WeakCalls

  /** The heap, and the references that callers hold: in variables, and in error locations. */
  datatype World = World(heap: Heap, held: multiset<Ref>)

  /** A call. An error location passed to a call holds no error, except the one given to
      `ThrowCall`. */
  datatype Call =
    | CreateCall(ty: TypeId, reporting: bool)
    | RefCall(r: Ref)
    | UnrefCall(r: Ref)
    | WeakRefCall(r: Ref)
    | DerefCall(w: Ref)
    | ThrowCall(cause: Option<Ref>, code: int)
    | SetBCall(r: Ref, s: Option<string>)
    | SetCCall(r: Ref, c: Option<Ref>)
    | SetDCall(r: Ref, s: Option<string>)
    | ClearCall(r: Ref)
    | AssignCall(to: Ref, from: Ref, reporting: bool)
    | CopyCall(r: Ref, reporting: bool)

  function Report(reporting: bool): ErrorLocation {
    if reporting then Location(None) else Ignored
  }

  /** The caller uses references that it holds, on objects of the right class. */
  ghost predicate Allowed(w: World, call: Call) {
    match call
    case CreateCall(ty, _) => ty in w.heap.types
    case RefCall(r) => r in w.held
    case UnrefCall(r) => r in w.held
    case WeakRefCall(r) => r in w.held
    case DerefCall(r) => r in w.held && Casts(w.heap, r, WeakRefT)
    case ThrowCall(cause, _) => cause.Some? ==> cause.value in w.held
    case SetBCall(r, _) => r in w.held && Casts(w.heap, r, DeltaT)
    case SetCCall(r, c) => r in w.held && Casts(w.heap, r, DeltaT) && (c.Some? ==> c.value in w.held)
    case SetDCall(r, _) => r in w.held && Casts(w.heap, r, DeltaT)
    case ClearCall(r) => r in w.held
    case AssignCall(to, from, _) => to in w.held && from in w.held
    case CopyCall(r, _) => r in w.held
  }

  /** A call on references that are held acts on objects that exist. */
  ghost predicate There(h: Heap, call: Call) {
    match call
    case CreateCall(_, _) => true
    case ThrowCall(_, _) => true
    case RefCall(r) => r in h.objs
    case UnrefCall(r) => r in h.objs
    case WeakRefCall(r) => r in h.objs
    case DerefCall(r) => r in h.objs
    case SetBCall(r, _) => r in h.objs
    case SetCCall(r, _) => r in h.objs
    case SetDCall(r, _) => r in h.objs
    case ClearCall(r) => r in h.objs
    case AssignCall(to, from, _) => to in h.objs && from in h.objs
    case CopyCall(r, _) => r in h.objs
  }

  /** The world after a call. */
  ghost function Outcome(w: World, call: Call): World
    requires There(w.heap, call)
  {
    var h, held := w.heap, w.held;
    match call
    case CreateCall(ty, reporting) =>
      var (h', r, err) := Create(h, ty, Report(reporting));
      World(h', held + One(r) + Stowed(err))
    case RefCall(r) => World(AddRef(h, r), held + if Granted(h, r) then multiset{r} else multiset{})
    case UnrefCall(r) => World(Unref(h, r), held - multiset{r})
    case WeakRefCall(r) =>
      var (h', v) := WeakRefTo(h, r);
      World(h', held + One(v))
    case DerefCall(v) =>
      var (h', r) := Deref(h, v);
      World(h', held + One(r))
    case ThrowCall(cause, code) =>
      var (h', err) := Throw(h, Location(cause), code, None);
      World(h', held - One(cause) + Stowed(err))
    case SetBCall(r, s) => World(SetB(h, r, s), held)
    case SetCCall(r, c) => World(SetC(h, r, c), held)
    case SetDCall(r, s) => World(SetD(h, r, s), held)
    case ClearCall(r) => World(ClearObject(h, r, true), held)
    case AssignCall(to, from, reporting) =>
      var (h', _, err) := Assign(h, to, from, Report(reporting));
      World(h', held + Stowed(err))
    case CopyCall(r, reporting) =>
      var (h', copy, err) := Copy(h, r, Report(reporting));
      World(h', held + One(copy) + Stowed(err))
  }

  /** The heap after a call, whoever holds what. */
  ghost function HeapAfter(h: Heap, call: Call): Heap
    requires There(h, call)
  {
    match call
    case CreateCall(ty, reporting) => Create(h, ty, Report(reporting)).0
    case RefCall(r) => AddRef(h, r)
    case UnrefCall(r) => Unref(h, r)
    case WeakRefCall(r) => WeakRefTo(h, r).0
    case DerefCall(v) => Deref(h, v).0
    case ThrowCall(cause, code) => Throw(h, Location(cause), code, None).0
    case SetBCall(r, s) => SetB(h, r, s)
    case SetCCall(r, c) => SetC(h, r, c)
    case SetDCall(r, s) => SetD(h, r, s)
    case ClearCall(r) => ClearObject(h, r, true)
    case AssignCall(to, from, reporting) => Assign(h, to, from, Report(reporting)).0
    case CopyCall(r, reporting) => Copy(h, r, Report(reporting)).0
  }

  lemma OutcomeHeap(w: World, call: Call)
    requires There(w.heap, call)
    ensures Outcome(w, call).heap == HeapAfter(w.heap, call)
  {
    hide Create, AddRef, Unref, WeakRefTo, Deref, Throw, SetB, SetC, SetD, ClearObject, Assign, Copy, Report, Stowed,
         One;
  }

  /** Between calls, every count equals what callers and owning slots account for, no owning slot
      points at a destroyed object, and pools and objects are in step. */
  ghost predicate Good(w: World) {
    Sane(w.heap, w.held, {})
  }

  /** Each object that somebody holds is live, and each slot of any object points at a live one. */
  lemma GoodMeans(w: World)
    requires Good(w)
    ensures forall r :: r in w.held ==> Alive(w.heap, r)
    ensures forall r, s :: r in w.heap.objs && Get(w.heap.objs[r].body, s).Some? ==>
              Alive(w.heap, r) && Alive(w.heap, Get(w.heap.objs[r].body, s).value)
    ensures forall r :: r in w.heap.objs ==>
              w.heap.objs[r].refcount == w.held[r] + |Owners(w.heap, r, {})|
    ensures forall r :: r in w.heap.objs ==> (Alive(w.heap, r) <==> w.heap.objs[r].refcount > 0)
  {
    var h := w.heap;
    forall r | r in w.held
      ensures Alive(h, r)
    {
      HeldIsGranted(h, r, w.held, {});
    }
    forall r | r in h.objs
      ensures Alive(h, r) <==> h.objs[r].refcount > 0
    {
      SettledAt(h, r, w.held, {});
    }
    forall r, s | r in h.objs && Get(h.objs[r].body, s).Some?
      ensures Alive(h, r) && Alive(h, Get(h.objs[r].body, s).value)
    {
      SlotGranted(h, Edge(r, s), w.held, {});
      SettledAt(h, r, w.held, {});
    }
    SaneParts(h, w.held, {});
    BalancedParts(h, w.held, {}, {});
  }

  lemma AllowedIsThere(w: World, call: Call)
    requires Good(w) && Allowed(w, call)
    ensures There(w.heap, call)
  {}

  lemma SetCCallGood(w: World, r: Ref, c: Option<Ref>)
    requires Good(w) && r in w.held && r in w.heap.objs && Casts(w.heap, r, DeltaT)
    ensures Sane(SetC(w.heap, r, c), w.held, {})
  {
    hide Sane, Covered, SetC;
    var h, h' := w.heap, SetC(w.heap, r, c);
    HeldIsGranted(h, r, w.held, {});
    Engage(h, r, w.held, {});
    assert {} + {r} == {r};
    SetCSane(h, r, c, w.held, {r});
    HeldIsGranted(h', r, w.held, {r});
    assert Sound(h.types) by { SaneParts(h, w.held, {}); BalancedParts(h, w.held, {}, {}); }
    DeltaCovered(h, h', r);
    Disengage(h', r, w.held, {});
  }

  lemma DeltaCovered(h: Heap, h': Heap, r: Ref)
    requires Sound(h.types) && h'.types == h.types && r in h.objs && r in h'.objs
    requires Casts(h, r, DeltaT) && Covered(h, h.objs[r].body)
    requires h'.objs[r].body == h.objs[r].body.(c := h'.objs[r].body.c)
    ensures Covered(h', h'.objs[r].body)
  {}

  lemma WeakRefCallGood(w: World, r: Ref)
    requires Good(w) && r in w.held && r in w.heap.objs
    ensures var (h', v) := WeakRefTo(w.heap, r); Good(World(h', w.held + One(v)))
  {
    hide Sane, WeakRefTo;
    WeakRefSane(w.heap, r, w.held);
  }

  lemma ThrowCallGood(w: World, cause: Option<Ref>, code: int)
    requires Good(w) && (cause.Some? ==> cause.value in w.held)
    ensures var (h', err) := Throw(w.heap, Location(cause), code, None);
            Good(World(h', w.held - One(cause) + Stowed(err)))
  {
    hide Sane, Throw;
    var held := w.held - One(cause);
    assert held + Stowed(Location(cause)) == w.held;
    PinnedNobody(w.heap, held);
    ThrowSane(w.heap, Location(cause), code, None, held, {});
  }

  lemma UnrefCallGood(w: World, r: Ref)
    requires Good(w) && r in w.held
    ensures Good(World(Unref(w.heap, r), w.held - multiset{r}))
  {
    hide Sane, Unref;
    var held := w.held - multiset{r};
    assert held + multiset{r} == w.held;
    PinnedNobody(w.heap, held);
    UnrefSane(w.heap, r, held, {});
  }

  /** Every call keeps the accounts. */
  lemma CallGood(w: World, call: Call)
    requires Good(w) && Allowed(w, call) && There(w.heap, call)
    ensures Good(Outcome(w, call))
  {
    hide Sane, Create, Unref, WeakRefTo, Throw, ClearObject, Assign, Copy, SetC, SetB, SetD;
    var h, held := w.heap, w.held;
    match call
    case CreateCall(ty, reporting) => CreateSane(h, ty, Report(reporting), held);
    case RefCall(r) => HeldIsGranted(h, r, held, {}); RefSane(h, r, held, {});
    case UnrefCall(r) => UnrefCallGood(w, r);
    case WeakRefCall(r) => WeakRefCallGood(w, r);
    case DerefCall(v) => DerefSane(h, v, held);
    case ThrowCall(cause, code) => ThrowCallGood(w, cause, code);
    case SetBCall(r, s) => SetBGood(w, r, s);
    case SetCCall(r, c) => SetCCallGood(w, r, c);
    case SetDCall(r, s) => SetDGood(w, r, s);
    case ClearCall(r) => ClearSane(h, r, held);
    case AssignCall(to, from, reporting) =>
      assert held + Stowed(Report(reporting)) == held;
      AssignSane(h, to, from, Report(reporting), held);
    case CopyCall(r, reporting) => CopySane(h, r, Report(reporting), held);
  }

  lemma SetBGood(w: World, r: Ref, s: Option<string>)
    requires Good(w) && r in w.heap.objs
    ensures Good(World(SetB(w.heap, r, s), w.held))
  {
    hide Sane;
    DataSane(w.heap, r, w.heap.objs[r].body.data.(b := Stored(s)), w.held, {});
  }

  lemma SetDGood(w: World, r: Ref, s: Option<string>)
    requires Good(w) && r in w.heap.objs
    ensures Good(World(SetD(w.heap, r, s), w.held))
  {
    hide Sane;
    DataSane(w.heap, r, w.heap.objs[r].body.data.(d := Stored(s)), w.held, {});
  }

  // ---------------------------------------------------------------------------------------
  // Runs
  // ---------------------------------------------------------------------------------------

  /** A run: consecutive worlds, each reached from the one before by an allowed call. */
  ghost predicate Run(worlds: seq<World>, calls: seq<Call>) {
    && |worlds| == |calls| + 1
    && forall i :: 0 <= i < |calls| ==>
         Allowed(worlds[i], calls[i]) && There(worlds[i].heap, calls[i])
         && worlds[i + 1] == Outcome(worlds[i], calls[i])
  }

  /** The runtime before any object has been created. */
  function Start(types: Types, capacity: nat): World {
    World(Heap(map[], 0, types, PoolState([], capacity, 0, []), map[]), multiset{})
  }

  lemma StartGood(types: Types, capacity: nat)
    requires Sound(types)
    ensures Good(Start(types, capacity)) && Agreed(Start(types, capacity).heap)
  {}

  lemma RunLength(worlds: seq<World>, calls: seq<Call>)
    requires Run(worlds, calls)
    ensures |worlds| == |calls| + 1
  {}

  /** In every world of every run the accounts hold: each count equals the references held by callers
      plus the owning slots, after any number of destroy cascades. */
  lemma {:induction false} RunsAreGood(worlds: seq<World>, calls: seq<Call>)
    requires Run(worlds, calls) && Good(worlds[0])
    ensures forall i :: 0 <= i < |worlds| ==> Good(worlds[i])
    decreases |calls|
  {
    hide Good, Outcome, Allowed, There;
    if calls != [] {
      var n := |calls| - 1;
      RunsAreGood(worlds[..n + 1], calls[..n]);
      assert worlds[..n + 1][n] == worlds[n];
      CallGood(worlds[n], calls[n]);
    }
  }

  /** Weak references and referents, between the calls of a careful run: an object's weak reference is the one held
      weak reference that is set to it, and a weak reference that is set has a live referent. */
  lemma AgreedMeans(w: World)
    requires Good(w) && Agreed(w.heap)
    ensures forall o, v :: Alive(w.heap, o) && v in w.heap.objs ==>
              (w.heap.objs[o].body.weakRef == Some(v) <==> Alive(w.heap, v) && w.heap.objs[v].target == Some(o))
    ensures forall v :: Alive(w.heap, v) && w.heap.objs[v].target.Some? ==> Alive(w.heap, w.heap.objs[v].target.value)
  {
    var h := w.heap;
    GoodMeans(w);
    hide Sane;
    assert forall r :: Held(h, r) <==> Alive(h, r);
    forall o, v | Alive(h, o) && v in h.objs && h.objs[o].body.weakRef == Some(v)
      ensures Alive(h, v) && h.objs[v].target == Some(o)
    {
      assert Get(h.objs[o].body, WeakSlot) == Some(v);
    }
  }

  /** Clearing, or assigning over, an object whose weak reference others refer to as well is the one thing
      that can separate the two; see `Limits.ClearAgreedExactly` and `AssignLimits.AssignAgreedExactly`. */
  ghost predicate Careful(w: World, call: Call) {
    match call
    case ClearCall(r) => Sheds(w.heap, r)
    case AssignCall(to, from, _) =>
      to in w.heap.objs && from in w.heap.objs
      && (Sheds(w.heap, to) || AssignList(w.heap, w.heap.objs[to].body.ty) == []
          || w.heap.objs[from].body.ty != w.heap.objs[to].body.ty)
    case _ => true
  }

  /** An error location passed to a call holds no error. */
  lemma ReportNothing(held: multiset<Ref>, reporting: bool)
    ensures Stowed(Report(reporting)) == multiset{} && held + Stowed(Report(reporting)) == held
  {}

  /** The object that a call clears for good or before assigning to it, if it gets that far. */
  function Cleared(h: Heap, call: Call): Option<Ref> {
    match call
    case ClearCall(r) => Some(r)
    case AssignCall(to, from, _) => if Reassigns(h, to, from) then Some(to) else None
    case _ => None
  }

  /** The weak reference that a call cuts off from its referent. */
  function CutOff(h: Heap, call: Call): set<Ref> {
    if Cleared(h, call).Some? then WeakOf(h, Cleared(h, call).value) else {}
  }

  lemma HeapLosing(w: World, call: Call, lost: set<Ref>)
    requires Good(w) && AgreedBut(w.heap, lost) && Allowed(w, call) && There(w.heap, call)
    ensures AgreedBut(HeapAfter(w.heap, call), lost + CutOff(w.heap, call))
  {
    hide Sane, PoolsSound, Young, AgreedBut, Create, Unref, WeakRefTo, Throw, ClearObject, Assign, Copy, SetC, Deref,
         AddRef, Casts, Stowed, Reassigns, WeakOf;
    var h, held := w.heap, w.held;
    SanePools(h, held, {});
    SanePlain(h, held, {});
    assert lost + {} == lost;
    match call
    case CreateCall(ty, reporting) =>
      ReportNothing(held, reporting);
      CreateAgreed(h, ty, Report(reporting), held, lost);
    case RefCall(r) => RefAgreed(h, r, lost);
    case UnrefCall(r) => UnrefCallAgreed(h, r, lost);
    case WeakRefCall(r) => WeakRefAgreed(h, r, held, lost);
    case DerefCall(v) => DerefAgreed(h, v, lost);
    case ThrowCall(cause, code) => ThrowAgreed(h, Location(cause), code, None, lost);
    case SetBCall(r, s) => WriteAgreed(h, r, h.objs[r].body.(data := h.objs[r].body.data.(b := Stored(s))), lost);
    case SetCCall(r, c) => SetCAgreed(h, r, c, lost);
    case SetDCall(r, s) => WriteAgreed(h, r, h.objs[r].body.(data := h.objs[r].body.data.(d := Stored(s))), lost);
    case ClearCall(r) => ClearLosing(h, r, held, lost);
    case AssignCall(to, from, reporting) =>
      ReportNothing(held, reporting);
      AssignLosing(h, to, from, Report(reporting), held, lost);
    case CopyCall(r, reporting) => ReportNothing(held, reporting); CopyAgreed(h, r, Report(reporting), held, lost);
  }

  /** Any call, careful or not: at most the weak reference of the object that it clears gets lost. */
  lemma CallLosing(w: World, call: Call, lost: set<Ref>)
    requires Good(w) && AgreedBut(w.heap, lost) && Allowed(w, call) && There(w.heap, call)
    ensures AgreedBut(Outcome(w, call).heap, lost + CutOff(w.heap, call))
  {
    hide Good, AgreedBut, HeapAfter, Outcome, Allowed, CutOff;
    HeapLosing(w, call, lost);
    OutcomeHeap(w, call);
  }

  lemma HeapAgreed(w: World, call: Call)
    requires Good(w) && Agreed(w.heap) && Allowed(w, call) && There(w.heap, call) && Careful(w, call)
    ensures Agreed(HeapAfter(w.heap, call))
  {
    hide Sane, AgreedBut, ClearObject, Assign, Sheds, Reassigns, WeakOf;
    var h, held := w.heap, w.held;
    match call
    case ClearCall(r) => ClearAgreed(h, r, held);
    case AssignCall(to, from, reporting) =>
      ReportNothing(held, reporting);
      AssignAgreed(h, to, from, Report(reporting), held);
    case _ =>
      hide HeapAfter;
      assert {} + CutOff(h, call) == {};
      HeapLosing(w, call, {});
  }

  lemma CallAgreed(w: World, call: Call)
    requires Good(w) && Agreed(w.heap) && Allowed(w, call) && There(w.heap, call) && Careful(w, call)
    ensures Agreed(Outcome(w, call).heap)
  {
    hide Good, Agreed, HeapAfter, Outcome, Careful, Allowed;
    HeapAgreed(w, call);
    OutcomeHeap(w, call);
  }

  /** The weak references that the first `j` calls have cut off from their referents. */
  function Lost(worlds: seq<World>, calls: seq<Call>, j: nat): (lost: set<Ref>)
    requires j <= |calls| && j <= |worlds|
    ensures forall v :: v in lost <==> exists k :: 0 <= k < j && v in CutOff(worlds[k].heap, calls[k])
  {
    if j == 0 then {} else Lost(worlds, calls, j - 1) + CutOff(worlds[j - 1].heap, calls[j - 1])
  }

  /** In every world of every run, weak references and referents agree, all but the weak references that a `y_clear` of
      their referent or an assignment over it has cut off. */
  lemma {:induction false} RunsAgreeBut(worlds: seq<World>, calls: seq<Call>, j: nat)
    requires Run(worlds, calls) && Good(worlds[0]) && Agreed(worlds[0].heap) && j < |worlds|
    ensures AgreedBut(worlds[j].heap, Lost(worlds, calls, j))
    decreases j
  {
    hide Good, Outcome, Allowed, There, AgreedBut, CutOff;
    RunsAreGood(worlds, calls);
    if j > 0 {
      RunsAgreeBut(worlds, calls, j - 1);
      CallLosing(worlds[j - 1], calls[j - 1], Lost(worlds, calls, j - 1));
    }
  }

  /** In every world of every careful run, weak references and referents agree, to any depth of weak
      references to weak references. */
  lemma {:induction false} RunsAgree(worlds: seq<World>, calls: seq<Call>)
    requires Run(worlds, calls) && Good(worlds[0]) && Agreed(worlds[0].heap)
    requires forall i :: 0 <= i < |calls| ==> Careful(worlds[i], calls[i])
    ensures forall i :: 0 <= i < |worlds| ==> Agreed(worlds[i].heap)
    decreases |calls|
  {
    hide Good, Outcome, Allowed, There, Agreed, Careful;
    RunsAreGood(worlds, calls);
    if calls != [] {
      var n := |calls| - 1;
      RunsAgree(worlds[..n + 1], calls[..n]);
      assert worlds[..n + 1][n] == worlds[n];
      CallAgreed(worlds[n], calls[n]);
    }
  }
}
