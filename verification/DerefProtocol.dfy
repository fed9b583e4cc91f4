/** `y_WeakRef_deref` on an object's weak reference, step by step, while other threads ref and unref the object
    (yakka/WeakRef.c, yakka/Object.c). The caller of deref holds the weak reference, but need not hold the object. */
module DerefProtocol {
  import opened Options
  import R = RefProtocol

  /** Where a thread is in its deref: about to read the target, to lock the weak reference and read the target again, or
      to take a step of `y_ref` on what it found. `weak` is the local `has_weak_ref`, and `got` whether the count was
      raised. A thread that has touched the object after its destruction is `Wild`. */
  datatype Pc =
    | Away
    | Test
    | LockTarget
    | Look
    | UnlockTarget(found: bool)
    | Sample
    | Check(weak: bool)
    | LockWeak
    | LockObj(weak: bool)
    | Change(weak: bool)
    | UnlockObj(weak: bool, got: bool)
    | UnlockWeak(got: bool)
    | Wild

  /** The object with the threads that ref and unref it; where each of these threads is in a deref, if it is in one; and
      which of them holds a mutex for a deref. */
  datatype State = State(refs: R.State, pcs: seq<Pc>, weakLock: Option<nat>, objLock: Option<nat>)

  /** A thread that is in no deref may do whatever it could do without them, or begin one. */
  datatype Action = Other(action: R.Action) | Begin | Go

  // ---------------------------------------------------------------------------------------
  // Steps
  // ---------------------------------------------------------------------------------------

  predicate WeakFree(s: State) {
    s.weakLock == None && s.refs.weakLock == None
  }

  predicate ObjFree(s: State) {
    s.objLock == None && s.refs.objLock == None
  }

  predicate Enabled(s: State, i: nat, a: Action) {
    && i < |s.pcs| == |s.refs.threads|
    && match a
       case Other(b) =>
         && s.pcs[i].Away? && R.Enabled(s.refs, i, b)
         && (b.Go? && s.refs.threads[i].pc.LockWeak? ==> s.weakLock == None)
         && (b.Go? && s.refs.threads[i].pc.LockObj? ==> s.objLock == None)
       case Begin => s.pcs[i].Away? && s.refs.threads[i].pc.Idle?
       case Go =>
         match s.pcs[i]
         case Away => false
         case Wild => false
         case LockTarget => WeakFree(s)
         case LockWeak => WeakFree(s)
         case LockObj(_) => ObjFree(s)
         case _ => true
  }

  /** The next step reads or writes the object. */
  predicate Touches(pc: Pc) {
    !(pc.Away? || pc.Test? || pc.LockTarget? || pc.Look? || pc.UnlockTarget? || pc.Wild?)
  }

  /** The next step would touch an object that has been destroyed. */
  predicate Unsafe(s: State, i: nat) {
    i < |s.pcs| && Touches(s.pcs[i]) && s.refs.destroyed
  }

  function Put(s: State, i: nat, pc: Pc): State
    requires i < |s.pcs|
  {
    s.(pcs := s.pcs[i := pc])
  }

  /** One reference more, for thread `i`. */
  function Raised(r: R.State, i: nat): R.State
    requires i < |r.threads|
  {
    r.(refcount := r.refcount + 1, threads := r.threads[i := r.threads[i].(owned := r.threads[i].owned + 1)])
  }

  /** One step of a deref. */
  function Going(s: State, i: nat): State
    requires Enabled(s, i, Go)
  {
    match s.pcs[i]
    case Test => Put(s, i, if s.refs.target then LockTarget else Away)
    case LockTarget => Put(s, i, Look).(weakLock := Some(i))
    case Look => Put(s, i, UnlockTarget(s.refs.target))
    case UnlockTarget(found) => Put(s, i, if found then Sample else Away).(weakLock := None)
    case Sample => Put(s, i, Check(s.refs.slot))
    case Check(weak) => Put(s, i, if s.refs.refcount == 0 then Away else if weak then LockWeak else LockObj(false))
    case LockWeak => Put(s, i, LockObj(true)).(weakLock := Some(i))
    case LockObj(weak) => Put(s, i, Change(weak)).(objLock := Some(i))
    case Change(weak) =>
      if s.refs.refcount == 0 then Put(s, i, UnlockObj(weak, false))
      else Put(s, i, UnlockObj(weak, true)).(refs := Raised(s.refs, i))
    case UnlockObj(weak, got) => Put(s, i, if weak then UnlockWeak(got) else Away).(objLock := None)
    case UnlockWeak(_) => Put(s, i, Away).(weakLock := None)
    case _ => s
  }

  function Next(s: State, i: nat, a: Action): State
    requires Enabled(s, i, a)
  {
    match a
    case Other(b) => s.(refs := R.Next(s.refs, i, b))
    case Begin => Put(s, i, Test)
    case Go => if Unsafe(s, i) then Put(s, i, Wild) else Going(s, i)
  }

  // ---------------------------------------------------------------------------------------
  // The invariant
  // ---------------------------------------------------------------------------------------

  predicate Got(pc: Pc) {
    (pc.UnlockObj? || pc.UnlockWeak?) && pc.got
  }

  /** The references are accounted for as without derefs; a thread in a deref is in no other call; and one that has
      raised the count owns a reference. */
  ghost predicate Inv(s: State) {
    && R.Inv(s.refs) && |s.pcs| == |s.refs.threads|
    && forall i :: 0 <= i < |s.pcs| && !s.pcs[i].Away? ==>
         s.refs.threads[i].pc.Idle? && (Got(s.pcs[i]) ==> s.refs.threads[i].owned > 0)
  }

  lemma OtherThreads(r: R.State, i: nat, b: R.Action)
    requires R.Enabled(r, i, b)
    ensures |R.Next(r, i, b).threads| == |r.threads|
    ensures forall k :: 0 <= k < |r.threads| && k != i ==>
              R.Next(r, i, b).threads[k].pc == r.threads[k].pc && R.Next(r, i, b).threads[k].owned >= r.threads[k].owned
  {
    if b.Go? { GoingLeaves(r, i); }
  }

  lemma GoingLeaves(r: R.State, i: nat)
    requires R.Enabled(r, i, R.Go)
    ensures |R.Next(r, i, R.Go).threads| == |r.threads|
    ensures forall k :: 0 <= k < |r.threads| && k != i ==> R.Next(r, i, R.Go).threads[k] == r.threads[k]
  {
    var pc := r.threads[i].pc;
    if pc.Change? {
      ChangeLeaves(r, i, pc.op, pc.weak);
      hide R.Changed;
    } else {
      hide R.Changed;
    }
  }

  lemma ChangeLeaves(r: R.State, i: nat, op: R.Op, weak: bool)
    requires i < |r.threads|
    ensures |R.Changed(r, i, op, weak).threads| == |r.threads|
    ensures forall k :: 0 <= k < |r.threads| && k != i ==> R.Changed(r, i, op, weak).threads[k] == r.threads[k]
  {}

  /** Raising a positive count for a thread that is in no other call. */
  lemma RaisedKeeps(r: R.State, i: nat)
    requires R.Inv(r) && i < |r.threads| && r.threads[i].pc.Idle? && r.refcount > 0
    ensures R.Inv(Raised(r, i))
  {
    var r' := Raised(r, i);
    R.TotalUpdate(r.threads, i, r'.threads[i]);
    forall k | 0 <= k < |r'.threads|
      ensures R.Fits(r', k)
    {
      assert R.Fits(r, k);
    }
  }

  lemma StepKeeps(s: State, i: nat, a: Action)
    requires Inv(s) && Enabled(s, i, a)
    ensures Inv(Next(s, i, a))
  {
    hide R.Inv, R.Next, R.Enabled;
    match a
    case Other(b) =>
      R.StepKeeps(s.refs, i, b);
      OtherThreads(s.refs, i, b);
    case Begin =>
    case Go =>
      if s.pcs[i].Change? && s.refs.refcount > 0 { RaisedKeeps(s.refs, i); }
  }

  // ---------------------------------------------------------------------------------------
  // Runs
  // ---------------------------------------------------------------------------------------

  datatype Event = Event(thread: nat, action: Action)

  ghost predicate Run(states: seq<State>, events: seq<Event>) {
    && |states| == |events| + 1
    && forall k :: 0 <= k < |events| ==>
         Enabled(states[k], events[k].thread, events[k].action)
         && states[k + 1] == Next(states[k], events[k].thread, events[k].action)
  }

  ghost predicate Start(s: State) {
    && R.Start(s.refs) && |s.pcs| == |s.refs.threads| && s.weakLock == None && s.objLock == None
    && forall pc :: pc in s.pcs ==> pc == Away
  }

  lemma StartKeeps(s: State)
    requires Start(s)
    ensures Inv(s)
  {
    hide R.Inv, R.Start;
    R.StartKeeps(s.refs);
    assert forall i :: 0 <= i < |s.pcs| ==> s.pcs[i] in s.pcs;
  }

  lemma {:induction false} RunsKeep(states: seq<State>, events: seq<Event>)
    requires Run(states, events) && Start(states[0])
    ensures forall k :: 0 <= k < |states| ==> Inv(states[k])
    decreases |events|
  {
    hide Next, Enabled, Inv, Start;
    if events != [] {
      var n := |events| - 1;
      RunsKeep(states[..n + 1], events[..n]);
      assert states[..n + 1][n] == states[n];
      StepKeeps(states[n], events[n].thread, events[n].action);
    } else {
      StartKeeps(states[0]);
    }
  }

  /** Derefs in between change nothing for the threads that own references: in every interleaving the count is the
      references not yet given back, one thread cleans up, and no thread in `y_ref` or `y_unref` touches the object
      after it has been told to. */
  lemma Interleavings(states: seq<State>, events: seq<Event>, k: nat)
    requires Run(states, events) && Start(states[0]) && k < |states|
    ensures R.Accounted(states[k].refs)
  {
    hide Next, Enabled, R.Inv, R.Accounted;
    RunsKeep(states, events);
    R.InvAccounts(states[k].refs);
  }

  /** A deref never revives the object. */
  lemma {:induction false} ZeroStays(states: seq<State>, events: seq<Event>, j: nat, k: nat)
    requires Run(states, events) && j <= k < |states| && states[j].refs.refcount == 0
    ensures states[k].refs.refcount == 0
    decreases k
  {
    if j < k {
      ZeroStays(states, events, j, k - 1);
    }
  }

  /** In every interleaving, at each step of its `y_ref` on the target, a deref touches a destroyed object exactly when
      every reference has been given back and the thread that was told to clean up has finished. */
  lemma DerefIsSafeExactly(states: seq<State>, events: seq<Event>, k: nat, i: nat)
    requires Run(states, events) && Start(states[0]) && k < |states| && i < |states[k].pcs|
    requires Touches(states[k].pcs[i])
    ensures var r := states[k].refs;
            Unsafe(states[k], i)
            <==> R.Total(r.threads) == 0 && forall j :: 0 <= j < |r.threads| ==> !R.Last(r.threads[j].pc)
  {
    hide Next, Enabled, R.Total;
    RunsKeep(states, events);
    R.InvAccounts(states[k].refs);
  }

  /** Once it has raised the count, a deref is safe to its end. */
  lemma GotIsSafe(states: seq<State>, events: seq<Event>, k: nat, i: nat)
    requires Run(states, events) && Start(states[0]) && k < |states| && i < |states[k].pcs|
    requires Got(states[k].pcs[i])
    ensures states[k].refs.refcount > 0 && !Unsafe(states[k], i)
  {
    hide Next, Enabled, R.Total;
    RunsKeep(states, events);
    R.TotalBounds(states[k].refs.threads, i);
  }

  /** As long as some thread keeps a reference, no deref touches a destroyed object. */
  lemma {:induction false} KeptIsSafe(states: seq<State>, events: seq<Event>, a: nat, b: nat, keeper: nat, i: nat)
    requires Run(states, events) && Start(states[0]) && a <= b < |states|
    requires forall k :: a <= k < b ==> keeper < |states[k].refs.threads| && states[k].refs.threads[keeper].owned > 0
    requires i < |states[a].pcs| && states[a].pcs[i] != Wild
    ensures i < |states[b].pcs| && states[b].pcs[i] != Wild
    decreases b
  {
    hide Next, Enabled, Start, Inv, Refd;
    if a < b {
      KeptIsSafe(states, events, a, b - 1, keeper, i);
      RunsKeep(states, events);
      StepIsSafe(states[b - 1], events[b - 1].thread, events[b - 1].action, i) by { KeeperRefs(states[b - 1], keeper); }
    }
  }

  predicate Refd(s: State) {
    s.refs.refcount > 0
  }

  lemma KeeperRefs(s: State, keeper: nat)
    requires Inv(s) && keeper < |s.refs.threads| && s.refs.threads[keeper].owned > 0
    ensures Refd(s)
  {
    R.TotalBounds(s.refs.threads, keeper);
  }

  lemma StepIsSafe(s: State, j: nat, a: Action, i: nat)
    requires Inv(s) && Enabled(s, j, a) && Refd(s) && i < |s.pcs| && s.pcs[i] != Wild
    ensures i < |Next(s, j, a).pcs| && Next(s, j, a).pcs[i] != Wild
  {
    hide R.Next, R.Enabled, R.Total, R.Fits;
  }

  // ---------------------------------------------------------------------------------------
  // An interleaving that is not safe
  // ---------------------------------------------------------------------------------------

  /** The object as the race leaves it: its count, its slot, the target, who holds its mutexes, and what thread 0 owns
      and is about to do. */
  function At(count: nat, target: bool, weakLock: Option<nat>, objLock: Option<nat>, gone: nat, destroyed: bool,
              pc: R.Pc, deref: Pc): State {
    State(R.State(count, !destroyed, target, weakLock, objLock, gone, 0, destroyed,
                  [R.Thread(if pc.Idle? && count > 0 then 1 else 0, pc), R.Thread(0, R.Idle)]),
          [Away, deref], if deref.Look? || deref.UnlockTarget? then Some(1) else None, None)
  }

  /** The race, state by state. */
  function Race(k: nat): State {
    var op, w, o := R.UnrefOp, Some(0), Some(0);
    match k
    case 0 => At(1, true, None, None, 0, false, R.Idle, Away)
    case 1 => At(1, true, None, None, 0, false, R.Idle, Test)
    case 2 => At(1, true, None, None, 0, false, R.Idle, LockTarget)
    case 3 => At(1, true, None, None, 0, false, R.Idle, Look)
    case 4 => At(1, true, None, None, 0, false, R.Idle, UnlockTarget(true))
    case 5 => At(1, true, None, None, 0, false, R.Idle, Sample)
    case 6 => At(1, true, None, None, 0, false, R.Sample(op), Sample)
    case 7 => At(1, true, None, None, 0, false, R.Check(op, true), Sample)
    case 8 => At(1, true, None, None, 0, false, R.LockWeak(op), Sample)
    case 9 => At(1, true, w, None, 0, false, R.LockObj(op, true), Sample)
    case 10 => At(1, true, w, o, 0, false, R.Change(op, true), Sample)
    case 11 => At(0, true, w, o, 1, false, R.UnlockObj(op, true, true), Sample)
    case 12 => At(0, true, w, None, 1, false, R.UnsetWeak, Sample)
    case 13 => At(0, false, w, None, 1, false, R.UnlockWeak(op, true), Sample)
    case 14 => At(0, false, None, None, 1, false, R.Destroy, Sample)
    case 15 => At(0, false, None, None, 1, true, R.Idle, Sample)
    case _ => At(0, false, None, None, 1, true, R.Idle, Wild)
  }

  function RaceEvent(k: nat): Event {
    if k == 0 then Event(1, Begin)
    else if k == 5 then Event(0, Other(R.Begin(R.UnrefOp)))
    else if 5 < k < 15 then Event(0, Other(R.Go))
    else Event(1, Go)
  }

  lemma RaceFinds(k: nat)
    requires k < 6
    ensures Enabled(Race(k), RaceEvent(k).thread, RaceEvent(k).action)
    ensures Next(Race(k), RaceEvent(k).thread, RaceEvent(k).action) == Race(k + 1)
  {
    if k == 0 {} else if k == 1 {} else if k == 2 {} else if k == 3 {} else if k == 4 {} else {}
  }

  lemma RaceDrops(k: nat)
    requires 6 <= k < 11
    ensures Enabled(Race(k), RaceEvent(k).thread, RaceEvent(k).action)
    ensures Next(Race(k), RaceEvent(k).thread, RaceEvent(k).action) == Race(k + 1)
  {
    if k == 6 {} else if k == 7 {} else if k == 8 {} else if k == 9 {} else {}
  }

  lemma RaceEnds(k: nat)
    requires 11 <= k < 16
    ensures Enabled(Race(k), RaceEvent(k).thread, RaceEvent(k).action)
    ensures Next(Race(k), RaceEvent(k).thread, RaceEvent(k).action) == Race(k + 1)
  {
    if k == 11 {} else if k == 12 {} else if k == 13 {} else if k == 14 {} else {}
  }

  lemma RaceStep(k: nat)
    requires k < 16
    ensures Enabled(Race(k), RaceEvent(k).thread, RaceEvent(k).action)
    ensures Next(Race(k), RaceEvent(k).thread, RaceEvent(k).action) == Race(k + 1)
  {
    hide Enabled, Next, Race, RaceEvent;
    if k < 6 { RaceFinds(k); } else if k < 11 { RaceDrops(k); } else { RaceEnds(k); }
  }

  /** Thread 0 owns the only reference, thread 1 the weak reference. Thread 1 finds the target set and lets go of the
      lock; thread 0 gives its reference back, which destroys the object; and thread 1 refs what it has found. */
  lemma RaceIsUnsafe()
    ensures exists states: seq<State>, events: seq<Event> ::
              Run(states, events) && Start(states[0]) && |states| == 17 && Unsafe(states[15], 1)
              && states[16].pcs[1] == Wild
  {
    hide Start, Enabled, Next;
    var states, events := seq(17, (k: nat) => Race(k)), seq(16, (k: nat) => RaceEvent(k));
    RaceStarts();
    forall k | 0 <= k < 16
      ensures Enabled(states[k], events[k].thread, events[k].action)
              && states[k + 1] == Next(states[k], events[k].thread, events[k].action)
    {
      RaceStep(k);
    }
    assert Run(states, events);
  }

  lemma RaceStarts()
    ensures Start(At(1, true, None, None, 0, false, R.Idle, Away))
  {
    var ts := [R.Thread(1, R.Idle), R.Thread(0, R.Idle)];
    assert ts[..1] == [R.Thread(1, R.Idle)] && ts[..1][..0] == [];
    assert R.Total(ts[..1]) == 1;
  }
}
