/** The moves that `LockOrder` gives each call are the locking and unlocking steps that the protocols take. */
module LockSteps {
  import opened Options
  import L = LockOrder
  import R = RefProtocol
  import O = RefOutcomes
  import D = DerefProtocol
  import DO = DerefOutcomes
  import I = IdProtocol

  /** What one step does to a mutex, seen from one thread. */
  function Shift(before: Option<nat>, after: Option<nat>, i: nat, lock: L.Lock): seq<L.Move> {
    if before != Some(i) && after == Some(i) then [L.Acquire(lock)]
    else if before == Some(i) && after != Some(i) then [L.Unlock(lock)]
    else []
  }

  // ---------------------------------------------------------------------------------------
  // y_ref and y_unref
  // ---------------------------------------------------------------------------------------

  /** What thread `i` does to the mutexes of object `id` and its weak reference `w` from state `a` to state `b`. */
  function RefMoves(states: seq<R.State>, a: nat, b: nat, i: nat, id: nat, w: nat): seq<L.Move>
    requires a <= b < |states|
    decreases b
  {
    if a == b then []
    else
      RefMoves(states, a, b - 1, i, id, w)
      + Shift(states[b - 1].weakLock, states[b].weakLock, i, L.Object(w))
      + Shift(states[b - 1].objLock, states[b].objLock, i, L.Object(id))
  }

  /** The moves of a call that has come as far as `pc`. */
  function RefDone(pc: R.Pc, slot: bool, id: nat, w: nat): seq<L.Move> {
    var start := if slot then [L.Acquire(L.Object(w))] else [];
    match pc
    case Sample(_) => []
    case Check(_, _) => []
    case LockWeak(_) => []
    case LockObj(_, _) => start
    case Change(_, _) => start + [L.Acquire(L.Object(id))]
    case UnlockObj(_, _, _) => start + [L.Acquire(L.Object(id))]
    case UnsetWeak => start + [L.Acquire(L.Object(id)), L.Unlock(L.Object(id))]
    case UnlockWeak(_, _) => start + [L.Acquire(L.Object(id)), L.Unlock(L.Object(id))]
    case _ => L.Moves(L.CountCall(id, if slot then Some(w) else None))
  }

  /** Which mutexes a thread owns is said by where it is. */
  lemma RefOwner(s: R.State, i: nat)
    requires R.Inv(s) && i < |s.threads|
    ensures s.weakLock == Some(i) <==> R.HoldsWeak(s.threads[i].pc)
    ensures s.objLock == Some(i) <==> R.HoldsObj(s.threads[i].pc)
    ensures !s.threads[i].pc.Idle? ==> !s.destroyed && R.Remembers(s.slot, s.threads[i].pc)
  {
    assert R.Fits(s, i);
  }

  /** The step that a call takes next. */
  predicate Leads(pc: R.Pc, pc': R.Pc) {
    match pc
    case Sample(_) => pc'.Check?
    case Check(_, weak) => if weak then pc'.LockWeak? else pc'.LockObj? && !pc'.weak
    case LockWeak(_) => pc'.LockObj? && pc'.weak
    case LockObj(_, weak) => pc'.Change? && pc'.weak == weak
    case Change(_, weak) => pc'.UnlockObj? && pc'.weak == weak
    case UnlockObj(_, weak, _) => if weak then pc'.UnsetWeak? || pc'.UnlockWeak? else pc'.Destroy? || pc'.Idle?
    case UnsetWeak => pc'.UnlockWeak?
    case UnlockWeak(_, _) => pc'.Destroy? || pc'.Idle?
    case Destroy => pc'.Idle?
    case Idle => true
  }

  /** In every state that is reached neither check of the count fails, so that every call takes its locks. */
  lemma GoLeads(s: R.State, i: nat)
    requires R.Inv(s) && R.Enabled(s, i, R.Go)
    ensures |R.Next(s, i, R.Go).threads| == |s.threads|
    ensures Leads(s.threads[i].pc, R.Next(s, i, R.Go).threads[i].pc)
  {
    var pc := s.threads[i].pc;
    if pc.Check? { R.PendingIsPositive(s, i); }
    hide R.Inv;
    if pc.Change? {
      O.ChangeIsMove(s, i);
      ChangeLeads(s, i);
      hide R.Changed, R.Next;
    } else {
      hide R.Changed;
    }
  }

  lemma ChangeLeads(s: R.State, i: nat)
    requires i < |s.threads| && s.threads[i].pc.Change?
    ensures var pc := s.threads[i].pc;
            var s' := R.Changed(s, i, pc.op, pc.weak);
            |s'.threads| == |s.threads| && Leads(pc, s'.threads[i].pc)
  {}

  /** A mutex changes hands as the holder's next step says. */
  function Turn(before: bool, after: bool, lock: L.Lock): seq<L.Move> {
    if !before && after then [L.Acquire(lock)] else if before && !after then [L.Unlock(lock)] else []
  }

  lemma LeadsOn(pc: R.Pc, pc': R.Pc, slot: bool, id: nat, w: nat)
    requires Leads(pc, pc') && R.Remembers(slot, pc) && !pc.Idle?
    ensures RefDone(pc', slot, id, w)
            == RefDone(pc, slot, id, w) + Turn(R.HoldsWeak(pc), R.HoldsWeak(pc'), L.Object(w))
               + Turn(R.HoldsObj(pc), R.HoldsObj(pc'), L.Object(id))
  {}

  /** One step of a call. */
  lemma StepRefMoves(s: R.State, j: nat, a: R.Action, i: nat, id: nat, w: nat)
    requires R.Inv(s) && R.Enabled(s, j, a) && R.Inv(R.Next(s, j, a)) && i < |s.threads| && !s.threads[i].pc.Idle?
    ensures var s' := R.Next(s, j, a);
            i < |s'.threads|
            && RefDone(s'.threads[i].pc, s.slot, id, w)
               == RefDone(s.threads[i].pc, s.slot, id, w)
                  + Shift(s.weakLock, s'.weakLock, i, L.Object(w)) + Shift(s.objLock, s'.objLock, i, L.Object(id))
  {
    var s' := R.Next(s, j, a);
    RefOwner(s, i);
    if j == i {
      assert a == R.Go;
      GoLeads(s, i);
      LeadsOn(s.threads[i].pc, s'.threads[i].pc, s.slot, id, w);
    } else {
      D.OtherThreads(s, j, a);
    }
    RefOwner(s', i);
    hide R.Inv, R.Next, R.Enabled, R.HoldsWeak, R.HoldsObj, R.Remembers, Leads, RefDone;
  }

  lemma {:induction false} RefMovesSoFar(states: seq<R.State>, events: seq<R.Event>, a: nat, k: nat, b: nat, i: nat,
                                         op: R.Op, id: nat, w: nat)
    requires R.Run(states, events) && R.Start(states[0]) && O.Called(states, events, a, b, i, op) && a < k <= b
    ensures i < |states[k].threads|
    ensures RefMoves(states, a, k, i, id, w) == RefDone(states[k].threads[i].pc, states[0].slot, id, w)
    decreases k
  {
    hide R.Inv, R.Next, R.Enabled, R.Start, RefDone, Shift;
    R.RunsKeep(states, events);
    if a + 1 < k {
      RefMovesSoFar(states, events, a, k - 1, b, i, op, id, w);
      O.SlotStays(states, events, k - 1);
      RefOwner(states[k - 1], i);
      var s, e := states[k - 1], events[k - 1];
      assert R.Enabled(s, e.thread, e.action) && states[k] == R.Next(s, e.thread, e.action);
      assert !s.threads[i].pc.Idle? && R.Inv(states[k]);
      StepRefMoves(s, e.thread, e.action, i, id, w);
    } else {
      assert RefMoves(states, a, a, i, id, w) == [];
      BeginRefMoves(states[a], i, op, id, w, states[0].slot);
    }
  }

  lemma BeginRefMoves(s: R.State, i: nat, op: R.Op, id: nat, w: nat, slot: bool)
    requires R.Enabled(s, i, R.Begin(op))
    ensures var s' := R.Next(s, i, R.Begin(op));
            i < |s'.threads| && RefDone(s'.threads[i].pc, slot, id, w) == []
            && Shift(s.weakLock, s'.weakLock, i, L.Object(w)) == []
            && Shift(s.objLock, s'.objLock, i, L.Object(id)) == []
  {}

  /** Whatever the other threads do, a call of `y_ref` or `y_unref` takes and gives back the mutexes that `LockOrder`
      says, in that order. */
  lemma CountCallSteps(states: seq<R.State>, events: seq<R.Event>, a: nat, b: nat, i: nat, op: R.Op, id: nat, w: nat)
    requires R.Run(states, events) && R.Start(states[0]) && O.Called(states, events, a, b, i, op)
    ensures RefMoves(states, a, b, i, id, w)
            == L.Moves(L.CountCall(id, if states[0].slot then Some(w) else None))
  {
    hide R.Run, R.Start, RefMoves;
    RefMovesSoFar(states, events, a, b, b, i, op, id, w);
  }

  // ---------------------------------------------------------------------------------------
  // y_WeakRef_deref
  // ---------------------------------------------------------------------------------------

  predicate HoldsWeak(pc: D.Pc) {
    pc.Look? || pc.UnlockTarget? || pc.UnlockWeak? || ((pc.LockObj? || pc.Change? || pc.UnlockObj?) && pc.weak)
  }

  predicate HoldsObj(pc: D.Pc) {
    pc.Change? || pc.UnlockObj?
  }

  /** Which mutexes a thread has locked for a deref is said by where it is; and no mutex is locked twice. */
  ghost predicate Owners(s: D.State) {
    && |s.pcs| == |s.refs.threads|
    && (forall i: nat :: i < |s.pcs| && s.pcs[i] != D.Wild ==>
          (HoldsWeak(s.pcs[i]) <==> s.weakLock == Some(i)) && (HoldsObj(s.pcs[i]) <==> s.objLock == Some(i)))
    && (s.weakLock == None || s.refs.weakLock == None)
    && (s.objLock == None || s.refs.objLock == None)
  }

  /** A step of `y_ref` or `y_unref` locks a mutex when it says so. */
  lemma RefLocks(r: R.State, j: nat, b: R.Action)
    requires R.Enabled(r, j, b)
    ensures |R.Next(r, j, b).threads| == |r.threads|
    ensures R.Next(r, j, b).weakLock.Some? ==> r.weakLock.Some? || (b.Go? && r.threads[j].pc.LockWeak?)
    ensures R.Next(r, j, b).objLock.Some? ==> r.objLock.Some? || (b.Go? && r.threads[j].pc.LockObj?)
  {
    D.OtherThreads(r, j, b);
  }

  lemma StepOwners(s: D.State, j: nat, a: D.Action)
    requires Owners(s) && D.Enabled(s, j, a)
    ensures Owners(D.Next(s, j, a))
  {
    hide R.Next, R.Enabled;
    match a
    case Other(b) => RefLocks(s.refs, j, b);
    case Begin =>
    case Go => GoOwners(s, j);
  }

  lemma GoOwners(s: D.State, j: nat)
    requires Owners(s) && D.Enabled(s, j, D.Go)
    ensures Owners(D.Next(s, j, D.Go))
  {
    if !D.Unsafe(s, j) {
      GoingOwners(s, j);
      hide D.Going;
    }
  }

  lemma GoingOwners(s: D.State, j: nat)
    requires Owners(s) && D.Enabled(s, j, D.Go)
    ensures Owners(D.Going(s, j))
  {}

  lemma StartOwners(s: D.State)
    requires D.Start(s)
    ensures Owners(s)
  {
    assert forall i: nat :: i < |s.pcs| ==> s.pcs[i] in s.pcs;
  }

  lemma {:induction false} RunOwners(states: seq<D.State>, events: seq<D.Event>, k: nat)
    requires D.Run(states, events) && D.Start(states[0]) && k < |states|
    ensures Owners(states[k])
    decreases k
  {
    hide D.Next, D.Enabled, D.Start, Owners;
    if k > 0 {
      RunOwners(states, events, k - 1);
      StepOwners(states[k - 1], events[k - 1].thread, events[k - 1].action);
    } else {
      StartOwners(states[0]);
    }
  }

  /** A thread between locking and unlocking the weak reference, in whichever call. */
  predicate HasWeak(s: D.State, i: nat) {
    i < |s.pcs| == |s.refs.threads| && (R.HoldsWeak(s.refs.threads[i].pc) || HoldsWeak(s.pcs[i]))
  }

  /** A thread between locking and unlocking the object, in whichever call. */
  predicate HasObj(s: D.State, i: nat) {
    i < |s.pcs| == |s.refs.threads| && (R.HoldsObj(s.refs.threads[i].pc) || HoldsObj(s.pcs[i]))
  }

  /** In every interleaving of refs, unrefs and derefs, threads take turns between locking and unlocking the weak
      reference, and between locking and unlocking the object. */
  lemma MutexesExclude(states: seq<D.State>, events: seq<D.Event>, k: nat, i: nat, j: nat)
    requires D.Run(states, events) && D.Start(states[0]) && k < |states|
    ensures HasWeak(states[k], i) && HasWeak(states[k], j) ==> i == j
    ensures HasObj(states[k], i) && HasObj(states[k], j) ==> i == j
  {
    hide D.Next, D.Enabled, D.Start;
    D.RunsKeep(states, events);
    RunOwners(states, events, k);
    var s := states[k];
    if i < |s.pcs| { RefOwner(s.refs, i); }
    if j < |s.pcs| { RefOwner(s.refs, j); }
    hide R.Inv;
  }

  /** What thread `i` does to the two mutexes for its derefs from state `a` to state `b`. */
  function DerefMoves(states: seq<D.State>, a: nat, b: nat, i: nat, id: nat, w: nat): seq<L.Move>
    requires a <= b < |states|
    decreases b
  {
    if a == b then []
    else
      DerefMoves(states, a, b - 1, i, id, w)
      + Shift(states[b - 1].weakLock, states[b].weakLock, i, L.Object(w))
      + Shift(states[b - 1].objLock, states[b].objLock, i, L.Object(id))
  }

  /** The moves of a deref that has come as far as `pc`, where it is not over. */
  function DerefDone(pc: D.Pc, id: nat, w: nat): seq<L.Move> {
    var read := L.Moves(L.DerefCall(w));
    match pc
    case Test => []
    case LockTarget => []
    case Look => [L.Acquire(L.Object(w))]
    case UnlockTarget(_) => [L.Acquire(L.Object(w))]
    case LockObj(_) => read + [L.Acquire(L.Object(w))]
    case Change(_) => read + [L.Acquire(L.Object(w)), L.Acquire(L.Object(id))]
    case UnlockObj(_, _) => read + [L.Acquire(L.Object(w)), L.Acquire(L.Object(id))]
    case UnlockWeak(_) => read + [L.Acquire(L.Object(w)), L.Acquire(L.Object(id)), L.Unlock(L.Object(id))]
    case _ => read
  }

  /** The read without the lock tells the deref that there is nothing to be had. */
  predicate FailsFirst(s: D.State, i: nat) {
    i < |s.pcs| && s.pcs[i].Test? && !s.refs.target
  }

  /** A read before the object is locked tells it so. */
  predicate FailsEarly(s: D.State, i: nat) {
    i < |s.pcs| && (((s.pcs[i].Test? || s.pcs[i].Look?) && !s.refs.target) || (s.pcs[i].Check? && s.refs.refcount == 0))
  }

  ghost predicate FailedFirst(states: seq<D.State>, events: seq<D.Event>, a: nat, b: nat, i: nat)
    requires a <= b <= |events| == |states| - 1
  {
    exists k :: a < k < b && events[k] == D.Event(i, D.Go) && FailsFirst(states[k], i)
  }

  ghost predicate FailedEarly(states: seq<D.State>, events: seq<D.Event>, a: nat, b: nat, i: nat)
    requires a <= b <= |events| == |states| - 1
  {
    exists k :: a < k < b && events[k] == D.Event(i, D.Go) && FailsEarly(states[k], i)
  }

  /** The moves of a deref that is over. */
  function DerefWhole(first: bool, early: bool, id: nat, w: nat): seq<L.Move> {
    if first then []
    else if early then L.Moves(L.DerefCall(w))
    else L.Moves(L.DerefCall(w)) + L.Moves(L.CountCall(id, Some(w)))
  }

  /** The moves of a deref that has come as far as `pc`, and what it knows there. */
  predicate DerefMoved(moves: seq<L.Move>, pc: D.Pc, first: bool, early: bool, id: nat, w: nat) {
    if pc.Away? then moves == DerefWhole(first, early, id, w)
    else moves == DerefDone(pc, id, w) && !first && (early <==> pc == D.UnlockTarget(false))
  }

  /** A deref that has found the target set samples that there is a weak reference. */
  predicate Sampled(pc: D.Pc, slot: bool) {
    && (pc.Check? || pc.LockObj? || pc.Change? || pc.UnlockObj? ==> pc.weak)
    && (pc.Away? || pc.Test? || pc.Wild? || slot)
  }

  /** The step that a deref takes next; `fails` when it reads that there is nothing to be had. */
  predicate DerefLeads(pc: D.Pc, pc': D.Pc, fails: bool) {
    match pc
    case Test => pc' == if fails then D.Away else D.LockTarget
    case LockTarget => pc' == D.Look
    case Look => pc' == D.UnlockTarget(!fails)
    case UnlockTarget(found) => pc' == if found then D.Sample else D.Away
    case Sample => pc'.Check?
    case Check(weak) => pc' == if fails then D.Away else if weak then D.LockWeak else D.LockObj(false)
    case LockWeak => pc' == D.LockObj(true)
    case LockObj(weak) => pc' == D.Change(weak)
    case Change(weak) => pc' == D.UnlockObj(weak, !fails)
    case UnlockObj(weak, got) => pc' == if weak then D.UnlockWeak(got) else D.Away
    case UnlockWeak(_) => pc' == D.Away
    case _ => false
  }

  /** A deref goes its way, unless it touches a destroyed object. */
  lemma DerefGoes(s: D.State, i: nat, slot: bool)
    requires D.Enabled(s, i, D.Go) && Sampled(s.pcs[i], slot) && D.Next(s, i, D.Go).pcs[i] != D.Wild
    requires s.refs.slot == (slot && !s.refs.destroyed) && (s.refs.target ==> slot)
    ensures DerefLeads(s.pcs[i], D.Next(s, i, D.Go).pcs[i], DO.Fails(s, i))
    ensures Sampled(D.Next(s, i, D.Go).pcs[i], slot)
  {}

  lemma DerefLeadsOn(pc: D.Pc, pc': D.Pc, fails: bool, first: bool, early: bool, slot: bool, moves: seq<L.Move>,
                     id: nat, w: nat)
    requires DerefLeads(pc, pc', fails) && Sampled(pc, slot) && !pc.Away?
    requires fails ==> pc.Test? || pc.Look? || pc.Check? || pc.Change?
    requires DerefMoved(moves, pc, first, early, id, w)
    ensures DerefMoved(moves + Turn(HoldsWeak(pc), HoldsWeak(pc'), L.Object(w))
                       + Turn(HoldsObj(pc), HoldsObj(pc'), L.Object(id)), pc',
                       first || (fails && pc.Test?), early || (fails && !pc.Change?), id, w)
  {}

  lemma FailsSplit(s: D.State, i: nat)
    requires i < |s.pcs|
    ensures FailsFirst(s, i) <==> DO.Fails(s, i) && s.pcs[i].Test?
    ensures FailsEarly(s, i) <==> DO.Fails(s, i) && !s.pcs[i].Change?
    ensures DO.Fails(s, i) ==> var pc := s.pcs[i]; pc.Test? || pc.Look? || pc.Check? || pc.Change?
  {}

  /** What `Owners` says of one thread. */
  lemma OwnerAt(s: D.State, i: nat)
    requires Owners(s) && i < |s.pcs| && s.pcs[i] != D.Wild
    ensures HoldsWeak(s.pcs[i]) <==> s.weakLock == Some(i)
    ensures HoldsObj(s.pcs[i]) <==> s.objLock == Some(i)
  {}

  lemma OtherPcs(s: D.State, j: nat, a: D.Action, i: nat)
    requires D.Enabled(s, j, a) && i < |s.pcs| && !s.pcs[i].Away?
    ensures |D.Next(s, j, a).pcs| == |s.pcs|
    ensures j != i ==> D.Next(s, j, a).pcs[i] == s.pcs[i]
    ensures j == i ==> a == D.Go
  {
    hide R.Next, R.Enabled;
  }

  /** One step of a deref. */
  lemma StepDerefMoves(s: D.State, j: nat, a: D.Action, i: nat, slot: bool, moves: seq<L.Move>, first: bool,
                       early: bool, id: nat, w: nat)
    requires D.Enabled(s, j, a) && Owners(s) && Owners(D.Next(s, j, a))
    requires i < |s.pcs| && i < |D.Next(s, j, a).pcs| && !s.pcs[i].Away? && s.pcs[i] != D.Wild
    requires D.Next(s, j, a).pcs[i] != D.Wild
    requires s.refs.slot == (slot && !s.refs.destroyed) && (s.refs.target ==> slot)
    requires Sampled(s.pcs[i], slot) && DerefMoved(moves, s.pcs[i], first, early, id, w)
    ensures var s' := D.Next(s, j, a);
            && Sampled(s'.pcs[i], slot)
            && DerefMoved(moves + Shift(s.weakLock, s'.weakLock, i, L.Object(w))
                          + Shift(s.objLock, s'.objLock, i, L.Object(id)), s'.pcs[i],
                          first || (j == i && a == D.Go && FailsFirst(s, i)),
                          early || (j == i && a == D.Go && FailsEarly(s, i)), id, w)
  {
    var s' := D.Next(s, j, a);
    OtherPcs(s, j, a, i);
    OwnerAt(s, i);
    OwnerAt(s', i);
    FailsSplit(s, i);
    if j == i {
      DerefGoes(s, i, slot);
      hide D.Next, D.Enabled, Owners;
      DerefLeadsOn(s.pcs[i], s'.pcs[i], DO.Fails(s, i), first, early, slot, moves, id, w);
      hide DerefLeads;
    } else {
      assert moves + [] + [] == moves;
      hide D.Next, D.Enabled, Owners;
    }
    hide HoldsWeak, HoldsObj, Sampled, DerefMoved, DO.Fails, FailsFirst, FailsEarly;
  }

  lemma FailedSteps(states: seq<D.State>, events: seq<D.Event>, a: nat, k: nat, i: nat)
    requires a + 1 < k <= |events| == |states| - 1
    ensures FailedFirst(states, events, a, k, i)
            <==> FailedFirst(states, events, a, k - 1, i)
                 || (events[k - 1] == D.Event(i, D.Go) && FailsFirst(states[k - 1], i))
    ensures FailedEarly(states, events, a, k, i)
            <==> FailedEarly(states, events, a, k - 1, i)
                 || (events[k - 1] == D.Event(i, D.Go) && FailsEarly(states[k - 1], i))
  {
    hide FailsFirst, FailsEarly;
  }

  lemma {:induction false} DerefSlot(states: seq<D.State>, events: seq<D.Event>, k: nat)
    requires D.Run(states, events) && D.Start(states[0]) && k < |states|
    ensures states[k].refs.slot == (states[0].refs.slot && !states[k].refs.destroyed)
    ensures states[k].refs.target ==> states[0].refs.slot
    decreases k
  {
    hide D.Next, D.Enabled, D.Inv;
    if k > 0 {
      DerefSlot(states, events, k - 1);
      D.RunsKeep(states, events);
      StepDerefSlot(states[k - 1], events[k - 1].thread, events[k - 1].action);
    }
  }

  lemma StepDerefSlot(s: D.State, j: nat, a: D.Action)
    requires D.Inv(s) && D.Enabled(s, j, a)
    ensures var r, r' := s.refs, D.Next(s, j, a).refs;
            && ((r'.slot == r.slot && r'.destroyed == r.destroyed) || (!r'.slot && r'.destroyed))
            && (r'.target ==> r.target)
  {
    hide R.Next, R.Enabled;
    if a.Other? {
      O.StepSlot(s.refs, j, a.action);
      DO.TargetKept(s.refs, j, a.action);
    }
    hide R.Inv;
  }

  lemma {:induction false} DerefMovesSoFar(states: seq<D.State>, events: seq<D.Event>, a: nat, k: nat, b: nat, i: nat,
                                           id: nat, w: nat)
    requires D.Run(states, events) && D.Start(states[0]) && DO.Derefs(states, events, a, b, i) && a < k <= b
    ensures Sampled(states[k].pcs[i], states[0].refs.slot)
    ensures DerefMoved(DerefMoves(states, a, k, i, id, w), states[k].pcs[i], FailedFirst(states, events, a, k, i),
                       FailedEarly(states, events, a, k, i), id, w)
    decreases k
  {
    hide D.Inv, D.Next, D.Enabled, D.Start, Owners, Sampled, DerefMoved, Shift, FailedFirst, FailedEarly, FailsFirst,
         FailsEarly;
    RunOwners(states, events, k);
    if a + 1 < k {
      DerefMovesSoFar(states, events, a, k - 1, b, i, id, w);
      RunOwners(states, events, k - 1);
      DerefSlot(states, events, k - 1);
      NotWild(states, events, a, k - 1, b, i);
      NotWild(states, events, a, k, b, i);
      FailedSteps(states, events, a, k, i);
      StepDerefMoves(states[k - 1], events[k - 1].thread, events[k - 1].action, i, states[0].refs.slot,
                     DerefMoves(states, a, k - 1, i, id, w), FailedFirst(states, events, a, k - 1, i),
                     FailedEarly(states, events, a, k - 1, i), id, w);
    } else {
      assert DerefMoves(states, a, a, i, id, w) == [];
      assert D.Enabled(states[a], events[a].thread, events[a].action);
      BeginDerefMoves(states[a], i, id, w, states[0].refs.slot);
      assert states[k] == D.Next(states[a], i, D.Begin);
      assert DerefMoves(states, a, k, i, id, w) == [];
      NoneFailed(states, events, a, k, i);
    }
  }

  lemma NoneFailed(states: seq<D.State>, events: seq<D.Event>, a: nat, k: nat, i: nat)
    requires a + 1 == k <= |events| == |states| - 1
    ensures !FailedFirst(states, events, a, k, i) && !FailedEarly(states, events, a, k, i)
  {}

  lemma NotWild(states: seq<D.State>, events: seq<D.Event>, a: nat, k: nat, b: nat, i: nat)
    requires D.Run(states, events) && D.Start(states[0]) && DO.Derefs(states, events, a, b, i) && a < k <= b
    ensures states[k].pcs[i] != D.Wild
  {
    hide D.Run, D.Start;
    if states[k].pcs[i] == D.Wild { DO.WildStays(states, events, k, b, i); }
  }

  lemma BeginDerefMoves(s: D.State, i: nat, id: nat, w: nat, slot: bool)
    requires D.Enabled(s, i, D.Begin)
    ensures var s' := D.Next(s, i, D.Begin);
            && i < |s'.pcs| && Sampled(s'.pcs[i], slot) && DerefMoved([], s'.pcs[i], false, false, id, w)
            && Shift(s.weakLock, s'.weakLock, i, L.Object(w)) == []
            && Shift(s.objLock, s'.objLock, i, L.Object(id)) == []
  {}

  /** A deref that returns has taken and given back exactly the mutexes that `LockOrder` says: those of the deref itself
      and then those of the `y_ref` on what it found. It takes the first alone, if it read under the lock that the
      target is unset, or then that the count is zero; and none, if it read at once that the target is unset. */
  lemma DerefCallSteps(states: seq<D.State>, events: seq<D.Event>, a: nat, b: nat, i: nat, id: nat, w: nat)
    requires D.Run(states, events) && D.Start(states[0]) && DO.Derefs(states, events, a, b, i)
    ensures DerefMoves(states, a, b, i, id, w)
            == if FailedFirst(states, events, a, b, i) then []
               else if FailedEarly(states, events, a, b, i) then L.Moves(L.DerefCall(w))
               else L.Moves(L.DerefCall(w)) + L.Moves(L.CountCall(id, Some(w)))
  {
    hide D.Run, D.Start, DerefMoves, FailedFirst, FailedEarly;
    DerefMovesSoFar(states, events, a, b, b, i, id, w);
  }

  // ---------------------------------------------------------------------------------------
  // y_Runtime_get_interface_id
  // ---------------------------------------------------------------------------------------

  /** What thread `i` does to the runtime's mutex from state `a` to state `b`. */
  function IdMoves(states: seq<I.State>, a: nat, b: nat, i: nat): seq<L.Move>
    requires a <= b < |states|
    decreases b
  {
    if a == b then []
    else IdMoves(states, a, b - 1, i) + Shift(states[b - 1].lock, states[b].lock, i, L.Runtime)
  }

  /** Whether the first look, without the lock, has found the name. */
  ghost predicate FoundAtOnce(states: seq<I.State>, events: seq<I.Event>, a: nat, b: nat, i: nat)
    requires a <= b <= |events| == |states| - 1
  {
    exists k :: a < k < b && events[k] == I.Event(i, I.Go) && FindsAtOnce(states[k], i)
  }

  predicate FindsAtOnce(s: I.State, i: nat) {
    i < |s.threads| && s.threads[i].Check? && s.threads[i].name in s.ids.of
  }

  /** The moves of a request that has come as far as `pc`. */
  function IdDone(pc: I.Pc, found: bool): seq<L.Move> {
    match pc
    case Check(_) => []
    case Lock(_) => []
    case Idle => if found then [] else L.Moves(L.InterfaceCall)
    case _ => [L.Acquire(L.Runtime)]
  }

  lemma StepIdMoves(s: I.State, j: nat, a: I.Action, i: nat)
    requires I.Inv(s) && I.Enabled(s, j, a) && i < |s.threads| && !s.threads[i].Idle?
    ensures var s' := I.Next(s, j, a);
            && i < |s'.threads|
            && (!s'.threads[i].Idle? ==> !(j == i && FindsAtOnce(s, i)))
            && IdDone(s'.threads[i], j == i && a == I.Go && FindsAtOnce(s, i))
               == IdDone(s.threads[i], false) + Shift(s.lock, s'.lock, i, L.Runtime)
  {}

  lemma {:induction false} IdMovesSoFar(states: seq<I.State>, events: seq<I.Event>, a: nat, k: nat, b: nat, i: nat,
                                        name: string)
    requires I.Run(states, events) && I.Start(states[0]) && I.Requests(states, events, a, b, i, name) && a < k <= b
    ensures IdMoves(states, a, k, i) == IdDone(states[k].threads[i], FoundAtOnce(states, events, a, k, i))
    ensures k < b ==> !FoundAtOnce(states, events, a, k, i)
    decreases k
  {
    hide I.Inv, I.Next, I.Enabled, I.Start, IdDone, Shift, FindsAtOnce;
    I.RunsKeep(states, events);
    if a + 1 < k {
      IdMovesSoFar(states, events, a, k - 1, b, i, name);
      StepIdMoves(states[k - 1], events[k - 1].thread, events[k - 1].action, i);
      BusyGoes(states[k - 1], events[k - 1], i);
    } else {
      assert IdMoves(states, a, a, i) == [];
      AskMoves(states[a], i, name);
    }
  }

  /** A thread in a request can only go on. */
  lemma BusyGoes(s: I.State, e: I.Event, i: nat)
    requires I.Enabled(s, e.thread, e.action) && i < |s.threads| && !s.threads[i].Idle?
    ensures e.thread == i ==> e == I.Event(i, I.Go)
  {}

  lemma AskMoves(s: I.State, i: nat, name: string)
    requires I.Enabled(s, i, I.Ask(name))
    ensures var s' := I.Next(s, i, I.Ask(name));
            i < |s'.threads| && IdDone(s'.threads[i], false) == [] && Shift(s.lock, s'.lock, i, L.Runtime) == []
  {}

  /** A request takes the runtime's mutex and gives it back, once, unless the first look has found the name; then it
      takes none. */
  lemma InterfaceCallSteps(states: seq<I.State>, events: seq<I.Event>, a: nat, b: nat, i: nat, name: string)
    requires I.Run(states, events) && I.Start(states[0]) && I.Requests(states, events, a, b, i, name)
    ensures IdMoves(states, a, b, i)
            == if FoundAtOnce(states, events, a, b, i) then [] else L.Moves(L.InterfaceCall)
  {
    hide I.Run, I.Start, IdMoves, FoundAtOnce;
    IdMovesSoFar(states, events, a, b, b, i, name);
  }
}
