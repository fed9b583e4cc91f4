/** What `y_ref` and `y_unref` bring their callers when any number of threads call them: the references a thread owns,
    the count, and what is left of the object, read off the events of a run alone (yakka/Object.c). */
module RefOutcomes {
  import opened RefProtocol

  // ---------------------------------------------------------------------------------------
  // What a thread owns
  // ---------------------------------------------------------------------------------------

  /** In `y_ref`, and without the reference yet. */
  predicate Asking(pc: Pc) {
    (pc.Sample? || pc.Check? || pc.LockWeak? || pc.LockObj? || pc.Change?) && pc.op == RefOp
  }

  /** The references that a thread owns, with the one that it is asking for. */
  function Due(t: Thread): nat {
    t.owned + if Asking(t.pc) then 1 else 0
  }

  /** What an event brings a thread: a call of `y_ref` one reference, a call of `y_unref` one less, and a reference
      handed over goes from one thread to the other. */
  function Gain(e: Event, i: nat): int {
    match e.action
    case Begin(op) => if e.thread != i then 0 else if op == RefOp then 1 else -1
    case Give(j) => (if j == i then 1 else 0) - if e.thread == i then 1 else 0
    case Go => 0
  }

  function Balance(events: seq<Event>, i: nat): int {
    if events == [] then 0 else Balance(events[..|events| - 1], i) + Gain(events[|events| - 1], i)
  }

  /** The change, on a positive count. */
  lemma ChangeMoves(s: State, j: nat)
    requires j < |s.threads| && s.threads[j].pc.Change? && s.refcount > 0
    ensures var t := s.threads[j];
            var s' := Changed(s, j, t.pc.op, t.pc.weak);
            && |s'.threads| == |s.threads| && s'.threads == s.threads[j := s'.threads[j]]
            && Due(s'.threads[j]) == Due(t)
            && (t.pc.op == RefOp ==> s'.refcount == s.refcount + 1 && s'.threads[j].owned == t.owned + 1)
            && (t.pc.op == UnrefOp ==> s'.refcount == s.refcount - 1 && s'.threads[j].owned == t.owned)
            && (s'.refcount == 0 ==> s'.cleaner == j)
  {}

  /** A step of a call writes its own thread only, and takes nothing from it; it moves the count at the change only. */
  ghost predicate Moves(s: State, j: nat)
    requires Enabled(s, j, Go)
  {
    var s' := Next(s, j, Go);
    && |s'.threads| == |s.threads| && s'.threads == s.threads[j := s'.threads[j]]
    && Due(s'.threads[j]) == Due(s.threads[j])
    && (!s.threads[j].pc.Change? ==> s'.refcount == s.refcount)
  }

  lemma EarlyStep(s: State, j: nat)
    requires Enabled(s, j, Go) && s.refcount > 0
    requires var pc := s.threads[j].pc; pc.Sample? || pc.Check? || pc.LockWeak? || pc.LockObj?
    ensures Moves(s, j)
  {
    hide Changed;
  }

  lemma LateStep(s: State, j: nat)
    requires Enabled(s, j, Go)
    requires var pc := s.threads[j].pc; pc.UnlockObj? || pc.UnsetWeak? || pc.UnlockWeak? || pc.Destroy?
    ensures Moves(s, j)
  {
    hide Changed;
  }

  lemma GoMoves(s: State, j: nat)
    requires Inv(s) && Enabled(s, j, Go)
    ensures Moves(s, j)
  {
    var pc := s.threads[j].pc;
    if Giving(pc) || Taking(pc) { PendingIsPositive(s, j); }
    hide Inv, Next;
    if pc.Change? {
      ChangeMoves(s, j);
      ChangeIsMove(s, j);
    } else if pc.Sample? || pc.Check? || pc.LockWeak? || pc.LockObj? {
      EarlyStep(s, j);
    } else {
      LateStep(s, j);
    }
  }

  lemma ChangeIsMove(s: State, j: nat)
    requires Enabled(s, j, Go) && s.threads[j].pc.Change?
    ensures Next(s, j, Go) == Changed(s, j, s.threads[j].pc.op, s.threads[j].pc.weak)
  {
    hide Changed;
  }

  /** One step moves references as its event says. */
  lemma StepGains(s: State, j: nat, a: Action, i: nat)
    requires Inv(s) && Enabled(s, j, a) && i < |s.threads|
    ensures |Next(s, j, a).threads| == |s.threads|
    ensures Due(Next(s, j, a).threads[i]) == Due(s.threads[i]) + Gain(Event(j, a), i)
  {
    hide Total;
    if a.Go? {
      hide Inv, Enabled, Next;
      GoMoves(s, j);
    } else {
      hide Inv;
    }
  }

  /** In every run, a thread owns what it owned at the start, and one reference for each `y_ref` it has called and each
      one it was handed, less one for each `y_unref` it has called and each one it has handed over; during a `y_ref`
      the reference asked for may still be due. */
  lemma {:induction false} OwnedIsBalance(states: seq<State>, events: seq<Event>, k: nat, i: nat)
    requires Run(states, events) && Start(states[0]) && k < |states| && i < |states[0].threads|
    ensures |states[k].threads| == |states[0].threads|
    ensures Due(states[k].threads[i]) == states[0].threads[i].owned + Balance(events[..k], i)
    decreases k
  {
    hide Inv, Next, Enabled, Total, Gain;
    RunsKeep(states, events);
    if k > 0 {
      OwnedIsBalance(states, events, k - 1, i);
      StepGains(states[k - 1], events[k - 1].thread, events[k - 1].action, i);
      assert events[..k][..k - 1] == events[..k - 1];
    } else {
      assert states[0].threads[i] in states[0].threads;
    }
  }

  // ---------------------------------------------------------------------------------------
  // One call
  // ---------------------------------------------------------------------------------------

  /** Thread `i` calls `op` at event `a`, and is next between calls in state `b`. */
  ghost predicate Called(states: seq<State>, events: seq<Event>, a: nat, b: nat, i: nat, op: Op) {
    && a < b < |states| && a < |events| && events[a] == Event(i, Begin(op))
    && (forall k :: a < k < b ==> i < |states[k].threads| && !states[k].threads[i].pc.Idle?)
    && i < |states[b].threads| && states[b].threads[i].pc.Idle?
  }

  /** How many references a thread is handed. */
  function Gifts(events: seq<Event>, i: nat): nat {
    if events == [] then 0
    else Gifts(events[..|events| - 1], i) + if events[|events| - 1].action == Give(i) then 1 else 0
  }

  /** A thread that is in a call does nothing else. */
  lemma BusyGains(s: State, e: Event, i: nat)
    requires Enabled(s, e.thread, e.action) && i < |s.threads| && !s.threads[i].pc.Idle?
    ensures Gain(e, i) == if e.action == Give(i) then 1 else 0
  {}

  lemma {:induction false} CallBalance(states: seq<State>, events: seq<Event>, a: nat, b: nat, i: nat)
    requires Run(states, events) && a < b < |states|
    requires forall k :: a < k < b ==> i < |states[k].threads| && !states[k].threads[i].pc.Idle?
    ensures Balance(events[..b], i) == Balance(events[..a], i) + Gain(events[a], i) + Gifts(events[a + 1..b], i)
    decreases b
  {
    hide Next, Enabled, Gain;
    assert events[..b][..b - 1] == events[..b - 1];
    if a + 1 < b {
      CallBalance(states, events, a, b - 1, i);
      BusyGains(states[b - 1], events[b - 1], i);
      assert events[a + 1..b][..b - a - 2] == events[a + 1..b - 1];
    } else {
      assert events[a + 1..b] == [];
    }
  }

  lemma {:induction false} NoGifts(events: seq<Event>, i: nat)
    requires forall e :: e in events ==> e.action != Give(i)
    ensures Gifts(events, i) == 0
    decreases |events|
  {
    if events != [] { NoGifts(events[..|events| - 1], i); }
  }

  lemma {:induction false} Threads(states: seq<State>, events: seq<Event>, k: nat)
    requires Run(states, events) && Start(states[0]) && k < |states|
    ensures |states[k].threads| == |states[0].threads|
    decreases k
  {
    hide Inv, Next, Enabled, Total, Gain;
    RunsKeep(states, events);
    if k > 0 {
      Threads(states, events, k - 1);
      StepGains(states[k - 1], events[k - 1].thread, events[k - 1].action, events[k - 1].thread) by {
        assert Enabled(states[k - 1], events[k - 1].thread, events[k - 1].action);
        EnabledThread(states[k - 1], events[k - 1]);
      }
    }
  }

  lemma EnabledThread(s: State, e: Event)
    requires Enabled(s, e.thread, e.action)
    ensures e.thread < |s.threads|
  {}

  /** Whatever the other threads do: a call of `y_ref` leaves its caller with one reference more, and a call of
      `y_unref` with one less, besides those it is handed in the meantime. */
  lemma CallCounts(states: seq<State>, events: seq<Event>, a: nat, b: nat, i: nat, op: Op)
    requires Run(states, events) && Start(states[0]) && Called(states, events, a, b, i, op)
    ensures i < |states[a].threads|
    ensures var before, after := states[a].threads[i].owned, states[b].threads[i].owned;
            && after == before + (if op == RefOp then 1 else -1) + Gifts(events[a + 1..b], i)
            && ((forall k :: a < k < b ==> events[k].action != Give(i)) ==>
                  after == before + if op == RefOp then 1 else -1)
  {
    hide Inv, Next, Total, Balance;
    assert Enabled(states[a], i, Begin(op));
    hide Enabled;
    Threads(states, events, a);
    OwnedIsBalance(states, events, a, i);
    OwnedIsBalance(states, events, b, i);
    CallBalance(states, events, a, b, i);
    if forall k :: a < k < b ==> events[k].action != Give(i) {
      NoGifts(events[a + 1..b], i);
    }
  }

  // ---------------------------------------------------------------------------------------
  // The count
  // ---------------------------------------------------------------------------------------

  /** Whether the event is the change of the count, under the lock, by a thread in a call of `op`. */
  predicate Changes(s: State, e: Event, op: Op) {
    e.action == Go && e.thread < |s.threads| && s.threads[e.thread].pc.Change? && s.threads[e.thread].pc.op == op
  }

  /** In every interleaving the count moves at the changes only. The change of a `y_ref` raises the count by one, and
      gives its caller the reference; that of a `y_unref` lowers it by one. */
  lemma CountMoves(states: seq<State>, events: seq<Event>, k: nat)
    requires Run(states, events) && Start(states[0]) && k < |events|
    ensures var s, s', e := states[k], states[k + 1], events[k];
            && e.thread < |s.threads| == |s'.threads|
            && (Changes(s, e, RefOp) ==>
                  s'.refcount == s.refcount + 1 && s'.threads[e.thread].owned == s.threads[e.thread].owned + 1)
            && (Changes(s, e, UnrefOp) ==>
                  s'.refcount == s.refcount - 1 && s'.threads[e.thread].owned == s.threads[e.thread].owned)
            && (!Changes(s, e, RefOp) && !Changes(s, e, UnrefOp) ==> s'.refcount == s.refcount)
  {
    hide Total, Fits;
    RunsKeep(states, events);
    StepMoves(states[k], events[k]);
  }

  lemma StepMoves(s: State, e: Event)
    requires Inv(s) && Enabled(s, e.thread, e.action)
    ensures var s' := Next(s, e.thread, e.action);
            && e.thread < |s.threads| == |s'.threads|
            && (Changes(s, e, RefOp) ==>
                  s'.refcount == s.refcount + 1 && s'.threads[e.thread].owned == s.threads[e.thread].owned + 1)
            && (Changes(s, e, UnrefOp) ==>
                  s'.refcount == s.refcount - 1 && s'.threads[e.thread].owned == s.threads[e.thread].owned
                  && (s'.refcount == 0 ==> s'.cleaner == e.thread))
            && (!Changes(s, e, RefOp) && !Changes(s, e, UnrefOp) ==> s'.refcount == s.refcount)
  {
    hide Total;
    if e.action.Go? {
      GoMoves(s, e.thread);
      if s.threads[e.thread].pc.Change? {
        PendingIsPositive(s, e.thread);
        ChangeMoves(s, e.thread);
        ChangeIsMove(s, e.thread);
      }
      hide Inv, Next, Changed;
    } else {
      hide Inv;
    }
  }

  /** No thread is in a call. */
  predicate Quiet(s: State) {
    forall t :: t in s.threads ==> t.pc.Idle?
  }

  /** How many references the calls begun so far have asked for, less those they have given back. */
  function Asked(events: seq<Event>): int {
    if events == [] then 0
    else
      var before := Asked(events[..|events| - 1]);
      match events[|events| - 1].action
      case Begin(op) => before + if op == RefOp then 1 else -1
      case _ => before
  }

  function Dues(ts: seq<Thread>): nat {
    if ts == [] then 0 else Dues(ts[..|ts| - 1]) + Due(ts[|ts| - 1])
  }

  lemma {:induction false} DuesUpdate(ts: seq<Thread>, i: nat, t: Thread)
    requires i < |ts|
    ensures Dues(ts[i := t]) == Dues(ts) - Due(ts[i]) + Due(t)
    decreases |ts|
  {
    var n := |ts| - 1;
    if i < n {
      assert ts[i := t][..n] == ts[..n][i := t];
      DuesUpdate(ts[..n], i, t);
    } else {
      assert ts[i := t][..n] == ts[..n];
    }
  }

  lemma {:induction false} DuesQuiet(ts: seq<Thread>)
    requires forall t :: t in ts ==> t.pc.Idle?
    ensures Dues(ts) == Total(ts)
    decreases |ts|
  {
    if ts != [] { DuesQuiet(ts[..|ts| - 1]); }
  }

  lemma StepDues(s: State, j: nat, a: Action)
    requires Inv(s) && Enabled(s, j, a)
    ensures Dues(Next(s, j, a).threads)
            == Dues(s.threads) + if a.Begin? then if a.op == RefOp then 1 else -1 else 0
  {
    hide Dues, Total;
    var s' := Next(s, j, a);
    if a.Go? {
      hide Inv, Next;
      GoMoves(s, j);
      DuesUpdate(s.threads, j, s'.threads[j]);
    } else if a.Give? {
      var t, u := s.threads[j], s.threads[a.receiver];
      var ts := s.threads[j := t.(owned := t.owned - 1)];
      DuesUpdate(s.threads, j, t.(owned := t.owned - 1));
      DuesUpdate(ts, a.receiver, u.(owned := u.owned + 1));
      assert ts[a.receiver] == u;
    } else {
      DuesUpdate(s.threads, j, s'.threads[j]);
      hide Inv;
    }
  }

  lemma {:induction false} RunDues(states: seq<State>, events: seq<Event>, k: nat)
    requires Run(states, events) && Start(states[0]) && k < |states|
    ensures Dues(states[k].threads) == states[0].refcount + Asked(events[..k])
    decreases k
  {
    hide Inv, Next, Enabled, Total, Dues;
    RunsKeep(states, events);
    if k > 0 {
      RunDues(states, events, k - 1);
      StepDues(states[k - 1], events[k - 1].thread, events[k - 1].action);
      assert events[..k][..k - 1] == events[..k - 1];
    } else {
      DuesQuiet(states[0].threads);
    }
  }

  /** Conservation, from the events alone: whenever no thread is in a call, the count is what it was at the start, and
      one for each `y_ref` called, less one for each `y_unref` called; and the object has been destroyed, with its weak
      reference unset, if and only if that is zero. */
  lemma QuietCounts(states: seq<State>, events: seq<Event>, k: nat)
    requires Run(states, events) && Start(states[0]) && k < |states| && Quiet(states[k])
    ensures states[k].refcount == states[0].refcount + Asked(events[..k])
    ensures states[k].destroyed <==> states[0].refcount + Asked(events[..k]) == 0
    ensures states[k].slot == states[k].target == (states[0].slot && !states[k].destroyed)
  {
    hide Next, Enabled, Total, Dues, Asked, Fits;
    RunsKeep(states, events);
    RunDues(states, events, k);
    DuesQuiet(states[k].threads);
    SlotStays(states, events, k);
  }

  // ---------------------------------------------------------------------------------------
  // The weak reference slot, and the end of the object
  // ---------------------------------------------------------------------------------------

  /** The slot is cleared by the destruction and by nothing else; and the weak reference is set for as long as the count
      is positive. */
  lemma {:induction false} SlotStays(states: seq<State>, events: seq<Event>, k: nat)
    requires Run(states, events) && Start(states[0]) && k < |states|
    ensures states[k].slot == (states[0].slot && !states[k].destroyed)
    ensures states[k].refcount > 0 ==> states[k].target == states[0].slot
    decreases k
  {
    hide Inv, Next, Enabled, Total;
    RunsKeep(states, events);
    InvTarget(states[k]);
    if k > 0 {
      SlotStays(states, events, k - 1);
      StepSlot(states[k - 1], events[k - 1].thread, events[k - 1].action);
    }
  }

  lemma StepSlot(s: State, j: nat, a: Action)
    requires Enabled(s, j, a)
    ensures var s' := Next(s, j, a);
            (s'.slot == s.slot && s'.destroyed == s.destroyed) || (!s'.slot && s'.destroyed)
  {}

  lemma InvTarget(s: State)
    requires Inv(s)
    ensures s.refcount > 0 ==> !s.destroyed && s.target == s.slot
  {}

  /** The count stays zero, and nobody else is told to clean up. */
  lemma {:induction false} CleanerStays(states: seq<State>, events: seq<Event>, j: nat, k: nat)
    requires Run(states, events) && j <= k < |states| && states[j].refcount == 0
    ensures states[k].refcount == 0 && states[k].cleaner == states[j].cleaner
    decreases k
  {
    hide Next, Enabled;
    if j < k {
      CleanerStays(states, events, j, k - 1);
      StepCleaner(states[k - 1], events[k - 1].thread, events[k - 1].action);
    }
  }

  lemma StepCleaner(s: State, j: nat, a: Action)
    requires Enabled(s, j, a) && s.refcount == 0
    ensures Next(s, j, a).refcount == 0 && Next(s, j, a).cleaner == s.cleaner
  {}

  /** When the `y_unref` that has brought the count to zero returns, the object is destroyed, its weak reference unset
      and its slot cleared. */
  lemma LastUnrefDestroys(states: seq<State>, events: seq<Event>, j: nat, k: nat, i: nat)
    requires Run(states, events) && Start(states[0]) && j < k < |states|
    requires events[j].thread == i && Changes(states[j], events[j], UnrefOp) && states[j + 1].refcount == 0
    requires i < |states[k].threads| && states[k].threads[i].pc.Idle?
    ensures states[k].destroyed && !states[k].target && !states[k].slot
  {
    RunsKeep(states, events);
    StepMoves(states[j], events[j]);
    CleanerStays(states, events, j + 1, k);
    SlotStays(states, events, k);
    hide Next, Enabled, Total, Fits;
  }

  /** And a `y_unref` that leaves the count positive destroys nothing. */
  lemma OthersSpare(states: seq<State>, events: seq<Event>, k: nat)
    requires Run(states, events) && Start(states[0]) && k < |states| && states[k].refcount > 0
    ensures !states[k].destroyed
  {
    hide Inv, Next, Enabled, Total;
    RunsKeep(states, events);
    InvTarget(states[k]);
  }
}
