/** What `y_WeakRef_deref` brings its caller when other threads ref, unref and deref in between (yakka/WeakRef.c,
    yakka/Object.c). */
module DerefOutcomes {
  import R = RefProtocol
  import O = RefOutcomes
  import opened DerefProtocol

  /** Thread `i` begins a deref at event `a`, and is next between calls in state `b`. */
  ghost predicate Derefs(states: seq<State>, events: seq<Event>, a: nat, b: nat, i: nat) {
    && a < b < |states| && a < |events| && events[a] == Event(i, Begin)
    && (forall k :: a <= k <= b ==> i < |states[k].pcs| == |states[k].refs.threads|)
    && (forall k :: a < k < b ==> !states[k].pcs[i].Away?)
    && states[b].pcs[i].Away?
  }

  /** How many references a thread is handed. */
  function Gifts(events: seq<Event>, i: nat): nat {
    if events == [] then 0 else Gifts(events[..|events| - 1], i) + Gift(events[|events| - 1], i)
  }

  function Gift(e: Event, i: nat): nat {
    if e.action == Other(R.Give(i)) then 1 else 0
  }

  /** What the thread reads next tells it that there is nothing to be had: the target is unset, or the count zero. */
  predicate Fails(s: State, i: nat)
    requires i < |s.pcs|
  {
    var pc := s.pcs[i];
    ((pc.Test? || pc.Look?) && !s.refs.target) || ((pc.Check? || pc.Change?) && s.refs.refcount == 0)
  }

  ghost predicate Failed(states: seq<State>, events: seq<Event>, a: nat, b: nat, i: nat)
    requires a <= b <= |events| == |states| - 1
  {
    exists k :: a < k < b && events[k] == Event(i, Go) && i < |states[k].pcs| && Fails(states[k], i)
  }

  // ---------------------------------------------------------------------------------------
  // Steps
  // ---------------------------------------------------------------------------------------

  /** A step of a deref moves no reference but at the change, where it takes one if the count is positive. */
  lemma GoTakes(s: State, j: nat)
    requires Inv(s) && Enabled(s, j, Go)
    ensures var s' := Next(s, j, Go);
            && |s'.pcs| == |s.pcs| == |s.refs.threads| && s'.pcs == s.pcs[j := s'.pcs[j]]
            && s'.refs == if s.pcs[j].Change? && s.refs.refcount > 0 then Raised(s.refs, j) else s.refs
  {
    hide R.Total, R.Fits;
  }

  /** While a thread is in a deref, what it owns changes when it is handed a reference, and at its own change. */
  lemma StepOwns(s: State, j: nat, a: Action, i: nat)
    requires Inv(s) && Enabled(s, j, a) && i < |s.pcs| && !s.pcs[i].Away?
    ensures var s' := Next(s, j, a);
            && i < |s'.pcs| == |s'.refs.threads|
            && (j != i ==> s'.pcs[i] == s.pcs[i])
            && s'.refs.threads[i].owned
               == s.refs.threads[i].owned + Gift(Event(j, a), i)
                  + if j == i && s.pcs[i].Change? && s.refs.refcount > 0 then 1 else 0
  {
    hide R.Inv, R.Next, R.Enabled;
    match a
    case Other(b) =>
      assert j != i;
      OtherThreads(s.refs, j, b);
      O.StepGains(s.refs, j, b, i);
      OtherGains(j, b, i);
    case Begin =>
    case Go =>
      hide Next;
      GoTakes(s, j);
  }

  lemma OtherGains(j: nat, b: R.Action, i: nat)
    requires j != i
    ensures O.Gain(R.Event(j, b), i) == Gift(Event(j, Other(b)), i)
  {}

  /** Where a deref is, and what it has brought so far: nothing before the change, and one reference after it unless a
      read has failed. */
  predicate Phase(s: State, i: nat, base: nat, failed: bool)
    requires i < |s.pcs| == |s.refs.threads|
  {
    var pc := s.pcs[i];
    var unlocking := pc.UnlockObj? || pc.UnlockWeak?;
    && s.refs.threads[i].owned == base + (if !failed && (Got(pc) || pc.Away?) then 1 else 0)
    && (if failed then pc.Away? || pc == UnlockTarget(false) || (unlocking && !Got(pc))
        else pc != UnlockTarget(false) && (unlocking ==> Got(pc)))
  }

  lemma StepPhase(s: State, j: nat, a: Action, i: nat, base: nat, failed: bool)
    requires Inv(s) && Enabled(s, j, a) && i < |s.pcs| && !s.pcs[i].Away? && s.pcs[i] != Wild
    requires Phase(s, i, base, failed)
    ensures i < |Next(s, j, a).pcs| == |Next(s, j, a).refs.threads|
    ensures Next(s, j, a).pcs[i] != Wild ==>
              Phase(Next(s, j, a), i, base + Gift(Event(j, a), i), failed || (j == i && a == Go && Fails(s, i)))
  {
    hide R.Inv, R.Next, R.Enabled;
    StepOwns(s, j, a, i);
    if j == i {
      hide Inv;
    } else {
      hide Inv, Next, Enabled;
    }
  }

  // ---------------------------------------------------------------------------------------
  // A deref from beginning to end
  // ---------------------------------------------------------------------------------------

  lemma {:induction false} WildStays(states: seq<State>, events: seq<Event>, j: nat, k: nat, i: nat)
    requires Run(states, events) && Start(states[0]) && j <= k < |states| && i < |states[j].pcs|
    requires states[j].pcs[i] == Wild
    ensures i < |states[k].pcs| && states[k].pcs[i] == Wild
    decreases k
  {
    hide Inv, Next, Enabled, Start;
    if j < k {
      WildStays(states, events, j, k - 1, i);
      RunsKeep(states, events);
      StepWild(states[k - 1], events[k - 1].thread, events[k - 1].action, i);
    }
  }

  lemma StepWild(s: State, j: nat, a: Action, i: nat)
    requires Inv(s) && Enabled(s, j, a) && i < |s.pcs| && s.pcs[i] == Wild
    ensures i < |Next(s, j, a).pcs| && Next(s, j, a).pcs[i] == Wild
  {
    hide R.Inv, R.Next, R.Enabled;
  }

  lemma BeginPhase(s: State, i: nat)
    requires Inv(s) && Enabled(s, i, Begin)
    ensures i < |Next(s, i, Begin).pcs| == |Next(s, i, Begin).refs.threads|
    ensures Phase(Next(s, i, Begin), i, s.refs.threads[i].owned, false)
    ensures Next(s, i, Begin).refs == s.refs && Next(s, i, Begin).pcs[i] == Test
  {
    hide R.Inv, R.Enabled;
  }

  lemma {:induction false} DerefPhase(states: seq<State>, events: seq<Event>, a: nat, k: nat, b: nat, i: nat)
    requires Run(states, events) && Start(states[0]) && Derefs(states, events, a, b, i) && a < k <= b
    ensures Phase(states[k], i, states[a].refs.threads[i].owned + Gifts(events[a + 1..k], i),
                  Failed(states, events, a, k, i))
    decreases k
  {
    hide Inv, Next, Enabled, Start, Phase;
    RunsKeep(states, events);
    if a + 1 < k {
      DerefPhase(states, events, a, k - 1, b, i);
      assert states[k - 1].pcs[i] != Wild && states[k].pcs[i] != Wild by {
        if states[k - 1].pcs[i] == Wild { WildStays(states, events, k - 1, b, i); }
        if states[k].pcs[i] == Wild { WildStays(states, events, k, b, i); }
      }
      var e := events[k - 1];
      StepPhase(states[k - 1], e.thread, e.action, i, states[a].refs.threads[i].owned + Gifts(events[a + 1..k - 1], i),
                Failed(states, events, a, k - 1, i));
      assert events[a + 1..k][..k - a - 2] == events[a + 1..k - 1];
      FailedStep(states, events, a, k, i);
    } else {
      BeginPhase(states[a], i);
      assert events[a + 1..k] == [];
    }
  }

  lemma FailedStep(states: seq<State>, events: seq<Event>, a: nat, k: nat, i: nat)
    requires a + 1 < k <= |events| == |states| - 1 && i < |states[k - 1].pcs|
    ensures Failed(states, events, a, k, i)
            <==> Failed(states, events, a, k - 1, i) || (events[k - 1] == Event(i, Go) && Fails(states[k - 1], i))
  {}

  /** In every interleaving, a deref that returns brings its caller exactly one reference, or none: none if and only if
      it has read that the target is unset or the count zero. */
  lemma DerefYields(states: seq<State>, events: seq<Event>, a: nat, b: nat, i: nat)
    requires Run(states, events) && Start(states[0]) && Derefs(states, events, a, b, i)
    ensures states[b].refs.threads[i].owned
            == states[a].refs.threads[i].owned + Gifts(events[a + 1..b], i)
               + if Failed(states, events, a, b, i) then 0 else 1
  {
    hide Run, Start, Failed;
    DerefPhase(states, events, a, b, b, i);
  }

  // ---------------------------------------------------------------------------------------
  // When it finds the object
  // ---------------------------------------------------------------------------------------

  /** The target is never set again, and is not unset while the count is positive. */
  lemma TargetKept(r: R.State, j: nat, b: R.Action)
    requires R.Inv(r) && R.Enabled(r, j, b)
    ensures R.Next(r, j, b).target ==> r.target
    ensures R.Next(r, j, b).refcount > 0 && r.target ==> R.Next(r, j, b).target
  {
    if b.Go? {
      var pc := r.threads[j].pc;
      if pc.UnsetWeak? || pc.Destroy? { R.CleanerIsAlone(r, j); }
      hide R.Inv;
    } else {
      hide R.Inv;
    }
  }

  lemma StepTarget(s: State, j: nat, a: Action)
    requires Inv(s) && Enabled(s, j, a)
    ensures Next(s, j, a).refs.target ==> s.refs.target
    ensures Next(s, j, a).refs.refcount > 0 && s.refs.target ==> Next(s, j, a).refs.target
  {
    hide R.Inv, R.Next, R.Enabled;
    if a.Other? { TargetKept(s.refs, j, a.action); }
  }

  lemma {:induction false} TargetStays(states: seq<State>, events: seq<Event>, j: nat, k: nat)
    requires Run(states, events) && Start(states[0]) && j <= k < |states|
    ensures states[k].refs.target ==> states[j].refs.target
    ensures states[k].refs.refcount > 0 && states[j].refs.target ==> states[k].refs.target
    decreases k
  {
    hide Inv, Next, Enabled, Start;
    RunsKeep(states, events);
    if j < k {
      TargetStays(states, events, j, k - 1);
      StepTarget(states[k - 1], events[k - 1].thread, events[k - 1].action);
      if states[k - 1].refs.refcount == 0 { ZeroStays(states, events, k - 1, k); }
    }
  }

  /** A deref of a weak reference that is set finds the object, if the object is still referred to when it returns: the
      caller owns exactly one reference more. */
  lemma DerefFinds(states: seq<State>, events: seq<Event>, a: nat, b: nat, i: nat)
    requires Run(states, events) && Start(states[0]) && Derefs(states, events, a, b, i)
    requires states[a].refs.target && states[b].refs.refcount > 0
    ensures states[b].refs.threads[i].owned == states[a].refs.threads[i].owned + Gifts(events[a + 1..b], i) + 1
  {
    hide Run, Start, Gifts;
    DerefYields(states, events, a, b, i);
    forall k | a < k < b && i < |states[k].pcs|
      ensures !Fails(states[k], i)
    {
      if states[k].refs.refcount == 0 { ZeroStays(states, events, k, b); }
      TargetStays(states, events, a, k);
    }
  }

  /** So it does in every interleaving in which some thread keeps a reference meanwhile. */
  lemma KeptIsFound(states: seq<State>, events: seq<Event>, a: nat, b: nat, keeper: nat, i: nat)
    requires Run(states, events) && Start(states[0]) && Derefs(states, events, a, b, i) && states[0].refs.slot
    requires forall k :: a <= k <= b ==> keeper < |states[k].refs.threads| && states[k].refs.threads[keeper].owned > 0
    requires forall k :: a < k < b ==> events[k].action != Other(R.Give(i))
    ensures states[b].refs.threads[i].owned == states[a].refs.threads[i].owned + 1
  {
    hide Next, Enabled, Inv;
    RunsKeep(states, events);
    KeeperRefs(states[a], keeper);
    KeeperRefs(states[b], keeper);
    hide R.Start;
    StartTarget(states[0]);
    TargetStays(states, events, 0, a);
    DerefFinds(states, events, a, b, i);
    NoGifts(events[a + 1..b], i);
  }

  lemma StartTarget(s: State)
    requires Start(s)
    ensures s.refs.target == s.refs.slot
  {}

  lemma {:induction false} NoGifts(events: seq<Event>, i: nat)
    requires forall e :: e in events ==> e.action != Other(R.Give(i))
    ensures Gifts(events, i) == 0
    decreases |events|
  {
    if events != [] { NoGifts(events[..|events| - 1], i); }
  }

  /** The deref has not come further than it can while there is nothing to be had. */
  predicate Hopeless(s: State, i: nat)
    requires i < |s.pcs|
  {
    var pc := s.pcs[i];
    (!s.refs.target && pc.Test?)
    || (s.refs.refcount == 0 && !pc.Away? && pc != UnlockTarget(false) && !pc.UnlockObj? && !pc.UnlockWeak?
        && !pc.Wild?)
  }

  lemma StepHopeless(s: State, j: nat, a: Action, i: nat)
    requires Inv(s) && Enabled(s, j, a) && i < |s.pcs| && Hopeless(s, i)
    requires !(j == i && a == Go && Fails(s, i))
    ensures i < |Next(s, j, a).pcs|
    ensures Next(s, j, a).pcs[i] != Wild ==> Hopeless(Next(s, j, a), i)
  {
    hide R.Inv, R.Next, R.Enabled;
    if a.Other? {
      TargetKept(s.refs, j, a.action);
      if s.refs.refcount == 0 { StepZero(s.refs, j, a.action); }
    }
    hide Inv;
  }

  lemma StepZero(r: R.State, j: nat, b: R.Action)
    requires R.Enabled(r, j, b) && r.refcount == 0
    ensures R.Next(r, j, b).refcount == 0
  {}

  lemma {:induction false} HopelessFails(states: seq<State>, events: seq<Event>, a: nat, k: nat, b: nat, i: nat)
    requires Run(states, events) && Start(states[0]) && Derefs(states, events, a, b, i) && a < k <= b
    requires !states[a].refs.target || states[a].refs.refcount == 0
    ensures Failed(states, events, a, k, i) || Hopeless(states[k], i)
    decreases k
  {
    hide Inv, Next, Enabled, Start, Hopeless;
    RunsKeep(states, events);
    if a + 1 < k {
      HopelessFails(states, events, a, k - 1, b, i);
      if states[k].pcs[i] == Wild { WildStays(states, events, k, b, i); }
      FailedStep(states, events, a, k, i);
      if !Failed(states, events, a, k, i) {
        StepHopeless(states[k - 1], events[k - 1].thread, events[k - 1].action, i);
      }
    } else {
      BeginPhase(states[a], i);
      BeginHopeless(states[k], i);
    }
  }

  lemma BeginHopeless(s: State, i: nat)
    requires i < |s.pcs| && s.pcs[i] == Test && (!s.refs.target || s.refs.refcount == 0)
    ensures Hopeless(s, i)
  {}

  /** A deref that begins with the weak reference unset, or after the last reference has been given back, brings
      nothing. */
  lemma NothingIsFound(states: seq<State>, events: seq<Event>, a: nat, b: nat, i: nat)
    requires Run(states, events) && Start(states[0]) && Derefs(states, events, a, b, i)
    requires !states[a].refs.target || states[a].refs.refcount == 0
    ensures states[b].refs.threads[i].owned == states[a].refs.threads[i].owned + Gifts(events[a + 1..b], i)
  {
    hide Run, Start, Failed;
    DerefYields(states, events, a, b, i);
    HopelessFails(states, events, a, b, b, i);
  }

  // ---------------------------------------------------------------------------------------
  // Refs and unrefs in between
  // ---------------------------------------------------------------------------------------

  /** Thread `i` calls `y_ref` or `y_unref` at event `a`, and is next between calls in state `b`. */
  ghost predicate Calls(states: seq<State>, events: seq<Event>, a: nat, b: nat, i: nat, op: R.Op) {
    && a < b < |states| && a < |events| && events[a] == Event(i, Other(R.Begin(op)))
    && (forall k :: a <= k <= b ==> i < |states[k].refs.threads|)
    && (forall k :: a < k < b ==> !states[k].refs.threads[i].pc.Idle?)
    && states[b].refs.threads[i].pc.Idle?
  }

  lemma StepDue(s: State, j: nat, a: Action, i: nat)
    requires Inv(s) && Enabled(s, j, a) && i < |s.refs.threads| && !s.refs.threads[i].pc.Idle?
    ensures i < |Next(s, j, a).refs.threads|
    ensures O.Due(Next(s, j, a).refs.threads[i]) == O.Due(s.refs.threads[i]) + Gift(Event(j, a), i)
  {
    hide R.Inv, R.Next, R.Enabled;
    match a
    case Other(b) =>
      O.StepGains(s.refs, j, b, i);
      O.BusyGains(s.refs, R.Event(j, b), i);
    case Begin =>
    case Go =>
      assert j != i;
      hide Next;
      GoTakes(s, j);
  }

  lemma BeginDue(s: State, i: nat, op: R.Op)
    requires Inv(s) && Enabled(s, i, Other(R.Begin(op)))
    ensures i < |Next(s, i, Other(R.Begin(op))).refs.threads|
    ensures O.Due(Next(s, i, Other(R.Begin(op))).refs.threads[i])
            == s.refs.threads[i].owned + if op == R.RefOp then 1 else -1
  {
    hide R.Inv;
  }

  lemma {:induction false} CallDue(states: seq<State>, events: seq<Event>, a: nat, k: nat, b: nat, i: nat, op: R.Op)
    requires Run(states, events) && Start(states[0]) && Calls(states, events, a, b, i, op) && a < k <= b
    ensures O.Due(states[k].refs.threads[i])
            == states[a].refs.threads[i].owned + (if op == R.RefOp then 1 else -1) + Gifts(events[a + 1..k], i)
    decreases k
  {
    hide Inv, Next, Enabled, Start, O.Due;
    RunsKeep(states, events);
    if a + 1 < k {
      CallDue(states, events, a, k - 1, b, i, op);
      StepDue(states[k - 1], events[k - 1].thread, events[k - 1].action, i);
      assert events[a + 1..k][..k - a - 2] == events[a + 1..k - 1];
    } else {
      BeginDue(states[a], i, op);
      assert events[a + 1..k] == [];
    }
  }

  /** Derefs by other threads take nothing from a `y_ref` and give nothing to a `y_unref`. */
  lemma CallCounts(states: seq<State>, events: seq<Event>, a: nat, b: nat, i: nat, op: R.Op)
    requires Run(states, events) && Start(states[0]) && Calls(states, events, a, b, i, op)
    ensures states[b].refs.threads[i].owned
            == states[a].refs.threads[i].owned + (if op == R.RefOp then 1 else -1) + Gifts(events[a + 1..b], i)
  {
    hide Run, Start, Gifts;
    CallDue(states, events, a, b, b, i, op);
  }
}
