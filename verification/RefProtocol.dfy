/** `y_ref` and `y_unref` on one shared object, step by step, by any number of threads in any interleaving
    (yakka/Object.c). The object's weak reference, if it has one, was made before the threads started. */
module RefProtocol {
  import opened Options

  datatype Op = RefOp | UnrefOp

  /** Where a thread is: about to take the step named. `weak` is the local `has_weak_ref`, and `last` the local
      `do_cleanup`. */
  datatype Pc =
    | Idle
    | Sample(op: Op)
    | Check(op: Op, weak: bool)
    | LockWeak(op: Op)
    | LockObj(op: Op, weak: bool)
    | Change(op: Op, weak: bool)
    | UnlockObj(op: Op, weak: bool, last: bool)
    | UnsetWeak
    | UnlockWeak(op: Op, last: bool)
    | Destroy

  /** A thread and the references to the object that it owns, besides the one it may be giving back. */
  datatype Thread = Thread(owned: nat, pc: Pc)

  /** The object's count and `weak_ref` slot, the weak reference's target, the two mutexes with their owners, how
      many threads have been told to clean up and which one last, whether the object has been destroyed, and the
      threads. */
  datatype State = State(refcount: nat, slot: bool, target: bool, weakLock: Option<nat>, objLock: Option<nat>,
                         cleanups: nat, cleaner: nat, destroyed: bool, threads: seq<Thread>)

  /** What a thread may do next: begin a call with a reference that it owns, hand a reference to another thread,
      or take the next step of the call it is in. */
  datatype Action = Begin(op: Op) | Give(receiver: nat) | Go

  // ---------------------------------------------------------------------------------------
  // Steps
  // ---------------------------------------------------------------------------------------

  function Put(s: State, i: nat, pc: Pc): State
    requires i < |s.threads|
  {
    s.(threads := s.threads[i := s.threads[i].(pc := pc)])
  }

  predicate Enabled(s: State, i: nat, a: Action) {
    && i < |s.threads|
    && var t := s.threads[i];
       match a
       case Begin(_) => t.pc.Idle? && t.owned > 0
       case Give(j) => t.pc.Idle? && t.owned > 0 && j < |s.threads| && j != i
       case Go =>
         match t.pc
         case Idle => false
         case LockWeak(_) => s.weakLock == None
         case LockObj(_, _) => s.objLock == None
         case _ => true
  }

  /** The change of the count under the lock, after checking it again. */
  function Changed(s: State, i: nat, op: Op, weak: bool): State
    requires i < |s.threads|
  {
    if s.refcount == 0 then Put(s, i, UnlockObj(op, weak, false))
    else
      match op
      case RefOp =>
        s.(refcount := s.refcount + 1,
           threads := s.threads[i := Thread(s.threads[i].owned + 1, UnlockObj(op, weak, false))])
      case UnrefOp =>
        var n := s.refcount - 1;
        if n > 0 then Put(s, i, UnlockObj(op, weak, false)).(refcount := n)
        else Put(s, i, UnlockObj(op, weak, true)).(refcount := 0, cleanups := s.cleanups + 1, cleaner := i)
  }

  function Next(s: State, i: nat, a: Action): State
    requires Enabled(s, i, a)
  {
    var t := s.threads[i];
    match a
    case Begin(op) =>
      s.(threads := s.threads[i := Thread(if op == UnrefOp then t.owned - 1 else t.owned, Sample(op))])
    case Give(j) =>
      var u := s.threads[j];
      s.(threads := s.threads[i := t.(owned := t.owned - 1)][j := u.(owned := u.owned + 1)])
    case Go =>
      match t.pc
      case Sample(op) => Put(s, i, Check(op, s.slot))
      case Check(op, weak) =>
        Put(s, i, if s.refcount == 0 then Idle else if weak then LockWeak(op) else LockObj(op, false))
      case LockWeak(op) => Put(s, i, LockObj(op, true)).(weakLock := Some(i))
      case LockObj(op, weak) => Put(s, i, Change(op, weak)).(objLock := Some(i))
      case Change(op, weak) => Changed(s, i, op, weak)
      case UnlockObj(op, weak, last) =>
        Put(s, i, if weak && last then UnsetWeak else if weak then UnlockWeak(op, last)
                  else if last then Destroy else Idle).(objLock := None)
      case UnsetWeak => Put(s, i, UnlockWeak(UnrefOp, true)).(target := false)
      case UnlockWeak(op, last) => Put(s, i, if last then Destroy else Idle).(weakLock := None)
      case Destroy => Put(s, i, Idle).(destroyed := true, slot := false)
      case Idle => s
  }

  // ---------------------------------------------------------------------------------------
  // The invariant
  // ---------------------------------------------------------------------------------------

  /** The references a thread accounts for: those it owns, and the one it is about to give back. */
  function Refs(t: Thread): nat {
    t.owned + if Giving(t.pc) then 1 else 0
  }

  /** In `y_unref`, before the change. */
  predicate Giving(pc: Pc) {
    (pc.Sample? || pc.Check? || pc.LockWeak? || pc.LockObj? || pc.Change?) && pc.op == UnrefOp
  }

  /** In `y_ref`. */
  predicate Taking(pc: Pc) {
    (pc.Sample? || pc.Check? || pc.LockWeak? || pc.LockObj? || pc.Change? || pc.UnlockObj? || pc.UnlockWeak?)
    && pc.op == RefOp
  }

  /** Chosen to clean up. */
  predicate Last(pc: Pc) {
    pc.UnsetWeak? || pc.Destroy? || ((pc.UnlockObj? || pc.UnlockWeak?) && pc.last)
  }

  predicate HoldsWeak(pc: Pc) {
    pc.UnsetWeak? || pc.UnlockWeak? || ((pc.LockObj? || pc.Change? || pc.UnlockObj?) && pc.weak)
  }

  predicate HoldsObj(pc: Pc) {
    pc.Change? || pc.UnlockObj?
  }

  /** What the thread remembers of the slot is still true. */
  predicate Remembers(slot: bool, pc: Pc) {
    match pc
    case Check(_, weak) => weak == slot
    case LockWeak(_) => slot
    case LockObj(_, weak) => weak == slot
    case Change(_, weak) => weak == slot
    case UnlockObj(_, weak, _) => weak == slot
    case UnsetWeak => slot
    case UnlockWeak(_, _) => slot
    case _ => true
  }

  function Total(ts: seq<Thread>): nat {
    if ts == [] then 0 else Total(ts[..|ts| - 1]) + Refs(ts[|ts| - 1])
  }

  lemma {:induction false} TotalUpdate(ts: seq<Thread>, i: nat, t: Thread)
    requires i < |ts|
    ensures Total(ts[i := t]) == Total(ts) - Refs(ts[i]) + Refs(t)
    decreases |ts|
  {
    var n := |ts| - 1;
    if i < n {
      assert ts[i := t][..n] == ts[..n][i := t];
      TotalUpdate(ts[..n], i, t);
    } else {
      assert ts[i := t][..n] == ts[..n];
    }
  }

  lemma {:induction false} TotalBounds(ts: seq<Thread>, i: nat)
    requires i < |ts|
    ensures Refs(ts[i]) <= Total(ts)
    decreases |ts|
  {
    var n := |ts| - 1;
    if i < n {
      TotalBounds(ts[..n], i);
    }
  }

  /** One thread fits the shared state. */
  predicate Fits(s: State, i: nat)
    requires i < |s.threads|
  {
    var pc := s.threads[i].pc;
    && (Taking(pc) ==> s.threads[i].owned > 0)
    && (!s.destroyed ==> Remembers(s.slot, pc))
    && (HoldsWeak(pc) <==> s.weakLock == Some(i))
    && (HoldsObj(pc) <==> s.objLock == Some(i))
    && (s.destroyed ==> pc.Idle?)
    && (Last(pc) ==> s.refcount == 0 && ((pc.UnlockObj? || pc.UnlockWeak?) ==> pc.op == UnrefOp))
    && (pc.Destroy? || (pc.UnlockWeak? && pc.last) ==> !s.target || !s.slot)
  }

  ghost predicate Inv(s: State) {
    && s.refcount == Total(s.threads)
    && (forall i :: 0 <= i < |s.threads| ==> Fits(s, i))
    && (s.weakLock.Some? ==> s.weakLock.value < |s.threads|)
    && (s.objLock.Some? ==> s.objLock.value < |s.threads|)
    && s.cleanups == (if s.refcount == 0 then 1 else 0)
    && (s.refcount > 0 ==> !s.destroyed && s.target == s.slot)
    && (s.refcount == 0 ==> OneCleaner(s))
  }

  /** Once the count is zero, every thread is idle but the one that cleans up; and before the object is
      destroyed there is that one. */
  ghost predicate OneCleaner(s: State) {
    && s.cleaner < |s.threads|
    && (forall i :: 0 <= i < |s.threads| && i != s.cleaner ==> s.threads[i].pc.Idle?)
    && (!s.destroyed ==> Last(s.threads[s.cleaner].pc))
    && (s.target ==> HoldsWeak(s.threads[s.cleaner].pc))
  }

  // ---------------------------------------------------------------------------------------
  // Every step keeps the invariant
  // ---------------------------------------------------------------------------------------

  lemma BeginKeeps(s: State, i: nat, op: Op)
    requires Inv(s) && Enabled(s, i, Begin(op))
    ensures Inv(Next(s, i, Begin(op)))
  {
    var s' := Next(s, i, Begin(op));
    TotalUpdate(s.threads, i, s'.threads[i]);
    TotalBounds(s.threads, i);
    forall k | 0 <= k < |s'.threads|
      ensures Fits(s', k)
    {
      assert Fits(s, k);
    }
  }

  /** Handing over a reference changes nothing but who owns it. */
  lemma GiveTotal(s: State, i: nat, j: nat)
    requires Enabled(s, i, Give(j))
    ensures Total(Next(s, i, Give(j)).threads) == Total(s.threads)
    ensures forall k :: 0 <= k < |s.threads| ==> Next(s, i, Give(j)).threads[k].pc == s.threads[k].pc
  {
    hide Total;
    var t, u := s.threads[i], s.threads[j];
    var ts := s.threads[i := t.(owned := t.owned - 1)];
    TotalUpdate(s.threads, i, t.(owned := t.owned - 1));
    TotalUpdate(ts, j, u.(owned := u.owned + 1));
    assert ts[j] == u;
  }

  lemma GiveKeeps(s: State, i: nat, j: nat)
    requires Inv(s) && Enabled(s, i, Give(j))
    ensures Inv(Next(s, i, Give(j)))
  {
    hide Total;
    var s' := Next(s, i, Give(j));
    GiveTotal(s, i, j);
    forall k | 0 <= k < |s'.threads|
      ensures Fits(s', k)
    {
      assert Fits(s, k);
    }
    hide Fits;
  }

  /** A thread that is in a call, and not cleaning up, keeps the count above zero until its change is made. */
  lemma PendingIsPositive(s: State, i: nat)
    requires Inv(s) && i < |s.threads| && (Giving(s.threads[i].pc) || Taking(s.threads[i].pc))
    ensures s.refcount > 0
  {
    TotalBounds(s.threads, i);
    assert Fits(s, i);
  }

  /** Steps before the change move no reference, and take each lock at most from nobody. */
  lemma EarlyMoves(s: State, i: nat)
    requires Inv(s) && Enabled(s, i, Go)
    requires var pc := s.threads[i].pc; pc.Sample? || pc.Check? || pc.LockWeak? || pc.LockObj?
    ensures s.refcount > 0
    ensures Total(Next(s, i, Go).threads) == Total(s.threads)
  {
    PendingIsPositive(s, i);
    TotalUpdate(s.threads, i, Next(s, i, Go).threads[i]);
  }

  /** Steps before the change. */
  lemma EarlyKeeps(s: State, i: nat)
    requires Inv(s) && Enabled(s, i, Go)
    requires var pc := s.threads[i].pc; pc.Sample? || pc.Check? || pc.LockWeak? || pc.LockObj?
    ensures Inv(Next(s, i, Go))
  {
    hide Total, OneCleaner;
    var s' := Next(s, i, Go);
    EarlyMoves(s, i);
    assert Fits(s, i);
    forall k | 0 <= k < |s'.threads|
      ensures Fits(s', k)
    {
      assert Fits(s, k);
    }
    hide Fits;
  }

  lemma ChangeKeeps(s: State, i: nat)
    requires Inv(s) && Enabled(s, i, Go) && s.threads[i].pc.Change?
    ensures Inv(Next(s, i, Go))
  {
    var s' := Next(s, i, Go);
    PendingIsPositive(s, i);
    TotalUpdate(s.threads, i, s'.threads[i]);
    assert Fits(s, i);
    forall k | 0 <= k < |s'.threads|
      ensures Fits(s', k)
    {
      assert Fits(s, k);
    }
    if s'.refcount == 0 {
      assert Last(s'.threads[i].pc);
      forall k | 0 <= k < |s'.threads| && k != i
        ensures s'.threads[k].pc.Idle?
      {
        OthersIdle(s', i, k);
        assert Fits(s, k);
      }
    }
  }

  /** At a count of zero no other thread is in a call: one before its change would account for a reference, and
      one after it would hold a lock. */
  lemma OthersIdle(s: State, i: nat, k: nat)
    requires s.refcount == Total(s.threads) == 0 && i < |s.threads| && k < |s.threads| && k != i
    requires Fits(s, k) && s.objLock == Some(i) && !s.destroyed
    requires s.slot ==> s.weakLock == Some(i)
    ensures s.threads[k].pc.Idle? || s.threads[k].pc.Destroy?
  {
    TotalBounds(s.threads, k);
  }

  /** Steps after the change, by a thread that is not to clean up. */
  lemma LateKeeps(s: State, i: nat)
    requires Inv(s) && Enabled(s, i, Go) && !Last(s.threads[i].pc)
    requires var pc := s.threads[i].pc; pc.UnlockObj? || pc.UnlockWeak?
    ensures Inv(Next(s, i, Go))
  {
    var s' := Next(s, i, Go);
    TotalUpdate(s.threads, i, s'.threads[i]);
    assert Fits(s, i);
    forall k | 0 <= k < |s'.threads|
      ensures Fits(s', k)
    {
      assert Fits(s, k);
    }
  }

  lemma LastTotal(s: State, i: nat)
    requires Enabled(s, i, Go) && Last(s.threads[i].pc)
    ensures Total(Next(s, i, Go).threads) == Total(s.threads)
  {
    TotalUpdate(s.threads, i, Next(s, i, Go).threads[i]);
  }

  /** The thread that cleans up unlocks the object. */
  lemma LastUnlocks(s: State, i: nat)
    requires Inv(s) && Enabled(s, i, Go) && Last(s.threads[i].pc) && s.threads[i].pc.UnlockObj?
    ensures Inv(Next(s, i, Go))
  {
    hide Total;
    var s' := Next(s, i, Go);
    assert Fits(s, i);
    assert i == s.cleaner;
    LastTotal(s, i);
    forall k | 0 <= k < |s'.threads|
      ensures Fits(s', k)
    {
      assert Fits(s, k);
    }
  }

  /** It unsets the weak reference, and unlocks it. */
  lemma LastUnsets(s: State, i: nat)
    requires Inv(s) && Enabled(s, i, Go) && Last(s.threads[i].pc)
             && (s.threads[i].pc.UnsetWeak? || s.threads[i].pc.UnlockWeak?)
    ensures Inv(Next(s, i, Go))
  {
    hide Total;
    var s' := Next(s, i, Go);
    assert Fits(s, i);
    assert i == s.cleaner;
    LastTotal(s, i);
    forall k | 0 <= k < |s'.threads|
      ensures Fits(s', k)
    {
      assert Fits(s, k);
    }
  }

  /** It destroys the object. */
  lemma LastDestroys(s: State, i: nat)
    requires Inv(s) && Enabled(s, i, Go) && Last(s.threads[i].pc) && s.threads[i].pc.Destroy?
    ensures Inv(Next(s, i, Go))
  {
    hide Total;
    var s' := Next(s, i, Go);
    assert Fits(s, i);
    assert i == s.cleaner;
    LastTotal(s, i);
    forall k | 0 <= k < |s'.threads|
      ensures Fits(s', k)
    {
      assert Fits(s, k);
    }
  }

  /** Every step of every thread keeps the invariant. */
  lemma StepKeeps(s: State, i: nat, a: Action)
    requires Inv(s) && Enabled(s, i, a)
    ensures Inv(Next(s, i, a))
  {
    hide Inv, Next;
    match a
    case Begin(op) => BeginKeeps(s, i, op);
    case Give(j) => GiveKeeps(s, i, j);
    case Go =>
      var pc := s.threads[i].pc;
      if pc.Change? {
        ChangeKeeps(s, i);
      } else if pc.Sample? || pc.Check? || pc.LockWeak? || pc.LockObj? {
        EarlyKeeps(s, i);
      } else if Last(pc) {
        if pc.UnlockObj? { LastUnlocks(s, i); } else if pc.Destroy? { LastDestroys(s, i); } else { LastUnsets(s, i); }
      } else {
        LateKeeps(s, i);
      }
  }

  // ---------------------------------------------------------------------------------------
  // Runs
  // ---------------------------------------------------------------------------------------

  datatype Event = Event(thread: nat, action: Action)

  ghost predicate Run(states: seq<State>, events: seq<Event>) {
    && |states| == |events| + 1
    && forall k :: 0 <= k < |events| ==>
         Enabled(states[k], events[k].thread, events[k].action)
         && states[k + 1] == Next(states[k], events[k].thread, events[k].action)
  }

  /** The object with or without a weak reference, and threads that own all of its references. */
  ghost predicate Start(s: State) {
    && s.refcount == Total(s.threads) && s.refcount > 0 && s.target == s.slot
    && s.weakLock == None && s.objLock == None && s.cleanups == 0 && !s.destroyed
    && forall t :: t in s.threads ==> t.pc == Idle
  }

  lemma {:induction false} RunsKeep(states: seq<State>, events: seq<Event>)
    requires Run(states, events) && Start(states[0])
    ensures forall k :: 0 <= k < |states| ==> Inv(states[k])
    decreases |events|
  {
    hide Inv, Next, Enabled, Total;
    if events != [] {
      var n := |events| - 1;
      RunsKeep(states[..n + 1], events[..n]);
      assert states[..n + 1][n] == states[n];
      StepKeeps(states[n], events[n].thread, events[n].action);
    } else {
      StartKeeps(states[0]);
    }
  }

  lemma StartKeeps(s: State)
    requires Start(s)
    ensures Inv(s)
  {}

  /** No other thread is in a call, or may begin one. */
  predicate Alone(s: State, i: nat) {
    forall j :: 0 <= j < |s.threads| && j != i ==> s.threads[j].pc.Idle? && s.threads[j].owned == 0
  }

  lemma NobodyOwns(s: State)
    requires Inv(s) && s.refcount == 0
    ensures forall j :: 0 <= j < |s.threads| ==> s.threads[j].owned == 0
  {
    forall j | 0 <= j < |s.threads|
      ensures s.threads[j].owned == 0
    {
      TotalBounds(s.threads, j);
    }
  }

  lemma CleanerIsAlone(s: State, i: nat)
    requires Inv(s) && i < |s.threads| && Last(s.threads[i].pc)
    ensures s.refcount == 0 && Alone(s, i)
  {
    assert Fits(s, i);
    NobodyOwns(s);
  }

  /** The count is the number of references not yet given back; exactly one thread is told to clean up, and not before
      the count is zero; from the moment a thread is told to clean up, no other thread has a step of a call on the
      object pending or could begin one, and once the object is destroyed no thread has; and whenever the weak
      reference's lock is free, a target that is still set means a positive count. */
  ghost predicate Accounted(s: State) {
    && s.refcount == Total(s.threads)
    && s.cleanups == (if s.refcount == 0 then 1 else 0)
    && (forall i: nat :: i < |s.threads| && Last(s.threads[i].pc) ==> s.refcount == 0 && Alone(s, i))
    && (s.destroyed ==> s.refcount == 0 && forall j :: 0 <= j < |s.threads| ==> s.threads[j] == Thread(0, Idle))
    && (s.weakLock == None && s.target ==> s.refcount > 0)
  }

  lemma InvAccounts(s: State)
    requires Inv(s)
    ensures Accounted(s)
  {
    forall i: nat | i < |s.threads| && Last(s.threads[i].pc)
      ensures s.refcount == 0 && Alone(s, i)
    {
      CleanerIsAlone(s, i);
    }
    if s.destroyed {
      NobodyOwns(s);
      assert forall j :: 0 <= j < |s.threads| ==> Fits(s, j);
      assert forall j :: 0 <= j < |s.threads| ==> s.threads[j] == Thread(s.threads[j].owned, s.threads[j].pc);
    }
    if s.refcount == 0 {
      assert Fits(s, s.cleaner);
    }
  }

  /** In every interleaving the accounts hold. */
  lemma Interleavings(states: seq<State>, events: seq<Event>, k: nat)
    requires Run(states, events) && Start(states[0]) && k < |states|
    ensures var s := states[k];
            && s.refcount == Total(s.threads)
            && s.cleanups == (if s.refcount == 0 then 1 else 0)
            && (forall i: nat :: i < |s.threads| && Last(s.threads[i].pc) ==> s.refcount == 0 && Alone(s, i))
            && (s.destroyed ==> s.refcount == 0 && forall j :: 0 <= j < |s.threads| ==> s.threads[j] == Thread(0, Idle))
            && (s.weakLock == None && s.target ==> s.refcount > 0)
  {
    hide Inv, Next, Enabled, Total;
    RunsKeep(states, events);
    InvAccounts(states[k]);
  }

  /** Once zero, the count stays zero: no `y_ref` succeeds any more. */
  lemma {:induction false} ZeroStays(states: seq<State>, events: seq<Event>, j: nat, k: nat)
    requires Run(states, events) && j <= k < |states| && states[j].refcount == 0
    ensures states[k].refcount == 0
    decreases k
  {
    if j < k {
      ZeroStays(states, events, j, k - 1);
    }
  }

  /** In no interleaving does the check of the count fail, with or without the lock, for a caller that owns the
      reference it uses. What the call then brings it is said in `RefOutcomes`. */
  lemma ChecksPass(states: seq<State>, events: seq<Event>, k: nat, i: nat)
    requires Run(states, events) && Start(states[0]) && k < |states| && i < |states[k].threads|
    requires var pc := states[k].threads[i].pc; pc.Check? || pc.Change?
    ensures states[k].refcount > 0
  {
    hide Inv, Next, Enabled;
    RunsKeep(states, events);
    PendingIsPositive(states[k], i);
  }

  /** What a step reads from the object again is what the thread sampled at the start: the slot is set exactly
      when `has_weak_ref` says so, also at the reads that follow the unlocking of the object. */
  lemma RereadsAgree(states: seq<State>, events: seq<Event>, k: nat, i: nat)
    requires Run(states, events) && Start(states[0]) && k < |states| && i < |states[k].threads|
    ensures !states[k].threads[i].pc.Idle? ==>
              !states[k].destroyed && Remembers(states[k].slot, states[k].threads[i].pc)
  {
    hide Next, Enabled, Total;
    RunsKeep(states, events);
    assert Fits(states[k], i);
  }
}
