/** The order in which the library takes its mutexes: weak reference, referent, runtime (yakka/Object.c,
    yakka/WeakRef.c, yakka/Runtime.c). */
module LockOrder {
  import opened Options
  import Accounts
  import Heaps
  import Runs
  import Onward

  /** The mutex of an object, or that of the runtime. Objects are numbered in the order of their creation, so that
      a weak reference has a larger number than its referent. */
  datatype Lock = Object(id: nat) | Runtime

  datatype Move = Acquire(lock: Lock) | Unlock(lock: Lock)

  /** The locking calls of the library on a path without errors. `weak` is what the call finds in the object's
      `weak_ref` slot; `WeakRefCall` is `y_weak_ref` on first use, making weak reference `w`; and `InterfaceCall` is
      a request for an identifier that the first look, without the lock, has not found. `LockSteps` shows that the
      moves below are the steps of the protocols. */
  datatype Operation =
    | CountCall(id: nat, weak: Option<nat>)
    | WeakRefCall(id: nat, w: nat)
    | DerefCall(w: nat)
    | PoolCall
    | InterfaceCall

  /** `y_ref` and `y_unref` lock the weak reference around the object. */
  function Around(id: nat, weak: Option<nat>): seq<Move> {
    var inner := [Acquire(Object(id)), Unlock(Object(id))];
    if weak.Some? then [Acquire(Object(weak.value))] + inner + [Unlock(Object(weak.value))] else inner
  }

  /** The moves of one call. `y_weak_ref` creates the weak reference, for which it draws a pool, while it holds the
      object, and then refs it, which has no weak reference of its own yet; `y_WeakRef_deref` unlocks the weak
      reference before it refs the target, and that is a `CountCall` of its own. */
  function Moves(op: Operation): seq<Move> {
    match op
    case CountCall(id, weak) => Around(id, weak)
    case WeakRefCall(id, w) =>
      [Acquire(Object(id)), Acquire(Runtime), Unlock(Runtime), Unlock(Object(id))] + Around(w, None)
    case DerefCall(w) => [Acquire(Object(w)), Unlock(Object(w))]
    case PoolCall => [Acquire(Runtime), Unlock(Runtime)]
    case InterfaceCall => [Acquire(Runtime), Unlock(Runtime)]
  }

  /** A weak reference is younger than its referent. */
  predicate Aged(op: Operation) {
    match op
    case CountCall(id, weak) => weak.Some? ==> id < weak.value
    case WeakRefCall(id, w) => id < w
    case _ => true
  }

  /** In every run of the library, whatever the calls, each object's weak reference is younger than the object. */
  lemma RunsAreAged(worlds: seq<Runs.World>, calls: seq<Runs.Call>, k: nat, r: Heaps.Ref)
    requires Runs.Run(worlds, calls) && Runs.Good(worlds[0]) && Accounts.Aging(worlds[0].heap)
    requires k < |worlds| && r in worlds[k].heap.objs
    ensures Aged(CountCall(r, worlds[k].heap.objs[r].body.weakRef))
  {
    hide Runs.Run, Runs.Good;
    Onward.RunsMoveOn(worlds, calls, 0, k);
  }

  /** A thread's whole program: any number of calls, one after the other. The calls that a destroy cascade makes
      are among them, since `y_destroy` runs when `y_unref` has unlocked everything. */
  function Program(ops: seq<Operation>): seq<Move> {
    if ops == [] then [] else Program(ops[..|ops| - 1]) + Moves(ops[|ops| - 1])
  }

  // ---------------------------------------------------------------------------------------
  // Programs descend
  // ---------------------------------------------------------------------------------------

  /** The runtime comes last, and younger objects come before older ones. */
  function Rank(l: Lock): nat {
    match l
    case Object(id) => id + 1
    case Runtime => 0
  }

  /** The locks held after a stretch of moves. */
  function Holding(moves: seq<Move>): set<Lock> {
    if moves == [] then {}
    else
      var before := Holding(moves[..|moves| - 1]);
      match moves[|moves| - 1]
      case Acquire(l) => before + {l}
      case Unlock(l) => before - {l}
  }

  /** A move is in order: it takes a lock below all that are held, or gives back one that is held. */
  ghost predicate Orderly(held: set<Lock>, m: Move) {
    match m
    case Acquire(l) => forall k :: k in held ==> Rank(l) < Rank(k)
    case Unlock(l) => l in held
  }

  /** Every move of the stretch is in order. */
  ghost predicate Descends(moves: seq<Move>) {
    forall i :: 0 <= i < |moves| ==> Orderly(Holding(moves[..i]), moves[i])
  }

  lemma {:induction false} HoldingAfter(a: seq<Move>, b: seq<Move>)
    requires Holding(a) == {}
    ensures Holding(a + b) == Holding(b)
    decreases |b|
  {
    if b == [] {
      assert a + b == a;
    } else {
      assert (a + b)[..|a + b| - 1] == a + b[..|b| - 1];
      HoldingAfter(a, b[..|b| - 1]);
    }
  }

  /** One after the other, complete stretches descend. */
  lemma DescendsAppend(a: seq<Move>, b: seq<Move>)
    requires Descends(a) && Descends(b) && Holding(a) == {}
    ensures Descends(a + b) && Holding(a + b) == Holding(b)
  {
    HoldingAfter(a, b);
    forall i | 0 <= i < |a + b|
      ensures Orderly(Holding((a + b)[..i]), (a + b)[i])
    {
      if i < |a| {
        assert (a + b)[..i] == a[..i];
      } else {
        assert (a + b)[..i] == a + b[..i - |a|];
        HoldingAfter(a, b[..i - |a|]);
      }
    }
  }

  lemma PairDescends(l: Lock)
    ensures var moves := [Acquire(l), Unlock(l)]; Descends(moves) && Holding(moves) == {}
  {}

  /** Holding one lock around a stretch that uses lower ones. */
  lemma NestDescends(l: Lock, k: Lock)
    requires Rank(k) < Rank(l)
    ensures var moves := [Acquire(l), Acquire(k), Unlock(k), Unlock(l)]; Descends(moves) && Holding(moves) == {}
  {
    var moves := [Acquire(l), Acquire(k), Unlock(k), Unlock(l)];
    var m1, m2, m3 := moves[..1], moves[..2], moves[..3];
    assert moves[..0] == [] && moves[..4] == moves;
    assert m1[..0] == [] && m2[..1] == m1 && m3[..2] == m2 && moves[..3] == m3;
    assert Holding(m1) == {l};
    assert Holding(m2) == {l, k};
    assert Holding(m3) == {l};
    assert Holding(moves) == {};
  }

  lemma MovesDescend(op: Operation)
    requires Aged(op)
    ensures Descends(Moves(op)) && Holding(Moves(op)) == {}
  {
    match op
    case CountCall(id, weak) =>
      if weak.Some? {
        var l, k := Object(weak.value), Object(id);
        assert Moves(op) == [Acquire(l), Acquire(k), Unlock(k), Unlock(l)];
        NestDescends(l, k);
      } else {
        PairDescends(Object(id));
      }
    case WeakRefCall(id, w) =>
      NestDescends(Object(id), Runtime);
      PairDescends(Object(w));
      DescendsAppend([Acquire(Object(id)), Acquire(Runtime), Unlock(Runtime), Unlock(Object(id))], Around(w, None));
    case DerefCall(w) => PairDescends(Object(w));
    case PoolCall => PairDescends(Runtime);
    case InterfaceCall => PairDescends(Runtime);
  }

  /** Every program takes its locks in strictly descending order, along weak-reference chains of any length, and
      ends with none. */
  lemma {:induction false} ProgramsDescend(ops: seq<Operation>)
    requires forall op :: op in ops ==> Aged(op)
    ensures Descends(Program(ops)) && Holding(Program(ops)) == {}
    decreases |ops|
  {
    hide Descends, Holding;
    if ops != [] {
      ProgramsDescend(ops[..|ops| - 1]);
      MovesDescend(ops[|ops| - 1]);
      DescendsAppend(Program(ops[..|ops| - 1]), Moves(ops[|ops| - 1]));
    } else {
      assert Descends([]) && Holding([]) == {} by { NoMoves(); }
    }
  }

  lemma NoMoves()
    ensures Descends([]) && Holding([]) == {}
  {}

  // ---------------------------------------------------------------------------------------
  // Threads
  // ---------------------------------------------------------------------------------------

  /** A program and how many of its moves have been made. */
  datatype Thread = Thread(program: seq<Move>, done: nat)

  /** The owner of each taken lock, and the threads. */
  datatype State = State(owner: map<Lock, nat>, threads: seq<Thread>)

  predicate Finished(t: Thread) {
    t.done >= |t.program|
  }

  /** The thread's next move is to take a lock that is taken. */
  predicate Waits(s: State, i: nat) {
    && i < |s.threads| && !Finished(s.threads[i])
    && var t := s.threads[i];
       t.program[t.done].Acquire? && t.program[t.done].lock in s.owner
  }

  /** The lock a waiting thread waits for. */
  function Wanted(s: State, i: nat): Lock
    requires Waits(s, i)
  {
    s.threads[i].program[s.threads[i].done].lock
  }

  /** The thread that holds what thread `i` waits for. */
  function Blocker(s: State, i: nat): nat
    requires Waits(s, i)
  {
    s.owner[Wanted(s, i)]
  }

  predicate Ready(s: State, i: nat) {
    i < |s.threads| && !Finished(s.threads[i]) && !Waits(s, i)
  }

  function Step(s: State, i: nat): State
    requires Ready(s, i)
  {
    var t := s.threads[i];
    var ts := s.threads[i := t.(done := t.done + 1)];
    match t.program[t.done]
    case Acquire(l) => State(s.owner[l := i], ts)
    case Unlock(l) => State(s.owner - {l}, ts)
  }

  /** The locks a thread holds are exactly those that it owns. */
  ghost predicate Owns(s: State, i: nat)
    requires i < |s.threads|
  {
    var t := s.threads[i];
    && t.done <= |t.program| && Descends(t.program) && Holding(t.program) == {}
    && (forall l :: l in Holding(t.program[..t.done]) <==> l in s.owner && s.owner[l] == i)
  }

  ghost predicate Inv(s: State) {
    && (forall i: nat :: i < |s.threads| ==> Owns(s, i))
    && (forall l :: l in s.owner ==> s.owner[l] < |s.threads|)
  }

  lemma StepKeeps(s: State, i: nat)
    requires Inv(s) && Ready(s, i)
    ensures Inv(Step(s, i))
  {
    hide Descends;
    var s' := Step(s, i);
    var t := s.threads[i];
    assert Owns(s, i);
    assert Orderly(Holding(t.program[..t.done]), t.program[t.done]) by { DescendsAt(t.program, t.done); }
    assert t.program[..t.done + 1][..t.done] == t.program[..t.done];
    forall k: nat | k < |s'.threads|
      ensures Owns(s', k)
    {
      assert Owns(s, k);
    }
  }

  lemma DescendsAt(moves: seq<Move>, i: nat)
    requires Descends(moves) && i < |moves|
    ensures Orderly(Holding(moves[..i]), moves[i])
  {}

  ghost predicate Run(states: seq<State>, steps: seq<nat>) {
    && |states| == |steps| + 1
    && forall k :: 0 <= k < |steps| ==> Ready(states[k], steps[k]) && states[k + 1] == Step(states[k], steps[k])
  }

  /** Threads at the start of programs made of calls on objects and weak references of the right ages. */
  ghost predicate Start(s: State, calls: seq<seq<Operation>>) {
    && s.owner == map[] && |calls| == |s.threads|
    && forall i :: 0 <= i < |calls| ==>
         s.threads[i] == Thread(Program(calls[i]), 0) && forall op :: op in calls[i] ==> Aged(op)
  }

  lemma StartKeeps(s: State, calls: seq<seq<Operation>>)
    requires Start(s, calls)
    ensures Inv(s)
  {
    hide Descends;
    forall i: nat | i < |s.threads|
      ensures Owns(s, i)
    {
      ProgramsDescend(calls[i]);
      assert s.threads[i].program[..0] == [];
    }
  }

  lemma {:induction false} RunsKeep(states: seq<State>, steps: seq<nat>, calls: seq<seq<Operation>>)
    requires Run(states, steps) && Start(states[0], calls)
    ensures forall k :: 0 <= k < |states| ==> Inv(states[k])
    decreases |steps|
  {
    hide Inv, Step, Ready;
    if steps != [] {
      var n := |steps| - 1;
      RunsKeep(states[..n + 1], steps[..n], calls);
      assert states[..n + 1][n] == states[n];
      StepKeeps(states[n], steps[n]);
    } else {
      StartKeeps(states[0], calls);
    }
  }

  // ---------------------------------------------------------------------------------------
  // No deadlock
  // ---------------------------------------------------------------------------------------

  /** What a waiting thread wants is below everything that it holds. */
  lemma WantsLower(s: State, i: nat, l: Lock)
    requires Inv(s) && Waits(s, i) && l in s.owner && s.owner[l] == i
    ensures Rank(Wanted(s, i)) < Rank(l)
  {
    assert Owns(s, i);
    DescendsAt(s.threads[i].program, s.threads[i].done);
  }

  /** Along a chain of waiting threads the wanted locks descend. */
  lemma BlockerWantsLower(s: State, i: nat)
    requires Inv(s) && Waits(s, i) && Waits(s, Blocker(s, i))
    ensures Rank(Wanted(s, Blocker(s, i))) < Rank(Wanted(s, i))
  {
    WantsLower(s, Blocker(s, i), Wanted(s, i));
  }

  /** A chain of threads, each waiting for a lock of the next. */
  ghost predicate WaitChain(s: State, chain: seq<nat>) {
    forall k: nat :: k + 1 < |chain| ==> Waits(s, chain[k]) && Blocker(s, chain[k]) == chain[k + 1]
  }

  lemma {:induction false} ChainDescends(s: State, chain: seq<nat>, j: nat, k: nat)
    requires Inv(s) && WaitChain(s, chain) && j < k < |chain| && Waits(s, chain[j]) && Waits(s, chain[k])
    ensures Rank(Wanted(s, chain[k])) < Rank(Wanted(s, chain[j]))
    decreases k
  {
    ChainAt(s, chain, k - 1);
    BlockerWantsLower(s, chain[k - 1]);
    if j < k - 1 {
      ChainDescends(s, chain, j, k - 1);
    }
  }

  lemma ChainAt(s: State, chain: seq<nat>, k: nat)
    requires WaitChain(s, chain) && k + 1 < |chain|
    ensures Waits(s, chain[k]) && Blocker(s, chain[k]) == chain[k + 1]
  {}

  /** In no reachable state is there a cycle of threads that wait for one another. */
  lemma NoCycle(states: seq<State>, steps: seq<nat>, calls: seq<seq<Operation>>, n: nat, chain: seq<nat>)
    requires Run(states, steps) && Start(states[0], calls) && n < |states|
    requires |chain| > 1 && WaitChain(states[n], chain)
    ensures chain[|chain| - 1] != chain[0]
  {
    hide Inv, Step, Ready, Waits, WaitChain;
    RunsKeep(states, steps, calls);
    ChainAt(states[n], chain, 0);
    if chain[|chain| - 1] == chain[0] {
      ChainDescends(states[n], chain, 0, |chain| - 1);
      assert false;
    }
  }

  /** Following the blockers from a waiting thread leads to a thread that can go on. */
  lemma {:induction false} SomebodyGoesOn(s: State, i: nat) returns (j: nat)
    requires Inv(s) && Waits(s, i)
    ensures Ready(s, j)
    decreases Rank(Wanted(s, i))
  {
    var b := Blocker(s, i);
    HolderUnfinished(s, Wanted(s, i));
    if Waits(s, b) {
      BlockerWantsLower(s, i);
      j := SomebodyGoesOn(s, b);
    } else {
      j := b;
    }
  }

  /** A thread that holds a lock has moves left. */
  lemma HolderUnfinished(s: State, l: Lock)
    requires Inv(s) && l in s.owner
    ensures s.owner[l] < |s.threads| && !Finished(s.threads[s.owner[l]])
  {
    var i := s.owner[l];
    assert Owns(s, i);
    var t := s.threads[i];
    var all := t.program[..|t.program|];
    assert all == t.program;
  }

  /** In every reachable state in which some thread has not finished, some thread can take its next step. */
  lemma NoDeadlock(states: seq<State>, steps: seq<nat>, calls: seq<seq<Operation>>, n: nat, i: nat) returns (j: nat)
    requires Run(states, steps) && Start(states[0], calls) && n < |states|
    requires i < |states[n].threads| && !Finished(states[n].threads[i])
    ensures Ready(states[n], j)
  {
    hide Inv, Step;
    RunsKeep(states, steps, calls);
    if Waits(states[n], i) {
      j := SomebodyGoesOn(states[n], i);
    } else {
      j := i;
    }
  }

  /** The moves that are left. */
  function Left(ts: seq<Thread>): nat {
    if ts == [] then 0
    else
      var t := ts[|ts| - 1];
      Left(ts[..|ts| - 1]) + if Finished(t) then 0 else |t.program| - t.done
  }

  lemma {:induction false} LeftUpdate(ts: seq<Thread>, i: nat)
    requires i < |ts| && !Finished(ts[i])
    ensures Left(ts[i := ts[i].(done := ts[i].done + 1)]) == Left(ts) - 1
    decreases |ts|
  {
    var n := |ts| - 1;
    var ts' := ts[i := ts[i].(done := ts[i].done + 1)];
    if i < n {
      assert ts'[..n] == ts[..n][i := ts[i].(done := ts[i].done + 1)];
      LeftUpdate(ts[..n], i);
    } else {
      assert ts'[..n] == ts[..n];
    }
  }

  /** Whatever the schedule, every step of a run makes one of the moves that were left at its start, so that no run is
      longer than that. */
  lemma {:induction false} StepsEnd(states: seq<State>, steps: seq<nat>)
    requires Run(states, steps)
    ensures |steps| + Left(states[|steps|].threads) == Left(states[0].threads)
    decreases |steps|
  {
    hide Left;
    if steps != [] {
      var n := |steps| - 1;
      StepsEnd(states[..n + 1], steps[..n]);
      assert states[..n + 1][n] == states[n];
      LeftUpdate(states[n].threads, steps[n]);
    }
  }

  /** A run that cannot go on has finished every thread, and has made every move of every program. */
  lemma RunsFinish(states: seq<State>, steps: seq<nat>, calls: seq<seq<Operation>>)
    requires Run(states, steps) && Start(states[0], calls)
    requires forall j :: !Ready(states[|steps|], j)
    ensures forall i: nat :: i < |states[|steps|].threads| ==> Finished(states[|steps|].threads[i])
    ensures |steps| == Left(states[0].threads)
  {
    var n := |steps|;
    forall i: nat | i < |states[n].threads|
      ensures Finished(states[n].threads[i])
    {
      if !Finished(states[n].threads[i]) {
        var j := NoDeadlock(states, steps, calls, n, i);
        assert false;
      }
    }
    StepsEnd(states, steps);
    NothingLeft(states[n].threads);
  }

  lemma {:induction false} NothingLeft(ts: seq<Thread>)
    requires forall i: nat :: i < |ts| ==> Finished(ts[i])
    ensures Left(ts) == 0
    decreases |ts|
  {
    if ts != [] {
      NothingLeft(ts[..|ts| - 1]);
    }
  }
}
