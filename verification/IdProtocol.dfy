/** `y_Runtime_get_interface_id`, step by step, by any number of threads in any interleaving (yakka/Runtime.c). */
module IdProtocol {
  import opened Options
  import opened Interfaces

  /** Where a thread is: about to take the step named, for the interface named. */
  datatype Pc =
    | Idle
    | Check(name: string)
    | Lock(name: string)
    | Recheck(name: string)
    | Bump(name: string)
    | Insert(name: string, id: nat)
    | Unlock(name: string, id: nat)

  /** An identifier that was returned to a thread for a name. */
  datatype Answer = Answer(thread: nat, name: string, id: nat)

  /** The registry, the owner of the runtime's mutex, what has been answered so far, and the threads. */
  datatype State = State(ids: Ids, lock: Option<nat>, answers: seq<Answer>, threads: seq<Pc>)

  /** A thread asks for an identifier, or takes the next step of the request it is in. */
  datatype Action = Ask(name: string) | Go

  predicate Enabled(s: State, i: nat, a: Action) {
    && i < |s.threads|
    && match a
       case Ask(_) => s.threads[i].Idle?
       case Go => !s.threads[i].Idle? && (s.threads[i].Lock? ==> s.lock == None)
  }

  function Put(s: State, i: nat, pc: Pc): State
    requires i < |s.threads|
  {
    s.(threads := s.threads[i := pc])
  }

  /** The first look at the hash table and the second one, under the lock, are separate steps; so are counting up
      and storing. */
  function Next(s: State, i: nat, a: Action): State
    requires Enabled(s, i, a)
  {
    match a
    case Ask(name) => Put(s, i, Check(name))
    case Go =>
      match s.threads[i]
      case Idle => s
      case Check(name) =>
        if name in s.ids.of then Put(s, i, Idle).(answers := s.answers + [Answer(i, name, s.ids.of[name])])
        else Put(s, i, Lock(name))
      case Lock(name) => Put(s, i, Recheck(name)).(lock := Some(i))
      case Recheck(name) => Put(s, i, if name in s.ids.of then Unlock(name, s.ids.of[name]) else Bump(name))
      case Bump(name) => Put(s, i, Insert(name, s.ids.size + 1)).(ids := s.ids.(size := s.ids.size + 1))
      case Insert(name, id) => Put(s, i, Unlock(name, id)).(ids := s.ids.(of := s.ids.of[name := id]))
      case Unlock(name, id) => Put(s, i, Idle).(lock := None, answers := s.answers + [Answer(i, name, id)])
  }

  predicate HoldsLock(pc: Pc) {
    pc.Recheck? || pc.Bump? || pc.Insert? || pc.Unlock?
  }

  /** The registry as the owner of the lock has left it: between counting up and storing, the newest identifier has
      no name yet. */
  ghost predicate Stage(ids: Ids, pc: Pc) {
    match pc
    case Bump(name) => Numbered(ids) && name !in ids.of
    case Insert(name, id) => id == ids.size > 0 && name !in ids.of && Numbered(ids.(size := id - 1))
    case Unlock(name, id) => Numbered(ids) && name in ids.of && ids.of[name] == id
    case _ => Numbered(ids)
  }

  ghost predicate Inv(s: State) {
    && (s.lock == None ==> Numbered(s.ids))
    && (s.lock.Some? ==> s.lock.value < |s.threads| && Stage(s.ids, s.threads[s.lock.value]))
    && (forall i: nat :: i < |s.threads| ==> (HoldsLock(s.threads[i]) <==> s.lock == Some(i)))
    && (forall a :: a in s.answers ==> a.name in s.ids.of && s.ids.of[a.name] == a.id)
  }

  /** Counting up and storing together are what one thread alone would have done. */
  lemma InsertNumbers(ids: Ids, name: string, id: nat)
    requires Stage(ids, Insert(name, id))
    ensures Numbered(ids.(of := ids.of[name := id]))
  {
    hide Numbered, Extends;
    RegisterNumbers(ids.(size := id - 1), name);
  }

  lemma BumpStages(ids: Ids, name: string)
    requires Stage(ids, Bump(name))
    ensures Stage(ids.(size := ids.size + 1), Insert(name, ids.size + 1))
  {}

  lemma StepKeeps(s: State, i: nat, a: Action)
    requires Inv(s) && Enabled(s, i, a)
    ensures Inv(Next(s, i, a)) && Kept(s, Next(s, i, a))
  {
    hide Numbered;
    if a.Go? {
      match s.threads[i]
      case Insert(name, id) => InsertNumbers(s.ids, name, id);
      case Bump(name) => BumpStages(s.ids, name);
      case _ =>
    }
  }

  /** No identifier is ever lost or changed. */
  ghost predicate Kept(s: State, s': State) {
    && (forall n :: n in s.ids.of ==> n in s'.ids.of && s'.ids.of[n] == s.ids.of[n])
    && s.ids.size <= s'.ids.size && s.answers <= s'.answers
  }

  datatype Event = Event(thread: nat, action: Action)

  ghost predicate Run(states: seq<State>, events: seq<Event>) {
    && |states| == |events| + 1
    && forall k :: 0 <= k < |events| ==>
         Enabled(states[k], events[k].thread, events[k].action)
         && states[k + 1] == Next(states[k], events[k].thread, events[k].action)
  }

  ghost predicate Start(s: State) {
    && Numbered(s.ids) && s.lock == None && s.answers == []
    && forall pc :: pc in s.threads ==> pc == Idle
  }

  lemma {:induction false} RunsKeep(states: seq<State>, events: seq<Event>)
    requires Run(states, events) && Start(states[0])
    ensures forall k :: 0 <= k < |states| ==> Inv(states[k])
    decreases |events|
  {
    hide Inv, Next, Enabled;
    if events != [] {
      var n := |events| - 1;
      RunsKeep(states[..n + 1], events[..n]);
      assert states[..n + 1][n] == states[n];
      StepKeeps(states[n], events[n].thread, events[n].action);
    } else {
      StartKeeps(states[0]);
    }
  }

  lemma StartKeeps(s: State)
    requires Start(s)
    ensures Inv(s)
  {
    hide Numbered;
    forall i: nat | i < |s.threads|
      ensures s.threads[i] == Idle
    {
      assert s.threads[i] in s.threads;
    }
  }

  lemma {:induction false} IdsNeverChange(states: seq<State>, events: seq<Event>, j: nat, k: nat)
    requires Run(states, events) && Start(states[0]) && j <= k < |states|
    ensures Kept(states[j], states[k])
    decreases k
  {
    hide Inv, Next, Enabled;
    RunsKeep(states, events);
    if j < k {
      IdsNeverChange(states, events, j, k - 1);
      StepKeeps(states[k - 1], events[k - 1].thread, events[k - 1].action);
    }
  }

  /** At most one thread is between locking and unlocking. */
  ghost predicate OneAtATime(s: State) {
    forall i: nat, j: nat ::
      i < |s.threads| && HoldsLock(s.threads[i]) && j < |s.threads| && HoldsLock(s.threads[j]) ==> i == j
  }

  /** In every interleaving: whenever the mutex is free, the registry numbers its names from 1 to its size, one name
      for each number; every answer ever given is still right, so that equal names were always given the same
      identifier and different names different ones; and the threads take turns between locking and unlocking. */
  lemma Interleavings(states: seq<State>, events: seq<Event>, k: nat)
    requires Run(states, events) && Start(states[0]) && k < |states|
    ensures var s := states[k];
            && (s.lock == None ==> Numbered(s.ids))
            && (forall a, b :: a in s.answers && b in s.answers ==> (a.name == b.name <==> a.id == b.id))
            && (forall a :: a in s.answers ==>
                  1 <= a.id <= s.ids.size && a.name in s.ids.of && s.ids.of[a.name] == a.id)
            && OneAtATime(s)
  {
    hide Next, Enabled;
    RunsKeep(states, events);
    AnswersDiffer(states[k]);
  }

  lemma AnswersDiffer(s: State)
    requires Inv(s)
    ensures forall a, b :: a in s.answers && b in s.answers ==> (a.name == b.name <==> a.id == b.id)
    ensures forall a :: a in s.answers ==> 1 <= a.id <= s.ids.size
    ensures OneAtATime(s)
  {}

  // ---------------------------------------------------------------------------------------
  // Requests
  // ---------------------------------------------------------------------------------------

  /** Thread `i` asks for `name` at event `a`, and is next between requests in state `b`. */
  ghost predicate Requests(states: seq<State>, events: seq<Event>, a: nat, b: nat, i: nat, name: string) {
    && a < b < |states| && a < |events| && events[a] == Event(i, Ask(name))
    && (forall k :: a <= k <= b ==> i < |states[k].threads|)
    && (forall k :: a < k < b ==> !states[k].threads[i].Idle?)
    && states[b].threads[i].Idle?
  }

  /** The answers that one thread has been given, in order. */
  function To(answers: seq<Answer>, i: nat): seq<Answer> {
    if answers == [] then []
    else
      var before, last := To(answers[..|answers| - 1], i), answers[|answers| - 1];
      if last.thread == i then before + [last] else before
  }

  lemma ToSnoc(answers: seq<Answer>, answer: Answer, i: nat)
    ensures To(answers + [answer], i) == To(answers, i) + if answer.thread == i then [answer] else []
  {
    assert (answers + [answer])[..|answers|] == answers;
  }

  /** A request in progress is for the name that was asked for and has not been answered; when it is over, it has been
      answered once, with the identifier that the name has. */
  ghost predicate Serving(s: State, i: nat, name: string, before: seq<Answer>)
    requires i < |s.threads|
  {
    if s.threads[i].Idle? then
      name in s.ids.of && To(s.answers, i) == before + [Answer(i, name, s.ids.of[name])]
    else
      s.threads[i].name == name && To(s.answers, i) == before
  }

  lemma StepServes(s: State, j: nat, a: Action, i: nat, name: string, before: seq<Answer>)
    requires Inv(s) && Enabled(s, j, a) && i < |s.threads| && !s.threads[i].Idle? && Serving(s, i, name, before)
    ensures i < |Next(s, j, a).threads| && Serving(Next(s, j, a), i, name, before)
  {
    hide Numbered, To;
    if a.Go? {
      match s.threads[j]
      case Check(n) => if n in s.ids.of { ToSnoc(s.answers, Answer(j, n, s.ids.of[n]), i); }
      case Unlock(n, id) => ToSnoc(s.answers, Answer(j, n, id), i);
      case _ =>
    }
  }

  lemma {:induction false} RequestServes(states: seq<State>, events: seq<Event>, a: nat, k: nat, b: nat, i: nat,
                                         name: string)
    requires Run(states, events) && Start(states[0]) && Requests(states, events, a, b, i, name) && a < k <= b
    ensures Serving(states[k], i, name, To(states[a].answers, i))
    decreases k
  {
    hide Inv, Next, Enabled, Start, Serving, To;
    RunsKeep(states, events);
    if a + 1 < k {
      RequestServes(states, events, a, k - 1, b, i, name);
      StepServes(states[k - 1], events[k - 1].thread, events[k - 1].action, i, name, To(states[a].answers, i));
    } else {
      AskServes(states[a], i, name);
    }
  }

  lemma AskServes(s: State, i: nat, name: string)
    requires Enabled(s, i, Ask(name))
    ensures i < |Next(s, i, Ask(name)).threads| && Serving(Next(s, i, Ask(name)), i, name, To(s.answers, i))
  {
    hide To;
  }

  /** Whatever the other threads do, a request is answered exactly once, for the name that was asked for, with the
      identifier that the name has in the registry; and with the one it had before, if it had one. */
  lemma RequestAnswered(states: seq<State>, events: seq<Event>, a: nat, b: nat, i: nat, name: string)
    requires Run(states, events) && Start(states[0]) && Requests(states, events, a, b, i, name)
    ensures name in states[b].ids.of
    ensures To(states[b].answers, i) == To(states[a].answers, i) + [Answer(i, name, states[b].ids.of[name])]
    ensures name in states[a].ids.of ==> states[b].ids.of[name] == states[a].ids.of[name]
  {
    hide Run, Start, To;
    RequestServes(states, events, a, b, b, i, name);
    IdsNeverChange(states, events, a, b);
  }

  /** The identifier that a request was answered with. */
  function Given(s: State, i: nat): nat {
    var answers := To(s.answers, i);
    if answers == [] then 0 else answers[|answers| - 1].id
  }

  /** Two requests, by the same or different threads, in any order or at once: the same identifier if and only if the
      same name. */
  lemma SameIdExactly(states: seq<State>, events: seq<Event>, a: nat, b: nat, i: nat, name: string,
                      a': nat, b': nat, i': nat, name': string)
    requires Run(states, events) && Start(states[0])
    requires Requests(states, events, a, b, i, name) && Requests(states, events, a', b', i', name')
    ensures Given(states[b], i) == Given(states[b'], i') <==> name == name'
  {
    hide Run, Start, To, Inv;
    var n := |states| - 1;
    RunsKeep(states, events);
    RequestAnswered(states, events, a, b, i, name);
    RequestAnswered(states, events, a', b', i', name');
    IdsNeverChange(states, events, b, n);
    IdsNeverChange(states, events, b', n);
    AnswerStays(states[b], states[n], i, name);
    AnswerStays(states[b'], states[n], i', name');
    AnswersDiffer(states[n]);
  }

  lemma {:induction false} ToIsAmong(answers: seq<Answer>, i: nat)
    ensures forall x :: x in To(answers, i) ==> x in answers && x.thread == i
    decreases |answers|
  {
    if answers != [] { ToIsAmong(answers[..|answers| - 1], i); }
  }

  lemma AnswerStays(s: State, s': State, i: nat, name: string)
    requires Kept(s, s') && name in s.ids.of
    requires var answers := To(s.answers, i);
             answers != [] && answers[|answers| - 1] == Answer(i, name, s.ids.of[name])
    ensures Answer(i, name, Given(s, i)) in s'.answers
  {
    hide To;
    ToIsAmong(s.answers, i);
    var answers := To(s.answers, i);
    assert answers[|answers| - 1] in answers;
    assert answers[|answers| - 1] in s.answers;
    assert forall x :: x in s.answers ==> x in s'.answers by {
      forall x | x in s.answers
        ensures x in s'.answers
      {
        var k :| 0 <= k < |s.answers| && s.answers[k] == x;
        assert s'.answers[k] == x;
      }
    }
  }
}
