/** What an object's members are throughout a run: Delta's setters (test/ootest/Delta.c), and that nothing else but
    clearing and assigning writes the members of an object that stays alive. */
module Members {
  import opened Options
  import opened Classes
  import opened Heaps
  import opened Cascade
  import opened Accounts
  import opened Runs
  import opened Retained

  // ---------------------------------------------------------------------------------------
  // Delta's setters
  // ---------------------------------------------------------------------------------------

  /** `Delta_set_b` writes the string `b` of its object, and nothing else anywhere. */
  lemma SetBWrites(h: Heap, r: Ref, s: Option<string>)
    requires r in h.objs
    ensures r in SetB(h, r, s).objs
    ensures var o, o' := h.objs[r], SetB(h, r, s).objs[r];
            && SetB(h, r, s) == h.(objs := h.objs[r := o'])
            && o' == o.(body := o.body.(data := o.body.data.(b := o'.body.data.b)))
            && o'.body.data.b == if s == None || s == Some("") then None else s
  {}

  /** `Delta_set_d` writes the string `d` of its object, and nothing else anywhere. */
  lemma SetDWrites(h: Heap, r: Ref, s: Option<string>)
    requires r in h.objs
    ensures r in SetD(h, r, s).objs
    ensures var o, o' := h.objs[r], SetD(h, r, s).objs[r];
            && SetD(h, r, s) == h.(objs := h.objs[r := o'])
            && o' == o.(body := o.body.(data := o.body.data.(d := o'.body.data.d)))
            && o'.body.data.d == if s == None || s == Some("") then None else s
  {}

  // ---------------------------------------------------------------------------------------
  // Runs
  // ---------------------------------------------------------------------------------------

  lemma CallRetains(w: World, call: Call)
    requires Good(w) && Allowed(w, call) && There(w.heap, call)
    ensures Retains(w.heap, Outcome(w, call).heap, {}, Written(call))
  {
    hide Sane, HeapAfter, Outcome, Retains;
    OutcomeHeap(w, call);
    HeapRetains(w, call);
  }

  /** What a call that retains says of one object. */
  lemma RetainsAt(h: Heap, h': Heap, written: set<Ref>, r: Ref)
    requires Retains(h, h', {}, written) && r in h.objs
    ensures r in h'.objs && (h.objs[r].refcount == 0 ==> h'.objs[r].refcount == 0)
    ensures h'.objs[r].refcount > 0 ==>
              h'.objs[r].body.ty == h.objs[r].body.ty
              && (r in written || h'.objs[r].body.data == h.objs[r].body.data)
  {}

  /** In every run an object keeps its class as long as it lives; and its members, unless it is the object that a call
      sets, clears or assigns to. */
  lemma {:induction false} RunsRetain(worlds: seq<World>, calls: seq<Call>, i: nat, j: nat, r: Ref)
    requires Run(worlds, calls) && Good(worlds[0]) && i <= j < |worlds| && r in worlds[i].heap.objs
    ensures r in worlds[j].heap.objs
    ensures worlds[j].heap.objs[r].refcount > 0 ==>
              && worlds[i].heap.objs[r].refcount > 0
              && worlds[j].heap.objs[r].body.ty == worlds[i].heap.objs[r].body.ty
              && ((forall k :: i <= k < j ==> r !in Written(calls[k])) ==>
                    worlds[j].heap.objs[r].body.data == worlds[i].heap.objs[r].body.data)
    decreases j
  {
    hide Good, Outcome, Allowed, There, Retains, Written;
    RunsAreGood(worlds, calls);
    if i < j {
      RunsRetain(worlds, calls, i, j - 1, r);
      CallRetains(worlds[j - 1], calls[j - 1]);
      RetainsAt(worlds[j - 1].heap, worlds[j].heap, Written(calls[j - 1]), r);
    }
  }

  /** Every live object has Delta's private structure exactly when its class descends from Delta. */
  ghost predicate AllEquipped(h: Heap) {
    forall x :: x in h.objs && h.objs[x].refcount > 0 ==>
      (h.objs[x].body.data.priv <==> IsA(h.types, h.objs[x].body.ty, DeltaT))
  }

  lemma EquippedAfter(h: Heap, h': Heap, written: set<Ref>)
    requires AllEquipped(h) && Retains(h, h', {}, written)
    ensures AllEquipped(h')
  {
    forall x | x in h'.objs && h'.objs[x].refcount > 0
      ensures Equipped(h', x)
    {
      if x in h.objs { assert Equipped(h, x); }
    }
  }

  /** At every point of every run, whatever has been created, set, cleared, assigned and copied: `Delta_set_d` and the
      other methods of Delta find the private structure that `Delta_init` has allocated. */
  lemma {:induction false} RunsAreEquipped(worlds: seq<World>, calls: seq<Call>, i: nat)
    requires Run(worlds, calls) && Good(worlds[0]) && AllEquipped(worlds[0].heap) && i < |worlds|
    ensures AllEquipped(worlds[i].heap)
    decreases i
  {
    hide Good, Outcome, Allowed, There, Retains, Written, AllEquipped;
    RunsAreGood(worlds, calls);
    if i > 0 {
      RunsAreEquipped(worlds, calls, i - 1);
      CallRetains(worlds[i - 1], calls[i - 1]);
      EquippedAfter(worlds[i - 1].heap, worlds[i].heap, Written(calls[i - 1]));
    }
  }

  /** So it is before any object has been created. */
  lemma StartMembers(types: Types, capacity: nat)
    ensures AllEquipped(Start(types, capacity).heap) && AllRegistered(Start(types, capacity).heap)
  {}

  /** Every live object has its last-resort cleanup registered with its pool. */
  ghost predicate AllRegistered(h: Heap) {
    forall x :: Alive(h, x) ==> h.objs[x].body.pool in h.cleanups && h.cleanups[h.objs[x].body.pool] == x
  }

  lemma RegisteredAfter(h: Heap, h': Heap, written: set<Ref>)
    requires AllRegistered(h) && Retains(h, h', {}, written)
    ensures AllRegistered(h')
  {
    assert Guards(h, h');
    hide Retains;
    forall x | Alive(h', x)
      ensures Registered(h', x)
    {
      if x in h.objs { assert Alive(h, x) && Registered(h, x); }
    }
  }

  /** At every point of every run: should the runtime's pools be destroyed now, the cleanup of last resort would find
      every object that is still alive. */
  lemma {:induction false} RunsAreRegistered(worlds: seq<World>, calls: seq<Call>, i: nat)
    requires Run(worlds, calls) && Good(worlds[0]) && AllRegistered(worlds[0].heap) && i < |worlds|
    ensures AllRegistered(worlds[i].heap)
    decreases i
  {
    hide Good, Outcome, Allowed, There, Retains, Written, AllRegistered;
    RunsAreGood(worlds, calls);
    if i > 0 {
      RunsAreRegistered(worlds, calls, i - 1);
      CallRetains(worlds[i - 1], calls[i - 1]);
      RegisteredAfter(worlds[i - 1].heap, worlds[i].heap, Written(calls[i - 1]));
    }
  }

  // ---------------------------------------------------------------------------------------
  // The last string stored
  // ---------------------------------------------------------------------------------------

  /** Whether a call writes no member of the object but, perhaps, its string `d`. */
  predicate SparesB(call: Call, r: Ref) {
    r in Written(call) ==> call.SetDCall?
  }

  /** Whether a call writes no member of the object but, perhaps, its string `b`. */
  predicate SparesD(call: Call, r: Ref) {
    r in Written(call) ==> call.SetBCall?
  }

  lemma CallSparesB(w: World, call: Call, r: Ref)
    requires Good(w) && Allowed(w, call) && There(w.heap, call) && r in w.heap.objs && SparesB(call, r)
    requires r in Outcome(w, call).heap.objs && Outcome(w, call).heap.objs[r].refcount > 0
    ensures Outcome(w, call).heap.objs[r].body.data.b == w.heap.objs[r].body.data.b
  {
    hide Good, Retains;
    if call.SetDCall? {
      SetDWrites(w.heap, call.r, call.s);
    } else {
      hide Outcome;
      CallRetains(w, call);
      RetainsAt(w.heap, Outcome(w, call).heap, Written(call), r);
    }
  }

  lemma CallSparesD(w: World, call: Call, r: Ref)
    requires Good(w) && Allowed(w, call) && There(w.heap, call) && r in w.heap.objs && SparesD(call, r)
    requires r in Outcome(w, call).heap.objs && Outcome(w, call).heap.objs[r].refcount > 0
    ensures Outcome(w, call).heap.objs[r].body.data.d == w.heap.objs[r].body.data.d
  {
    hide Good, Retains;
    if call.SetBCall? {
      SetBWrites(w.heap, call.r, call.s);
    } else {
      hide Outcome;
      CallRetains(w, call);
      RetainsAt(w.heap, Outcome(w, call).heap, Written(call), r);
    }
  }

  /** In every run, `Delta_get_b` on an object that lives gives the string of the last `Delta_set_b` on it, NULL if that
      was empty, until it is cleared or assigned to. */
  lemma {:induction false} LastB(worlds: seq<World>, calls: seq<Call>, i: nat, j: nat, r: Ref, s: Option<string>)
    requires Run(worlds, calls) && Good(worlds[0]) && i < j < |worlds| && calls[i] == SetBCall(r, s)
    requires forall k :: i < k < j ==> SparesB(calls[k], r)
    requires Alive(worlds[j].heap, r)
    ensures worlds[j].heap.objs[r].body.data.b == if s == Some("") then None else s
    decreases j
  {
    hide Good, Outcome, SparesB, SetB;
    RunsAreGood(worlds, calls);
    AliveBefore(worlds, calls, i, j, r);
    if i + 1 < j {
      LastB(worlds, calls, i, j - 1, r, s);
      CallSparesB(worlds[j - 1], calls[j - 1], r);
    } else {
      SetBWrites(worlds[i].heap, r, s);
      SetBOutcome(worlds[i], r, s);
    }
  }

  /** The same for `Delta_set_d`. */
  lemma {:induction false} LastD(worlds: seq<World>, calls: seq<Call>, i: nat, j: nat, r: Ref, s: Option<string>)
    requires Run(worlds, calls) && Good(worlds[0]) && i < j < |worlds| && calls[i] == SetDCall(r, s)
    requires forall k :: i < k < j ==> SparesD(calls[k], r)
    requires Alive(worlds[j].heap, r)
    ensures worlds[j].heap.objs[r].body.data.d == if s == Some("") then None else s
    decreases j
  {
    hide Good, Outcome, SparesD, SetD;
    RunsAreGood(worlds, calls);
    AliveBefore(worlds, calls, i, j, r);
    if i + 1 < j {
      LastD(worlds, calls, i, j - 1, r, s);
      CallSparesD(worlds[j - 1], calls[j - 1], r);
    } else {
      SetDWrites(worlds[i].heap, r, s);
      SetDOutcome(worlds[i], r, s);
    }
  }

  lemma SetBOutcome(w: World, r: Ref, s: Option<string>)
    requires r in w.heap.objs
    ensures Outcome(w, SetBCall(r, s)).heap == SetB(w.heap, r, s)
  {}

  lemma SetDOutcome(w: World, r: Ref, s: Option<string>)
    requires r in w.heap.objs
    ensures Outcome(w, SetDCall(r, s)).heap == SetD(w.heap, r, s)
  {}

  /** An object that is alive has been since it was held. */
  lemma AliveBefore(worlds: seq<World>, calls: seq<Call>, i: nat, j: nat, r: Ref)
    requires Run(worlds, calls) && Good(worlds[0]) && i < j < |worlds| && There(worlds[i].heap, calls[i])
    requires Alive(worlds[j].heap, r) && r in worlds[i].heap.objs
    ensures r in worlds[j - 1].heap.objs && Alive(worlds[j - 1].heap, r) && worlds[j].heap.objs[r].refcount > 0
  {
    hide Good, Outcome, Allowed;
    RunsAreGood(worlds, calls);
    RunsRetain(worlds, calls, i, j - 1, r);
    RunsRetain(worlds, calls, j - 1, j, r);
    GoodMeans(worlds[j]);
    GoodMeans(worlds[j - 1]);
  }
}
