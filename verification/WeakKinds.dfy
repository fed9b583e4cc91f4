/** The object in a `weak_ref` slot is of the class of weak references, in every run. */
module WeakKinds {
  import opened Options
  import opened Classes
  import opened Heaps
  import opened Counts
  import opened Accounts
  import opened Runs
  import opened Onward
  import opened Uses
  import opened Retained

  ghost predicate WeakTyped(h: Heap) {
    forall x :: x in h.objs && h.objs[x].body.weakRef.Some? ==>
      h.objs[x].body.weakRef.value in h.objs && h.objs[h.objs[x].body.weakRef.value].body.ty == WeakRefT
  }

  /** An object of that class owns at most a weak reference. */
  lemma PlainOwnsNothing(h: Heap, b: Body)
    requires Sound(h.types) && b.ty == WeakRefT && Covered(h, b)
    ensures b.c == None && b.cause == None
  {
    assert SoundClass(h.types, WeakRefT);
    hide Sound;
    assert Get(b, CSlot) == None && Get(b, CauseSlot) == None;
  }

  /** So weak references own nothing but weak references. */
  lemma TypedIsWeakly(h: Heap, held: multiset<Ref>)
    requires Sane(h, held, {}) && WeakTyped(h) && Aging(h)
    ensures Weakly(h)
  {
    hide Sane, Sound, Covered;
    forall x | x in h.objs && h.objs[x].body.weakRef.Some?
      ensures Leaf(h, h.objs[x].body.weakRef.value)
    {
      var w := h.objs[x].body.weakRef.value;
      WeakSlotHeld(h, x, held);
      SettledAt(h, w, held, {});
      SaneParts(h, held, {});
      BalancedParts(h, held, {}, {});
      PlainOwnsNothing(h, h.objs[w].body);
    }
  }

  // ---------------------------------------------------------------------------------------
  // Runs
  // ---------------------------------------------------------------------------------------

  /** What still holds of the slots once the call is over. */
  lemma TypedAfter(h: Heap, h': Heap, written: set<Ref>, held: multiset<Ref>)
    requires WeakTyped(h) && Retains(h, h', {}, written) && Sane(h', held, {})
    ensures WeakTyped(h')
  {
    hide Sane;
    forall x | x in h'.objs && h'.objs[x].body.weakRef.Some?
      ensures var w := h'.objs[x].body.weakRef.value; w in h'.objs && h'.objs[w].body.ty == WeakRefT
    {
      WeakSlotHeld(h', x, held);
    }
  }

  /** So it is before any object has been created. */
  lemma StartTyped(types: Types, capacity: nat)
    ensures WeakTyped(Start(types, capacity).heap) && Aging(Start(types, capacity).heap)
  {}

  lemma CallTyped(w: World, call: Call)
    requires Good(w) && Allowed(w, call) && There(w.heap, call) && WeakTyped(w.heap)
    ensures WeakTyped(Outcome(w, call).heap)
  {
    hide Sane, HeapAfter, Outcome, WeakTyped, Retains;
    OutcomeHeap(w, call);
    HeapRetains(w, call);
    CallGood(w, call);
    TypedAfter(w.heap, HeapAfter(w.heap, call), Written(call), Outcome(w, call).held);
  }

  /** In every world of every run, what a `weak_ref` slot points at is a weak reference. */
  lemma {:induction false} RunsAreTyped(worlds: seq<World>, calls: seq<Call>)
    requires Run(worlds, calls) && Good(worlds[0]) && WeakTyped(worlds[0].heap)
    ensures forall i :: 0 <= i < |worlds| ==> WeakTyped(worlds[i].heap)
    decreases |calls|
  {
    hide Good, Outcome, Allowed, There, WeakTyped;
    RunsAreGood(worlds, calls);
    if calls != [] {
      var n := |calls| - 1;
      RunsAreTyped(worlds[..n + 1], calls[..n]);
      assert worlds[..n + 1][n] == worlds[n];
      CallTyped(worlds[n], calls[n]);
    }
  }

  /** In every world of every run, weak references own nothing but weak references, each younger than its referent. */
  lemma RunsAreWeakly(worlds: seq<World>, calls: seq<Call>)
    requires Run(worlds, calls) && Good(worlds[0]) && WeakTyped(worlds[0].heap) && Aging(worlds[0].heap)
    ensures forall i :: 0 <= i < |worlds| ==> Weakly(worlds[i].heap)
  {
    hide Run, Sane, WeakTyped, Weakly;
    RunsAreGood(worlds, calls);
    RunsAreTyped(worlds, calls);
    forall i | 0 <= i < |worlds|
      ensures Weakly(worlds[i].heap)
    {
      RunsMoveOn(worlds, calls, 0, i);
      TypedIsWeakly(worlds[i].heap, worlds[i].held);
    }
  }
}
