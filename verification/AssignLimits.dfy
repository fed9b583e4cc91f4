/** When `y_assign` separates a weak reference from its referent: it clears the object assigned to, and with it the
    slot that knows the weak reference (yakka/Object.c). */
module AssignLimits {
  import opened Options
  import opened Classes
  import opened Heaps
  import opened Cascade
  import opened Counts
  import opened Accounts
  import opened Calls
  import opened Doom
  import opened WeakRefs
  import opened WeakCalls
  import opened Assignments
  import opened Onward
  import opened Derefs
  import opened Limits

  /** Assigning onto an object leaves its weak reference stranded, dead or not. */
  lemma AssignStrands(h: Heap, to: Ref, from: Ref, w: Ref, err: ErrorLocation, held: multiset<Ref>)
    requires Sane(h, held + Stowed(err), {}) && Pair(h, to, from, held) && Agreed(h)
    requires h.objs[to].body.weakRef == Some(w) && Reassigns(h, to, from)
    ensures Stranded(Assign(h, to, from, err).0, to, w)
  {
    hide Sane, AgreedBut, Assign, Reassigns;
    AssignLosing(h, to, from, err, held, {});
    assert {} + WeakOf(h, to) == {w};
    AssignNulls(h, to, from, err, held);
    AssignStays(h, to, from, err, held, {});
    AssignSane(h, to, from, err, held);
    HeldAlso(h, to, from, held, err);
    HeldIsGranted(h, to, held + Stowed(err), {});
    assert h.objs[w].target == Some(to) by { KnownBack(h, to, w); }
    var (h', _, err') := Assign(h, to, from, err);
    HeldAlso(h', to, from, held, err');
    HeldIsGranted(h', to, held + Stowed(err'), {});
  }

  lemma KnownBack(h: Heap, o: Ref, w: Ref)
    requires Agreed(h) && Granted(h, o) && h.objs[o].body.weakRef == Some(w)
    ensures w in h.objs && h.objs[w].target == Some(o)
  {
    assert Held(h, o);
  }

  /** Agreement survives an assignment onto an object exactly when the object's weak reference does not. */
  lemma AssignAgreedIff(h: Heap, to: Ref, from: Ref, w: Ref, err: ErrorLocation, held: multiset<Ref>)
    requires Sane(h, held + Stowed(err), {}) && Pair(h, to, from, held) && Agreed(h)
    requires h.objs[to].body.weakRef == Some(w)
    requires AssignList(h, h.objs[to].body.ty) != [] && h.objs[from].body.ty == h.objs[to].body.ty
    ensures Agreed(Assign(h, to, from, err).0) <==> !Held(Assign(h, to, from, err).0, w)
  {
    hide Sane, Agreed, Stranded, Assign;
    AssignStrands(h, to, from, w, err, held);
    StrandedAgreed(Assign(h, to, from, err).0, to, w);
  }

  /** Whoever else owns the weak reference: as long as a caller holds it, assigning onto its referent separates the
      two. */
  lemma AssignSeparatesHeld(h: Heap, to: Ref, from: Ref, w: Ref, err: ErrorLocation, held: multiset<Ref>)
    requires Sane(h, held + Stowed(err), {}) && Pair(h, to, from, held) && Agreed(h)
    requires h.objs[to].body.weakRef == Some(w) && w in held
    requires AssignList(h, h.objs[to].body.ty) != [] && h.objs[from].body.ty == h.objs[to].body.ty
    ensures !Agreed(Assign(h, to, from, err).0)
  {
    hide Sane, Agreed, Assign;
    AssignAgreedIff(h, to, from, w, err, held);
    AssignSane(h, to, from, err, held);
    var (h', _, err') := Assign(h, to, from, err);
    HeldIsGranted(h', w, held + Stowed(err'), {});
  }

  // ---------------------------------------------------------------------------------------
  // The assign methods destroy nothing
  // ---------------------------------------------------------------------------------------

  /** The target's `c` is not set, or it is what the source shares with it. */
  predicate CShared(h: Heap, to: Ref, from: Ref) {
    && to in h.objs && from in h.objs
    && (h.objs[to].body.c == None || (to != from && h.objs[to].body.c == h.objs[from].body.c))
  }

  /** What two slots point at has two references. */
  lemma TwoOwners(h: Heap, to: Ref, from: Ref, o: Ref, held: multiset<Ref>, busy: set<Ref>)
    requires Sane(h, held, busy) && to in h.objs && from in h.objs && to != from
    requires h.objs[to].body.c == Some(o) && h.objs[from].body.c == Some(o)
    ensures o in h.objs && h.objs[o].refcount > 1
  {
    hide PoolsSound, Sound, Settled;
    SlotGranted(h, Edge(to, CSlot), held, busy);
    EdgesThere(h);
    var owners := Owners(h, o, {});
    assert h.objs[o].refcount == held[o] + |owners|;
    assert Edge(from, CSlot) in owners && Edge(to, CSlot) in owners - {Edge(from, CSlot)};
    assert |owners - {Edge(from, CSlot)}| == |owners| - 1;
  }

  lemma SetCSpares(h: Heap, to: Ref, from: Ref, held: multiset<Ref>)
    requires Sane(h, held, {to, from}) && Pair(h, to, from, held) && CShared(h, to, from)
    ensures Spared(h, SetC(h, to, h.objs[from].body.c), {}) && CShared(SetC(h, to, h.objs[from].body.c), to, from)
  {
    hide Sane, Unref;
    var was, c := h.objs[to].body.c, h.objs[from].body.c;
    if to != from { SetCFromStores(h, to, from, held); }
    SetCFrom(h, to, from, c, held);
    if was.Some? {
      TwoOwners(h, to, from, was.value, held, {to, from});
      NotLast(h, was.value);
    }
  }

  lemma AssignDeltaSpares(h: Heap, to: Ref, from: Ref, held: multiset<Ref>)
    requires Sane(h, held, {to, from}) && Pair(h, to, from, held) && CShared(h, to, from)
    ensures Spared(h, AssignDelta(h, to, from), {}) && CShared(AssignDelta(h, to, from), to, from)
  {
    hide Sane, SetC, Spared;
    var h1 := SetB(h, to, h.objs[from].body.data.b);
    DataSane(h, to, h1.objs[to].body.data, held, {to, from});
    BodySpares(h, to, h1.objs[to].body, {});
    var h2 := SetC(h1, to, h1.objs[from].body.c);
    SetCSpares(h1, to, from, held);
    SparedTrans(h, h1, h2, {});
    BodySpares(h2, to, AssignDelta(h, to, from).objs[to].body, {});
    SparedTrans(h, h2, AssignDelta(h, to, from), {});
  }

  lemma ThrowSpares(h: Heap, err: ErrorLocation, code: int, held: multiset<Ref>, busy: set<Ref>)
    requires Sane(h, held + Stowed(err), busy) && Pinned(h, held, busy)
    ensures Spared(h, Throw(h, err, code, None).0, {})
    ensures ThrowKeeps(h, Throw(h, err, code, None).0)
  {
    hide Sane, Throw, Pinned;
    ThrowSane(h, err, code, None, held, busy);
  }

  lemma ExecAssignSpares(h: Heap, to: Ref, from: Ref, exec: AssignExec, err: ErrorLocation, held: multiset<Ref>)
    requires Sane(h, held + Stowed(err), {to, from}) && Pair(h, to, from, held) && CShared(h, to, from)
    ensures Spared(h, ExecAssign(h, to, from, exec, err).0, {})
            && CShared(ExecAssign(h, to, from, exec, err).0, to, from)
  {
    hide Sane, AssignDelta, Throw, Spared;
    SparedRefl(h, {});
    match exec
    case AlphaAssign =>
      BodySpares(h, to, h.objs[to].body.(data := h.objs[to].body.data.(a := h.objs[from].body.data.a)), {});
    case DeltaAssign =>
      HeldAlso(h, to, from, held, err);
      AssignDeltaSpares(h, to, from, held + Stowed(err));
    case UserAssign =>
    case RefusingAssign =>
    case ThrowingAssign(code) =>
      SaneParts(h, held + Stowed(err), {to, from});
      PairPinned(h, to, from, held, held + Stowed(err));
      ThrowSpares(h, err, code, held, {to, from});
  }

  lemma BlessSpares(h: Heap, to: Ref, from: Ref, ty: TypeId)
    requires CShared(h, to, from)
    ensures var h' := Bless(Bless(h, to, ty), from, ty); Spared(h, h', {}) && CShared(h', to, from)
  {}

  lemma {:induction false} AssignFromSpares(h: Heap, to: Ref, from: Ref, list: seq<Method<AssignExec>>, i: nat,
                                            err: ErrorLocation, held: multiset<Ref>)
    requires i <= |list| && Sane(h, held + Stowed(err), {to, from}) && Pair(h, to, from, held) && CShared(h, to, from)
    ensures Spared(h, AssignFrom(h, to, from, list, i, err).0, {})
    decreases |list| - i
  {
    hide Sane, ExecAssign, Spared, Bless, CShared;
    SparedRefl(h, {});
    if i < |list| {
      var m := list[i];
      var h1 := Bless(Bless(h, to, m.ty), from, m.ty);
      BlessSpares(h, to, from, m.ty);
      BlessSane(h, to, m.ty, held + Stowed(err), {to, from});
      BlessSane(Bless(h, to, m.ty), from, m.ty, held + Stowed(err), {to, from});
      ExecAssignSane(h1, to, from, m.exec, err, held);
      ExecAssignSpares(h1, to, from, m.exec, err, held);
      var (h2, ok, err1) := ExecAssign(h1, to, from, m.exec, err);
      SparedTrans(h, h1, h2, {});
      if ok && !(err1.Location? && err1.error.Some?) {
        AssignFromSpares(h2, to, from, list, i + 1, err1, held);
        SparedTrans(h, h2, AssignFrom(h, to, from, list, i, err).0, {});
      }
    }
  }

  /** All that `y_assign` destroys goes when it clears the object assigned to. */
  lemma AssignDestroys(h: Heap, to: Ref, from: Ref, err: ErrorLocation, held: multiset<Ref>, x: Ref)
    requires Sane(h, held + Stowed(err), {}) && Pair(h, to, from, held) && Reassigns(h, to, from)
    requires x in h.objs && h.objs[x].refcount > 0 && x != to
    ensures x in Assign(h, to, from, err).0.objs
    ensures Assign(h, to, from, err).0.objs[x].refcount == 0 <==> Doomed(h, held + Stowed(err), {}, to, x)
  {
    hide Sane, ClearObject, AssignFrom, Later, Spared, Doomed, Covered, PoolsSound, Young;
    var all := held + Stowed(err);
    var ty := h.objs[to].body.ty;
    HeldAlso(h, to, from, held, err);
    ClearDestroys(h, to, all, x);
    AssignStarts(h, to, from, all);
    var h1 := ClearObject(h, to, true);
    assert Get(h1.objs[to].body, CSlot) == None;
    AssignFromSpares(h1, to, from, AssignList(h, ty), 0, err, held);
    AssignFromSane(h1, to, from, AssignList(h, ty), 0, err, held);
    AssignFromLater(h1, to, from, AssignList(h, ty), 0, err, held);
    var h2 := AssignFrom(h1, to, from, AssignList(h, ty), 0, err).0;
    StaysGone(h1, h2, x);
  }

  /** What has come to zero stays there, and nothing else comes to zero. */
  lemma StaysGone(h: Heap, h': Heap, x: Ref)
    requires Spared(h, h', {}) && Later(h, h') && x in h.objs
    ensures x in h'.objs && (h'.objs[x].refcount == 0 <==> h.objs[x].refcount == 0)
  {}

  /** Assigning onto an object keeps agreement if and only if its weak reference goes with the clear: no caller holds
      the weak reference, and whatever else owns it goes too. */
  lemma AssignAgreedDoomed(h: Heap, to: Ref, from: Ref, w: Ref, err: ErrorLocation, held: multiset<Ref>)
    requires Sane(h, held + Stowed(err), {}) && Pair(h, to, from, held) && Agreed(h)
    requires h.objs[to].body.weakRef == Some(w) && Reassigns(h, to, from)
    ensures Agreed(Assign(h, to, from, err).0) <==> Doomed(h, held + Stowed(err), {}, to, w)
  {
    hide Sane, Agreed, Assign, Doomed;
    WeakSlotHeld(h, to, held + Stowed(err));
    OlderThanWeakRef(h, to, w);
    AssignAgreedIff(h, to, from, w, err, held);
    AssignDestroys(h, to, from, err, held, w);
  }

  lemma AloneSheds(h: Heap, r: Ref, w: Ref, held: multiset<Ref>)
    requires Sane(h, held, {}) && r in h.objs && h.objs[r].body.weakRef == Some(w)
    requires Owners(h, w, {}) == {Edge(r, WeakSlot)} && w !in held
    ensures Sheds(h, r)
  {
    WeakSlotHeld(h, r, held);
    SaneParts(h, held, {});
    BalancedParts(h, held, {}, {});
    assert h.objs[w].refcount == held[w] + |Owners(h, w, {})|;
  }

  /** When only the object's own slot points at its weak reference, assigning onto the object keeps agreement if and
      only if no caller holds the weak reference. */
  lemma AssignAgreedExactly(h: Heap, to: Ref, from: Ref, w: Ref, err: ErrorLocation, held: multiset<Ref>)
    requires Sane(h, held, {}) && Pair(h, to, from, held) && Agreed(h) && (err == Ignored || err == Location(None))
    requires h.objs[to].body.weakRef == Some(w) && Owners(h, w, {}) == {Edge(to, WeakSlot)}
    requires AssignList(h, h.objs[to].body.ty) != [] && h.objs[from].body.ty == h.objs[to].body.ty
    ensures Agreed(Assign(h, to, from, err).0) <==> w !in held
  {
    hide Sane, Agreed, Assign;
    assert held + Stowed(err) == held;
    if w in held {
      AssignSeparatesHeld(h, to, from, w, err, held);
    } else {
      AloneSheds(h, to, w, held);
      AssignAgreed(h, to, from, err, held);
    }
  }
}
