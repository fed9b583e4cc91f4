/** Where what the callers may count on stops: clearing an object whose weak reference is shared, storing an object
    that only the slot's old object keeps, and assigning an object to itself. */
module Limits {
  import opened Options
  import opened Classes
  import opened Heaps
  import opened Cascade
  import opened Counts
  import opened Accounts
  import opened Calls
  import opened Doom
  import opened WeakRefs
  import opened WeakCalls
  import opened ErrorChains
  import opened Assignments

  // ---------------------------------------------------------------------------------------
  // y_clear
  // ---------------------------------------------------------------------------------------

  /** Whoever else owns the weak reference: as long as a caller holds it, clearing its referent separates the two. */
  lemma ClearSeparatesHeld(h: Heap, r: Ref, w: Ref, held: multiset<Ref>)
    requires Sane(h, held, {}) && Agreed(h) && r in held && w in held
    requires r in h.objs && h.objs[r].body.weakRef == Some(w)
    ensures !Agreed(ClearObject(h, r, true))
  {
    hide Agreed, ClearObject, Sane;
    ClearAgreedIff(h, r, w, held);
    ClearSane(h, r, held);
    HeldIsGranted(ClearObject(h, r, true), w, held, {});
  }

  /** Clearing an object keeps agreement if and only if its weak reference goes with it: no caller holds the weak
      reference, and whatever else owns it goes too. */
  lemma ClearAgreedDoomed(h: Heap, r: Ref, w: Ref, held: multiset<Ref>)
    requires Sane(h, held, {}) && Agreed(h) && r in held
    requires r in h.objs && h.objs[r].body.weakRef == Some(w)
    ensures Agreed(ClearObject(h, r, true)) <==> Doomed(h, held, {}, r, w)
  {
    hide Agreed, ClearObject, Sane, Doomed;
    ClearAgreedIff(h, r, w, held);
    WeakSlotHeld(h, r, held);
    OlderThanWeakRef(h, r, w);
    ClearDestroys(h, r, held, w);
  }

  lemma OlderThanWeakRef(h: Heap, r: Ref, w: Ref)
    requires Agreed(h) && r in h.objs && h.objs[r].body.weakRef == Some(w)
    ensures r != w
  {}

  /** When only the object itself points at its weak reference, clearing the object keeps agreement if
      and only if no caller holds the weak reference. */
  lemma ClearAgreedExactly(h: Heap, r: Ref, w: Ref, held: multiset<Ref>)
    requires Sane(h, held, {}) && Agreed(h) && r in held
    requires r in h.objs && h.objs[r].body.weakRef == Some(w)
    requires Owners(h, w, {}) == {Edge(r, WeakSlot)}
    ensures Agreed(ClearObject(h, r, true)) <==> w !in held
  {
    hide Agreed, ClearObject, Sane;
    if w in held {
      ClearSeparatesHeld(h, r, w, held);
    } else {
      ClearAgreedIff(h, r, w, held);
      ShedGoes(h, r, w, held);
    }
  }

  // ---------------------------------------------------------------------------------------
  // Delta_set_c
  // ---------------------------------------------------------------------------------------

  /** The old object is released before the new one is taken. So storing the object that the slot already holds
      works exactly when somebody else holds it too: otherwise the slot ends up NULL, and the object is destroyed. */
  lemma {:induction false} SetCSameExactly(h: Heap, r: Ref, c: Ref)
    requires r in h.objs && c in h.objs && h.objs[r].body.c == Some(c) && h.objs[c].refcount > 0
    ensures SetC(h, r, Some(c)).objs[r].body.c == Some(c) <==> h.objs[c].refcount > 1
    ensures h.objs[c].refcount == 1 ==> SetC(h, r, Some(c)).objs[r].body.c == None
    ensures h.objs[c].refcount == 1 && PoolsSound(h) ==> SetC(h, r, Some(c)).objs[c].body.deleted
  {
    hide Destroy, Unset, PoolsSound;
    if h.objs[c].refcount == 1 {
      assert c !in Positive(Unref(h, c));
      if PoolsSound(h) { LastGoes(h, c); }
    }
  }

  /** Dropping the last reference to an object destroys it. */
  lemma {:induction false} LastGoes(h: Heap, c: Ref)
    requires PoolsSound(h) && c in h.objs && h.objs[c].refcount == 1
    ensures Unref(h, c).objs[c].body.deleted && Unref(h, c).objs[c].refcount == 0
  {
    hide PoolsSound, Unset, Destroy, Frame;
    var h2 := Unset(SetCount(h, c, 0), h.objs[c].body.weakRef);
    DecrementFrame(h, c);
    DestroyFrame(h2, c);
    FrameAt(h2, Destroy(h2, c), {c}, c);
  }

  /** The object that the slot holds goes when it is released, and `n` with it. */
  ghost predicate GoesWithOld(h: Heap, r: Ref, n: Ref, held: multiset<Ref>)
    requires r in h.objs
  {
    var was := h.objs[r].body.c;
    && was.Some? && was.value in h.objs && h.objs[was.value].refcount == 1
    && Doomed(h, held, {Edge(r, CSlot)}, was.value, n)
  }

  /** Storing an object works exactly when the object is alive and does not go with the old one, through however many
      slots: when a caller holds it, or somebody who stays does, or the old object stays. */
  lemma SetCExactly(h: Heap, r: Ref, n: Ref, held: multiset<Ref>)
    requires Sane(h, held, {}) && r in held && r in h.objs
    ensures SetC(h, r, Some(n)).objs[r].body.c == if Granted(h, n) && !GoesWithOld(h, r, n, held) then Some(n) else None
  {
    hide Balanced, Pinned, Unref, Doomed, Frame, PoolsSound;
    var was := h.objs[r].body.c;
    if was.Some? {
      var e := Edge(r, CSlot);
      SlotGranted(h, e, held, {});
      SanePools(h, held, {});
      UnrefFrame(h, was.value);
      FrameParts(h, Unref(h, was.value), {});
      Engage(h, r, held, {});
      HandOver(h, e, was.value, held, {}, {} + {r});
      assert {} + {e} == {e};
      if Granted(h, n) {
        UnrefDestroys(h, was.value, held, {e}, {} + {r}, n);
      } else if n in h.objs {
        FrameAt(h, Unref(h, was.value), {}, n);
      }
    }
  }

  /** So an object that only the `c` slot of the old object keeps is stored exactly when somebody else holds the old
      object. */
  lemma SetCThroughOldExactly(h: Heap, r: Ref, o: Ref, n: Ref, held: multiset<Ref>)
    requires Sane(h, held, {}) && r in held && r in h.objs && h.objs[r].body.c == Some(o)
    requires o in h.objs && h.objs[o].body.c == Some(n)
    requires Owners(h, n, {}) == {Edge(o, CSlot)} && n !in held
    ensures SetC(h, r, Some(n)).objs[r].body.c == Some(n) <==> h.objs[o].refcount > 1
    ensures h.objs[o].refcount == 1 ==> SetC(h, r, Some(n)).objs[r].body.c == None
  {
    hide Sane, SetC;
    SetCExactly(h, r, n, held);
    SlotGranted(h, Edge(r, CSlot), held, {});
    SlotGranted(h, Edge(o, CSlot), held, {});
    EdgesThere(h);
    var given := {Edge(r, CSlot)};
    assert Edge(r, CSlot) !in Owners(h, n, {}) by {
      assert o == r ==> n == r;
    }
    assert Owners(h, n, given) == Owners(h, n, {});
    assert Edge(o, CSlot) in Owners(h, n, given);
    forall s | Closed(h, held, given, o, s)
      ensures n in s
    {
      assert forall e :: e in Owners(h, n, given) ==> e.holder in s;
    }
  }

  // ---------------------------------------------------------------------------------------
  // Assigning an object to itself
  // ---------------------------------------------------------------------------------------

  /** None of the members that Alpha and Delta copy is set. */
  predicate Hollow(h: Heap, x: Ref) {
    && x in h.objs && h.objs[x].body.c == None
    && h.objs[x].body.data.a == 0 && h.objs[x].body.data.b == None && h.objs[x].body.data.d == None
  }

  lemma SelfAssignStep(h: Heap, x: Ref, m: Method<AssignExec>, err: ErrorLocation)
    requires Hollow(h, x) && Young(h) && InitList(h, ErrorT) == []
    ensures var h1 := Bless(Bless(h, x, m.ty), x, m.ty);
            x in h1.objs &&
            var h2 := ExecAssign(h1, x, x, m.exec, err).0;
            Hollow(h2, x) && Young(h2) && InitList(h2, ErrorT) == []
  {
    hide Throw, AssignDelta;
    var h1 := Bless(Bless(h, x, m.ty), x, m.ty);
    assert InitList(h1, ErrorT) == [] && Young(h1);
    match m.exec
    case AlphaAssign =>
    case DeltaAssign => SelfAssignDelta(h1, x);
    case UserAssign =>
    case RefusingAssign =>
    case ThrowingAssign(code) =>
      if err.Location? { ThrowOne(h1, err, code, None); } else { ThrowIgnored(h1, code, None); }
  }

  lemma {:induction false} SelfAssignDelta(h: Heap, x: Ref)
    requires Hollow(h, x) && Young(h)
    ensures var h' := AssignDelta(h, x, x); Hollow(h', x) && Young(h') && h'.types == h.types
  {}

  lemma {:induction false} SelfAssignFrom(h: Heap, x: Ref, list: seq<Method<AssignExec>>, i: nat, err: ErrorLocation)
    requires i <= |list| && Hollow(h, x) && Young(h) && InitList(h, ErrorT) == []
    ensures Hollow(AssignFrom(h, x, x, list, i, err).0, x)
    decreases |list| - i
  {
    hide ExecAssign, Bless, Young;
    if i < |list| {
      SelfAssignStep(h, x, list[i], err);
      var (h2, ok, err1) := ExecAssign(Bless(Bless(h, x, list[i].ty), x, list[i].ty), x, x, list[i].exec, err);
      if ok && !(err1.Location? && err1.error.Some?) {
        SelfAssignFrom(h2, x, list, i + 1, err1);
      }
    }
  }

  /** `y_assign` clears the object assigned to first. Assigning a Delta to itself therefore keeps its members exactly
      when there is nothing to keep. */
  lemma SelfAssignExactly(h: Heap, x: Ref, err: ErrorLocation, held: multiset<Ref>)
    requires Sane(h, held, {}) && x in held && x in h.objs && IsA(h.types, h.objs[x].body.ty, DeltaT)
    requires IsA(h.types, h.objs[x].body.ty, AlphaT) && AssignList(h, h.objs[x].body.ty) != []
    ensures var h' := Assign(h, x, x, err).0;
            && Hollow(h', x)
            && ((h'.objs[x].body.c == h.objs[x].body.c && h'.objs[x].body.data.a == h.objs[x].body.data.a
                 && h'.objs[x].body.data.b == h.objs[x].body.data.b && h'.objs[x].body.data.d == h.objs[x].body.data.d)
                <==> Hollow(h, x))
  {
    hide Sane, ClearObject, AssignFrom, IsA, PoolsSound, Sound;
    var ty := h.objs[x].body.ty;
    var list := AssignList(h, ty);
    ClearSane(h, x, held);
    HeldIsGranted(h, x, held, {});
    SaneParts(h, held, {});
    BalancedParts(h, held, {}, {});
    ClearEmpties(h, x, true);
    var h1 := ClearObject(h, x, true);
    assert Get(h1.objs[x].body, CSlot) == None;
    SanePools(h1, held, {});
    SanePlain(h1, held, {});
    SelfAssignFrom(h1, x, list, 0, err);
  }
}
