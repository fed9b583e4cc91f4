/** What `y_clear` and `y_assign` do to the members of objects (yakka/Object.c with the classes of the
    repository). */
module Assignments {
  import opened Options
  import opened Classes
  import opened Heaps
  import opened Cascade
  import opened Counts
  import opened Accounts
  import opened Calls
  import opened WeakCalls
  import opened Copies

  // ---------------------------------------------------------------------------------------
  // Clearing
  // ---------------------------------------------------------------------------------------

  /** The members that a clear method is there for are zero. */
  predicate Emptied(exec: ClearExec, d: Data) {
    match exec
    case ErrorClear => d.code == 0 && d.description == None
    case AlphaClear => d.a == 0
    case DeltaClear => d.b == None && d.d == None
    case _ => true
  }

  lemma EmptiedStays(exec: ClearExec, h: Heap, h': Heap, r: Ref)
    requires Frame(h, h', {r}) && r in h.objs && Emptied(exec, h.objs[r].body.data)
    ensures r in h'.objs && Emptied(exec, h'.objs[r].body.data)
  {}

  lemma ClearErrorEmpties(h: Heap, r: Ref)
    requires r in h.objs && PoolsSound(h) && ErrorT in h.types && h.objs[r].body.ty == ErrorT
    ensures Emptied(ErrorClear, ClearError(h, r).objs[r].body.data)
  {
    hide PoolsSound, Frame, Release;
    var h1 := SetData(h, r, h.objs[r].body.data.(code := 0, description := None));
    PoolsSoundKept(h, h1);
    ReleaseFrame(h1, r, CauseSlot);
    EmptiedStays(ErrorClear, h1, Release(h1, r, CauseSlot), r);
  }

  lemma ClearDeltaEmpties(h: Heap, r: Ref, unrefObjects: bool)
    requires r in h.objs && PoolsSound(h) && DeltaT in h.types && h.objs[r].body.ty == DeltaT
    ensures Emptied(DeltaClear, ClearDelta(h, r, unrefObjects).objs[r].body.data)
  {
    hide PoolsSound, Release;
    var h1 := SetData(h, r, h.objs[r].body.data.(b := None));
    PoolsSoundKept(h, h1);
    if unrefObjects {
      ReleaseFrame(h1, r, CSlot);
      assert Fades(h1.objs[r], Release(h1, r, CSlot).objs[r]);
    }
  }

  lemma ClearStepEmpties(h: Heap, r: Ref, m: Method<ClearExec>, n: Method<ClearExec>, unrefObjects: bool)
    requires r in h.objs && PoolsSound(h) && ClearOwner(m) && m.ty in h.types
    requires m == n || Emptied(n.exec, h.objs[r].body.data)
    ensures var h' := ExecClear(Bless(h, r, m.ty), r, m.exec, unrefObjects);
            r in h'.objs && Emptied(n.exec, h'.objs[r].body.data)
  {
    hide PoolsSound, Frame, ClearError, ClearDelta, Release;
    if m == n {
      var h0 := Bless(h, r, m.ty);
      PoolsSoundKept(h, h0);
      match m.exec
      case ErrorClear => ClearErrorEmpties(h0, r);
      case DeltaClear => ClearDeltaEmpties(h0, r, unrefObjects);
      case _ =>
    } else {
      hide ExecClear;
      ClearStepFrame(h, r, m, unrefObjects);
      EmptiedStays(n.exec, h, ExecClear(Bless(h, r, m.ty), r, m.exec, unrefObjects), r);
    }
  }

  lemma {:induction false} ClearFromEmpties(h: Heap, r: Ref, chain: seq<Method<ClearExec>>, i: nat,
                                            n: Method<ClearExec>, unrefObjects: bool)
    requires r in h.objs && i <= |chain| && PoolsSound(h)
    requires forall m :: m in chain ==> ClearOwner(m) && m.ty in h.types
    requires n in chain[..i] || Emptied(n.exec, h.objs[r].body.data)
    ensures Emptied(n.exec, ClearFrom(h, r, chain, i, unrefObjects).objs[r].body.data)
    decreases i
  {
    hide PoolsSound, Frame, ExecClear, Bless, Emptied, ClearOwner, Undecided, Fades, Untouched;
    if i > 0 {
      var m := chain[i - 1];
      var h1 := ExecClear(Bless(h, r, m.ty), r, m.exec, unrefObjects);
      ClearStepFrame(h, r, m, unrefObjects);
      FrameAt(h, h1, {r}, r);
      if m == n || Emptied(n.exec, h.objs[r].body.data) {
        ClearStepEmpties(h, r, m, n, unrefObjects);
      } else {
        assert chain[..i] == chain[..i - 1] + [m];
      }
      ClearFromEmpties(h1, r, chain, i - 1, n, unrefObjects);
    }
  }

  lemma ClassIsSound(types: Types, ty: TypeId)
    requires Sound(types) && ty in types
    ensures SoundClass(types, ty)
  {}

  /** Each method of the clear chain leaves the members that it is there for zero. */
  lemma ClearEmptiesOf(h: Heap, r: Ref, unrefObjects: bool, n: Method<ClearExec>)
    requires r in h.objs && PoolsSound(h) && Sound(h.types) && h.objs[r].body.ty in h.types
    requires n in ClearList(h, h.objs[r].body.ty)
    ensures Emptied(n.exec, ClearObject(h, r, unrefObjects).objs[r].body.data)
  {
    hide PoolsSound, Sound, ClearFrom, IsA, Emptied;
    var chain := ClearList(h, h.objs[r].body.ty);
    ClassIsSound(h.types, h.objs[r].body.ty);
    assert chain[..|chain|] == chain;
    ClearFromEmpties(h, r, chain, |chain|, n, unrefObjects);
  }

  /** Clearing an object zeroes the members of each of its classes, whether or not it releases objects. */
  lemma ClearEmpties(h: Heap, r: Ref, unrefObjects: bool)
    requires r in h.objs && PoolsSound(h) && Sound(h.types) && h.objs[r].body.ty in h.types
    ensures var ty, d := h.objs[r].body.ty, ClearObject(h, r, unrefObjects).objs[r].body.data;
            && (IsA(h.types, ty, ErrorT) ==> d.code == 0 && d.description == None)
            && (IsA(h.types, ty, AlphaT) ==> d.a == 0)
            && (IsA(h.types, ty, DeltaT) ==> d.b == None && d.d == None)
  {
    hide PoolsSound, ClearObject, Sound, IsA, ClearOwner;
    var ty := h.objs[r].body.ty;
    assert SoundClass(h.types, ty) by { ClassIsSound(h.types, ty); }
    if IsA(h.types, ty, ErrorT) { ClearEmptiesOf(h, r, unrefObjects, Method(ErrorT, ErrorClear)); }
    if IsA(h.types, ty, AlphaT) { ClearEmptiesOf(h, r, unrefObjects, Method(AlphaT, AlphaClear)); }
    if IsA(h.types, ty, DeltaT) { ClearEmptiesOf(h, r, unrefObjects, Method(DeltaT, DeltaClear)); }
  }

  // ---------------------------------------------------------------------------------------
  // Assigning
  // ---------------------------------------------------------------------------------------

  /** The member that Alpha's assign method copies is equal. */
  predicate AlphaSame(h: Heap, to: Ref, from: Ref) {
    to in h.objs && from in h.objs && h.objs[to].body.data.a == h.objs[from].body.data.a
  }

  /** The members that Delta's assign method copies are equal. */
  predicate DeltaSame(h: Heap, to: Ref, from: Ref) {
    && to in h.objs && from in h.objs
    && h.objs[to].body.c == h.objs[from].body.c
    && SameText(h.objs[to].body.data.b, h.objs[from].body.data.b)
    && SameText(h.objs[to].body.data.d, h.objs[from].body.data.d)
  }

  /** The source's own reference keeps the object that is stored, whatever is released first. */
  lemma SetCFromStores(h: Heap, to: Ref, from: Ref, held: multiset<Ref>)
    requires Sane(h, held, {to, from}) && Pair(h, to, from, held) && to != from
    ensures to in SetC(h, to, h.objs[from].body.c).objs
    ensures SetC(h, to, h.objs[from].body.c).objs[to].body.c == h.objs[from].body.c
  {
    hide Sane, Unref;
    var c, was := h.objs[from].body.c, h.objs[to].body.c;
    if c.Some? {
      if was.Some? {
        DropSane(h, to, CSlot, held, {to, from});
        DropFrom(h, to, from, held);
        var h1 := Unref(h, was.value);
        SlotGranted(SetSlot(h1, to, CSlot, None), Edge(from, CSlot), held, {to, from});
      } else {
        SlotGranted(h, Edge(from, CSlot), held, {to, from});
      }
    }
  }

  lemma AssignDeltaSame(h: Heap, to: Ref, from: Ref, held: multiset<Ref>)
    requires Sane(h, held, {to, from}) && Pair(h, to, from, held)
    ensures DeltaSame(AssignDelta(h, to, from), to, from)
    ensures AlphaSame(h, to, from) ==> AlphaSame(AssignDelta(h, to, from), to, from)
  {
    hide Sane, SetC;
    var h1 := SetB(h, to, h.objs[from].body.data.b);
    DataSane(h, to, h1.objs[to].body.data, held, {to, from});
    var c := h1.objs[from].body.c;
    SetCSane(h1, to, c, held, {to, from});
    SetCFrom(h1, to, from, c, held);
    if to != from { SetCFromStores(h1, to, from, held); }
  }

  /** One turn of the loop in `y_assign`. */
  lemma AssignStepSame(h: Heap, to: Ref, from: Ref, m: Method<AssignExec>, err: ErrorLocation, held: multiset<Ref>)
    requires Sane(h, held + Stowed(err), {to, from}) && Pair(h, to, from, held)
    requires AssignOwner(m) && m.ty in h.types && h.objs[to].body.ty == m.ty && h.objs[from].body.ty == m.ty
    requires err == Ignored || err == Location(None)
    ensures var (h', ok, err') := ExecAssign(h, to, from, m.exec, err);
            && (Willing([m], err) <==> ok && !(err'.Location? && err'.error.Some?))
            && (Willing([m], err) ==> err' == err)
            && (AlphaSame(h, to, from) || m.exec.AlphaAssign? ==> AlphaSame(h', to, from))
            && (DeltaSame(h, to, from) || m.exec.DeltaAssign? ==> DeltaSame(h', to, from))
  {
    hide Sane, AssignDelta, Throw;
    assert m in [m];
    match m.exec
    case AlphaAssign =>
    case DeltaAssign => HeldAlso(h, to, from, held, err); AssignDeltaSame(h, to, from, held + Stowed(err));
    case UserAssign =>
    case RefusingAssign =>
    case ThrowingAssign(code) =>
      if err.Location? {
        SanePlain(h, held + Stowed(err), {to, from});
        SanePools(h, held + Stowed(err), {to, from});
        ErrorChains.ThrowOne(h, err, code, None);
      } else {
        ThrowIgnored(h, code, None);
      }
  }

  /** Changing the class of an object leaves its members alone. */
  lemma BlessSame(h: Heap, to: Ref, from: Ref, ty: TypeId)
    requires to in h.objs && from in h.objs
    ensures var h' := Bless(Bless(h, to, ty), from, ty);
            && (AlphaSame(h, to, from) ==> AlphaSame(h', to, from))
            && (DeltaSame(h, to, from) ==> DeltaSame(h', to, from))
            && h'.types == h.types && to in h'.objs && from in h'.objs
            && h'.objs[to].body.ty == ty && h'.objs[from].body.ty == ty
  {}

  lemma {:induction false} AssignFromSame(h: Heap, to: Ref, from: Ref, list: seq<Method<AssignExec>>, i: nat,
                                          err: ErrorLocation, held: multiset<Ref>)
    requires i <= |list| && Sane(h, held + Stowed(err), {to, from}) && Pair(h, to, from, held)
    requires forall m :: m in list ==> AssignOwner(m) && m.ty in h.types
    requires err == Ignored || err == Location(None)
    ensures var (h', ok, err') := AssignFrom(h, to, from, list, i, err);
            && (ok <==> Willing(list[i..], err)) && (ok ==> err' == err)
            && (ok && (AlphaSame(h, to, from) || Method(AlphaT, AlphaAssign) in list[i..]) ==> AlphaSame(h', to, from))
            && (ok && (DeltaSame(h, to, from) || Method(DeltaT, DeltaAssign) in list[i..]) ==> DeltaSame(h', to, from))
    decreases |list| - i
  {
    hide Sane, ExecAssign, Bless, AlphaSame, DeltaSame, AssignOwner;
    if i < |list| {
      var m := list[i];
      assert list[i..] == [m] + list[i + 1..];
      BlessSane(h, to, m.ty, held + Stowed(err), {to, from});
      BlessSane(Bless(h, to, m.ty), from, m.ty, held + Stowed(err), {to, from});
      BlessSame(h, to, from, m.ty);
      var h1 := Bless(Bless(h, to, m.ty), from, m.ty);
      AssignStepSame(h1, to, from, m, err, held);
      ExecAssignSane(h1, to, from, m.exec, err, held);
      var (h2, ok, err1) := ExecAssign(h1, to, from, m.exec, err);
      if Willing([m], err) {
        AssignFromSame(h2, to, from, list, i + 1, err1, held);
      }
    }
  }

  /** `y_assign` succeeds exactly when the two objects are of the same class, the class has an assign list, and no
      method in it refuses or reports an error; then the members that the classes copy are equal, and a source that is
      another object is as it was. When the classes differ or there is no list, nothing happens at all. */
  lemma AssignMakesEqual(h: Heap, to: Ref, from: Ref, err: ErrorLocation, held: multiset<Ref>)
    requires Sane(h, held, {}) && Pair(h, to, from, held) && (err == Ignored || err == Location(None))
    ensures var ty := h.objs[to].body.ty;
            var same := AssignList(h, ty) != [] && h.objs[from].body.ty == ty;
            var (h', ok, err') := Assign(h, to, from, err);
            && (ok <==> same && Willing(AssignList(h, ty), err)) && (ok ==> err' == err)
            && (!same ==> h' == h && err' == err)
            && (ok && IsA(h.types, ty, AlphaT) ==> AlphaSame(h', to, from))
            && (ok && IsA(h.types, ty, DeltaT) ==> DeltaSame(h', to, from))
            && from in h'.objs && (to != from ==> h'.objs[from].body == h.objs[from].body)
  {
    hide Sane, ClearObject, AssignFrom, Sound, IsA, AlphaSame, DeltaSame, Willing, Bless;
    var ty := h.objs[to].body.ty;
    var list := AssignList(h, ty);
    assert held + Stowed(err) == held;
    AssignSane(h, to, from, err, held);
    if list != [] && h.objs[from].body.ty == ty {
      AssignStarts(h, to, from, held);
      assert Sound(h.types) by { SaneParts(h, held, {}); BalancedParts(h, held, {}, {}); }
      ListOwners(h.types, ty);
      var h1 := ClearObject(h, to, true);
      assert list[0..] == list;
      AssignFromSame(h1, to, from, list, 0, err, held);
      AssignFromSane(h1, to, from, list, 0, err, held);
      var (h2, ok, err1) := AssignFrom(h1, to, from, list, 0, err);
      BlessSame(h2, to, from, ty);
    }
  }
}
