/** What running a flat method list means: a walk along the class hierarchy (the chain directions that
    yakka/Object-protected.h documents). */
module ChainRuns {
  import opened Classes
  import opened Heaps

  // ---------------------------------------------------------------------------------------
  // Clearing walks up
  // ---------------------------------------------------------------------------------------

  /** From the last class of `line` to the first, each class that defines a clear method runs it on the
      object, typed as that class. */
  ghost function ClearUp(h: Heap, r: Ref, own: Own<ClearExec>, line: seq<TypeId>, unrefObjects: bool): (h': Heap)
    requires r in h.objs
    ensures h'.objs.Keys == h.objs.Keys
    decreases |line|
  {
    if line == [] then h
    else
      var ty := line[|line| - 1];
      var h1 := if ty in own && own[ty].Some? then ExecClear(Bless(h, r, ty), r, own[ty].value, unrefObjects) else h;
      ClearUp(h1, r, own, line[..|line| - 1], unrefObjects)
  }

  /** The turns of the loop that are still to come look only at the entries that are left. */
  lemma {:induction false} ClearFromPrefix(h: Heap, r: Ref, chain: seq<Method<ClearExec>>, more: seq<Method<ClearExec>>,
                                           i: nat, unrefObjects: bool)
    requires r in h.objs && i <= |chain|
    ensures ClearFrom(h, r, chain + more, i, unrefObjects) == ClearFrom(h, r, chain, i, unrefObjects)
    decreases i
  {
    hide ExecClear, Bless;
    if i > 0 {
      assert (chain + more)[i - 1] == chain[i - 1];
      ClearFromPrefix(ExecClear(Bless(h, r, chain[i - 1].ty), r, chain[i - 1].exec, unrefObjects), r, chain, more,
                      i - 1, unrefObjects);
    }
  }

  lemma NoTurns(h: Heap, r: Ref, unrefObjects: bool)
    requires r in h.objs
    ensures ClearFrom(h, r, [], 0, unrefObjects) == h
  {}

  /** The first turn of the loop runs the last entry. */
  lemma {:induction false} ClearFromTop(h: Heap, r: Ref, upper: seq<Method<ClearExec>>, m: Method<ClearExec>,
                                        unrefObjects: bool)
    requires r in h.objs
    ensures ClearFrom(h, r, upper + [m], |upper| + 1, unrefObjects)
            == ClearFrom(ExecClear(Bless(h, r, m.ty), r, m.exec, unrefObjects), r, upper, |upper|, unrefObjects)
  {
    hide ExecClear, Bless;
    ClearFromPrefix(ExecClear(Bless(h, r, m.ty), r, m.exec, unrefObjects), r, upper, [m], |upper|, unrefObjects);
  }

  lemma {:induction false} ClearChainWalks(h: Heap, r: Ref, own: Own<ClearExec>, line: seq<TypeId>, unrefObjects: bool)
    requires r in h.objs
    ensures ClearFrom(h, r, Chain(own, line), |Chain(own, line)|, unrefObjects)
            == ClearUp(h, r, own, line, unrefObjects)
    decreases |line|
  {
    hide ExecClear, Bless, ClearFrom;
    NoTurns(h, r, unrefObjects);
    if line != [] {
      var ty, rest := line[|line| - 1], line[..|line| - 1];
      var upper := Chain(own, rest);
      if ty in own && own[ty].Some? {
        var m := Method(ty, own[ty].value);
        assert Chain(own, line) == upper + [m];
        var h1 := ExecClear(Bless(h, r, ty), r, m.exec, unrefObjects);
        ClearFromTop(h, r, upper, m, unrefObjects);
        ClearChainWalks(h1, r, own, rest, unrefObjects);
      } else {
        assert Chain(own, line) == upper;
        ClearChainWalks(h, r, own, rest, unrefObjects);
      }
    }
  }

  /** `y_clear_object` walks from the object's class up to the root, runs what each class defines with the
      object typed as that class, and gives the object its class back. */
  lemma ClearObjectWalks(h: Heap, r: Ref, defs: map<TypeId, Def>, unrefObjects: bool)
    requires r in h.objs && h.objs[r].body.ty in h.types && Built(h.types, defs)
    ensures var ty := h.objs[r].body.ty;
            ClearObject(h, r, unrefObjects)
            == Bless(ClearUp(h, r, Clears(defs), Ancestry(h.types, ty), unrefObjects), r, ty)
    ensures ClearObject(h, r, unrefObjects).objs[r].body.ty == h.objs[r].body.ty
  {
    hide ClearFrom, ClearUp, Ancestry, Chain;
    var ty := h.objs[r].body.ty;
    assert BuiltAs(h.types, defs, ty);
    ClearChainWalks(h, r, Clears(defs), Ancestry(h.types, ty), unrefObjects);
    if ClearList(h, ty) == [] {
      NothingToClear(h, r, unrefObjects);
    }
  }

  lemma NothingToClear(h: Heap, r: Ref, unrefObjects: bool)
    requires r in h.objs
    ensures ClearFrom(h, r, [], 0, unrefObjects) == h && Bless(h, r, h.objs[r].body.ty) == h
  {}

  // ---------------------------------------------------------------------------------------
  // Creating and assigning walk down
  // ---------------------------------------------------------------------------------------

  /** From the first class of `line` to the last, each class that defines an init method runs it on the
      object, typed as that class, until one leaves an error. */
  ghost function InitDown(h: Heap, r: Ref, own: Own<InitExec>, line: seq<TypeId>, err: ErrorLocation)
    : (Heap, bool, ErrorLocation)
    decreases |line|
  {
    if line == [] then (h, true, err)
    else
      var ty := line[|line| - 1];
      var (h1, ok, err1) := InitDown(h, r, own, line[..|line| - 1], err);
      if !ok || r !in h1.objs || ty !in own || own[ty].None? then (h1, ok, err1)
      else
        var (h2, err2) := ExecInit(Bless(h1, r, ty), r, own[ty].value, err1);
        (h2, !(err2.Location? && err2.error.Some?), err2)
  }

  lemma {:induction false} InitFromSnoc(h: Heap, r: Ref, list: seq<Method<InitExec>>, m: Method<InitExec>, i: nat,
                                        err: ErrorLocation)
    requires i <= |list|
    ensures InitFrom(h, r, list + [m], i, err)
            == var (h1, ok, err1) := InitFrom(h, r, list, i, err);
               if !ok || r !in h1.objs then (h1, ok, err1)
               else
                 var (h2, err2) := ExecInit(Bless(h1, r, m.ty), r, m.exec, err1);
                 (h2, !(err2.Location? && err2.error.Some?), err2)
    decreases |list| - i
  {
    hide ExecInit;
    var more := list + [m];
    if r in h.objs && i < |list| {
      assert more[i] == list[i];
      var (h1, err1) := ExecInit(Bless(h, r, list[i].ty), r, list[i].exec, err);
      InitFromSnoc(h1, r, list, m, i + 1, err1);
    }
  }

  lemma {:induction false} InitChainWalks(h: Heap, r: Ref, own: Own<InitExec>, line: seq<TypeId>, err: ErrorLocation)
    ensures InitFrom(h, r, Chain(own, line), 0, err) == InitDown(h, r, own, line, err)
    decreases |line|
  {
    hide ExecInit;
    if line != [] {
      var ty, rest := line[|line| - 1], line[..|line| - 1];
      InitChainWalks(h, r, own, rest, err);
      if ty in own && own[ty].Some? {
        InitFromSnoc(h, r, Chain(own, rest), Method(ty, own[ty].value), 0, err);
      } else {
        assert Chain(own, line) == Chain(own, rest);
      }
    }
  }

  /** `y_create` walks from the root down to the class asked for. */
  lemma CreateWalks(h: Heap, ty: TypeId, err: ErrorLocation, defs: map<TypeId, Def>)
    requires ty in h.types && Built(h.types, defs)
    ensures InitFrom(Allocate(h, ty), h.next, InitList(h, ty), 0, err)
            == InitDown(Allocate(h, ty), h.next, Inits(defs), Ancestry(h.types, ty), err)
  {
    hide InitFrom, InitDown, Ancestry, Chain, Allocate;
    assert BuiltAs(h.types, defs, ty);
    InitChainWalks(Allocate(h, ty), h.next, Inits(defs), Ancestry(h.types, ty), err);
  }

  /** From the first class of `line` to the last, each class that defines an assign method runs it on the two
      objects, both typed as that class, until one refuses or leaves an error. */
  ghost function AssignDown(h: Heap, to: Ref, from: Ref, own: Own<AssignExec>, line: seq<TypeId>, err: ErrorLocation)
    : (Heap, bool, ErrorLocation)
    decreases |line|
  {
    if line == [] then (h, true, err)
    else
      var ty := line[|line| - 1];
      var (h1, ok, err1) := AssignDown(h, to, from, own, line[..|line| - 1], err);
      if !ok || to !in h1.objs || from !in h1.objs || ty !in own || own[ty].None? then (h1, ok, err1)
      else
        var (h2, done, err2) := ExecAssign(Bless(Bless(h1, to, ty), from, ty), to, from, own[ty].value, err1);
        (h2, done && !(err2.Location? && err2.error.Some?), err2)
  }

  lemma {:induction false} AssignFromSnoc(h: Heap, to: Ref, from: Ref, list: seq<Method<AssignExec>>,
                                          m: Method<AssignExec>, i: nat, err: ErrorLocation)
    requires i <= |list|
    ensures AssignFrom(h, to, from, list + [m], i, err)
            == var (h1, ok, err1) := AssignFrom(h, to, from, list, i, err);
               if !ok || to !in h1.objs || from !in h1.objs then (h1, ok, err1)
               else
                 var (h2, done, err2) := ExecAssign(Bless(Bless(h1, to, m.ty), from, m.ty), to, from, m.exec, err1);
                 (h2, done && !(err2.Location? && err2.error.Some?), err2)
    decreases |list| - i
  {
    hide ExecAssign, Bless;
    var more := list + [m];
    if to in h.objs && from in h.objs && i < |list| {
      assert more[i] == list[i];
      var (h1, ok, err1) := ExecAssign(Bless(Bless(h, to, list[i].ty), from, list[i].ty), to, from, list[i].exec, err);
      AssignFromSnoc(h1, to, from, list, m, i + 1, err1);
    }
  }

  lemma {:induction false} AssignChainWalks(h: Heap, to: Ref, from: Ref, own: Own<AssignExec>, line: seq<TypeId>,
                                            err: ErrorLocation)
    ensures AssignFrom(h, to, from, Chain(own, line), 0, err) == AssignDown(h, to, from, own, line, err)
    decreases |line|
  {
    hide ExecAssign;
    if line != [] {
      var ty, rest := line[|line| - 1], line[..|line| - 1];
      AssignChainWalks(h, to, from, own, rest, err);
      if ty in own && own[ty].Some? {
        AssignFromSnoc(h, to, from, Chain(own, rest), Method(ty, own[ty].value), 0, err);
      } else {
        assert Chain(own, line) == Chain(own, rest);
      }
    }
  }

  /** `y_assign` walks from the root down to the class of the two objects. */
  lemma AssignWalks(h: Heap, to: Ref, from: Ref, ty: TypeId, err: ErrorLocation, defs: map<TypeId, Def>)
    requires ty in h.types && Built(h.types, defs)
    ensures AssignFrom(h, to, from, AssignList(h, ty), 0, err)
            == AssignDown(h, to, from, Assigns(defs), Ancestry(h.types, ty), err)
  {
    hide AssignFrom, AssignDown, Ancestry, Chain;
    assert BuiltAs(h.types, defs, ty);
    AssignChainWalks(h, to, from, Assigns(defs), Ancestry(h.types, ty), err);
  }
}
