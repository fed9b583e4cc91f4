/** What `y_cleanup_of_last_resort` does to an object that is still alive when its pool is cleared (yakka/Object.c). */
module LastResorts {
  import opened Options
  import opened Pools
  import opened Classes
  import opened Heaps
  import opened Cascade

  /** Members after clear methods that release nothing. */
  function Zeroed(d: Data, alpha: bool, delta: bool): Data {
    var e := if alpha then d.(a := 0) else d;
    if delta then e.(b := None, d := None) else e
  }

  /** Writing the class and the members of one object, and nothing else anywhere. */
  function Rewritten(h: Heap, r: Ref, ty: TypeId, d: Data): Heap
    requires r in h.objs
  {
    h.(objs := h.objs[r := h.objs[r].(body := h.objs[r].body.(ty := ty, data := d))])
  }

  lemma RewrittenAt(h: Heap, r: Ref, ty: TypeId, d: Data)
    requires r in h.objs
    ensures var h' := Rewritten(h, r, ty, d);
            && r in h'.objs && h'.objs[r].body.ty == ty && h'.objs[r].body.data == d && h'.types == h.types
    ensures Bless(h, r, ty) == Rewritten(h, r, ty, h.objs[r].body.data)
    ensures SetData(h, r, d) == Rewritten(h, r, h.objs[r].body.ty, d)
  {
    hide Positive;
  }

  lemma RewrittenTwice(h: Heap, r: Ref, ty: TypeId, d: Data, ty': TypeId, d': Data)
    requires r in h.objs
    ensures Rewritten(Rewritten(h, r, ty, d), r, ty', d') == Rewritten(h, r, ty', d')
  {
    var o := h.objs[r].(body := h.objs[r].body.(ty := ty', data := d'));
    assert h.objs[r := Rewritten(h, r, ty, d).objs[r]][r := o] == h.objs[r := o];
  }

  lemma RewrittenSame(h: Heap, r: Ref)
    requires r in h.objs
    ensures Rewritten(h, r, h.objs[r].body.ty, h.objs[r].body.data) == h
  {
    assert h.objs[r := h.objs[r]] == h.objs;
  }

  /** One clear method that is told to release nothing. */
  lemma ExecClearLocal(h: Heap, r: Ref, exec: ClearExec)
    requires r in h.objs && exec != ErrorClear
    requires exec == AlphaClear ==> Casts(h, r, AlphaT)
    requires exec == DeltaClear ==> Casts(h, r, DeltaT)
    ensures ExecClear(h, r, exec, false)
            == Rewritten(h, r, h.objs[r].body.ty,
                         Zeroed(h.objs[r].body.data, exec == AlphaClear, exec == DeltaClear))
  {
    hide Release, ClearError, Positive, SetData, Rewritten, IsA;
    var ty, d := h.objs[r].body.ty, h.objs[r].body.data;
    match exec
    case ObjectClear => RewrittenSame(h, r);
    case AlphaClear => RewrittenAt(h, r, ty, d.(a := 0));
    case DeltaClear =>
      var h1 := SetData(h, r, d.(b := None));
      RewrittenAt(h, r, ty, d.(b := None));
      RewrittenAt(h1, r, ty, d.(b := None, d := None));
      RewrittenTwice(h, r, ty, d.(b := None), ty, d.(b := None, d := None));
    case UserClear => RewrittenSame(h, r);
  }

  lemma BlessCasts(h: Heap, r: Ref, m: Method<ClearExec>)
    requires r in h.objs && ClearOwner(m) && m.ty in h.types
    ensures m.exec == AlphaClear ==> Casts(Bless(h, r, m.ty), r, AlphaT)
    ensures m.exec == DeltaClear ==> Casts(Bless(h, r, m.ty), r, DeltaT)
  {}

  /** One turn of the loop. */
  lemma ClearStepLocal(h: Heap, r: Ref, m: Method<ClearExec>)
    requires r in h.objs && ClearOwner(m) && m.ty in h.types && m.exec != ErrorClear
    ensures ExecClear(Bless(h, r, m.ty), r, m.exec, false)
            == Rewritten(h, r, m.ty, Zeroed(h.objs[r].body.data, m.exec == AlphaClear, m.exec == DeltaClear))
  {
    hide ExecClear, Bless, Rewritten, ClearOwner, Zeroed;
    var d := h.objs[r].body.data;
    BlessCasts(h, r, m);
    RewrittenAt(h, r, m.ty, d);
    ExecClearLocal(Bless(h, r, m.ty), r, m.exec);
    RewrittenTwice(h, r, m.ty, d, m.ty, Zeroed(d, m.exec == AlphaClear, m.exec == DeltaClear));
  }

  lemma ZeroedTwice(d: Data, alpha: bool, delta: bool, alpha': bool, delta': bool)
    ensures Zeroed(Zeroed(d, alpha, delta), alpha', delta') == Zeroed(d, alpha || alpha', delta || delta')
  {}

  lemma {:induction false} ClearFromLocal(h: Heap, r: Ref, chain: seq<Method<ClearExec>>, i: nat)
    requires r in h.objs && i <= |chain|
    requires forall m :: m in chain ==> ClearOwner(m) && m.ty in h.types && m.exec != ErrorClear
    ensures var o := h.objs[r].body;
            var alpha, delta := Method(AlphaT, AlphaClear) in chain[..i], Method(DeltaT, DeltaClear) in chain[..i];
            ClearFrom(h, r, chain, i, false)
            == Rewritten(h, r, if i == 0 then o.ty else chain[0].ty, Zeroed(o.data, alpha, delta))
    decreases i
  {
    hide ExecClear, Bless, ClearOwner, Rewritten, Positive;
    var o := h.objs[r].body;
    if i == 0 {
      RewrittenSame(h, r);
    } else {
      var m := chain[i - 1];
      var alpha, delta := Method(AlphaT, AlphaClear) in chain[..i - 1], Method(DeltaT, DeltaClear) in chain[..i - 1];
      ClearStepLocal(h, r, m);
      var h1 := ExecClear(Bless(h, r, m.ty), r, m.exec, false);
      var d1 := Zeroed(o.data, m.exec == AlphaClear, m.exec == DeltaClear);
      RewrittenAt(h, r, m.ty, d1);
      ClearFromLocal(h1, r, chain, i - 1);
      RewrittenTwice(h, r, m.ty, d1, if i == 1 then m.ty else chain[0].ty, Zeroed(d1, alpha, delta));
      ZeroedTwice(o.data, m.exec == AlphaClear, m.exec == DeltaClear, alpha, delta);
      PrefixGrows(chain, i, Method(AlphaT, AlphaClear));
      PrefixGrows(chain, i, Method(DeltaT, DeltaClear));
      OwnEntries(m);
    }
  }

  lemma PrefixGrows(chain: seq<Method<ClearExec>>, i: nat, x: Method<ClearExec>)
    requires 0 < i <= |chain|
    ensures x in chain[..i] <==> x in chain[..i - 1] || x == chain[i - 1]
  {
    assert chain[..i] == chain[..i - 1] + [chain[i - 1]];
  }

  lemma OwnEntries(m: Method<ClearExec>)
    requires ClearOwner(m)
    ensures m == Method(AlphaT, AlphaClear) <==> m.exec == AlphaClear
    ensures m == Method(DeltaT, DeltaClear) <==> m.exec == DeltaClear
  {}

  lemma ListOwned(types: Types, ty: TypeId)
    requires Sound(types) && ty in types && !IsA(types, ty, ErrorT)
    ensures types[ty].clear != []
    ensures forall m :: m in types[ty].clear ==> ClearOwner(m) && m.ty in types && m.exec != ErrorClear
    ensures Method(AlphaT, AlphaClear) in types[ty].clear <==> IsA(types, ty, AlphaT)
    ensures Method(DeltaT, DeltaClear) in types[ty].clear <==> IsA(types, ty, DeltaT)
  {
    assert SoundClass(types, ty) && SoundClear(types, ty, types[ty].clear);
  }

  /** The callback clears its object and marks it deleted, and no reference is given back: nothing else in the heap
      changes, and the slots of the object itself keep what they held. An error's clear method is the exception, which
      releases the cause in any case. */
  lemma LastResortClears(h: Heap, p: Pool)
    requires Sound(h.types) && p in h.cleanups && Alive(h, h.cleanups[p])
    requires var ty := h.objs[h.cleanups[p]].body.ty; ty in h.types && !IsA(h.types, ty, ErrorT)
    ensures var r := h.cleanups[p];
            var o, o' := h.objs[r], LastResort(h, p).objs[r];
            && LastResort(h, p) == h.(objs := h.objs[r := o'], cleanups := h.cleanups - {p})
            && o' == o.(body := o.body.(deleted := true, teardowns := o.body.teardowns + 1, data := o'.body.data))
            && o'.body.data.a == (if IsA(h.types, o.body.ty, AlphaT) then 0 else o.body.data.a)
            && o'.body.data.b == (if IsA(h.types, o.body.ty, DeltaT) then None else o.body.data.b)
            && o'.body.data.d == (if IsA(h.types, o.body.ty, DeltaT) then None else o.body.data.d)
  {
    hide Sound, TearDown, IsA;
    var r := h.cleanups[p];
    var h1 := h.(cleanups := h.cleanups - {p});
    var b := h.objs[r].body;
    var d := Zeroed(b.data, IsA(h.types, b.ty, AlphaT), IsA(h.types, b.ty, DeltaT));
    TearDownLocal(h1, r);
    assert LastResort(h, p) == TearDown(h1, r, false);
  }

  lemma ClearLocal(h: Heap, r: Ref)
    requires Sound(h.types) && r in h.objs && h.objs[r].body.ty in h.types && !IsA(h.types, h.objs[r].body.ty, ErrorT)
    ensures var b := h.objs[r].body;
            ClearObject(h, r, false)
            == Rewritten(h, r, b.ty, Zeroed(b.data, IsA(h.types, b.ty, AlphaT), IsA(h.types, b.ty, DeltaT)))
  {
    hide Sound, ClearFrom, IsA, Rewritten, Bless, ClearOwner;
    var b := h.objs[r].body;
    var chain := h.types[b.ty].clear;
    ListOwned(h.types, b.ty);
    ClearFromLocal(h, r, chain, |chain|);
    assert chain[..|chain|] == chain;
    var d := Zeroed(b.data, IsA(h.types, b.ty, AlphaT), IsA(h.types, b.ty, DeltaT));
    RewrittenAt(h, r, chain[0].ty, d);
    RewrittenAt(Rewritten(h, r, chain[0].ty, d), r, b.ty, d);
    RewrittenTwice(h, r, chain[0].ty, d, b.ty, d);
  }

  lemma TearDownLocal(h: Heap, r: Ref)
    requires Sound(h.types) && r in h.objs && h.objs[r].body.ty in h.types && !IsA(h.types, h.objs[r].body.ty, ErrorT)
    ensures var b := h.objs[r].body;
            var d := Zeroed(b.data, IsA(h.types, b.ty, AlphaT), IsA(h.types, b.ty, DeltaT));
            TearDown(h, r, false)
            == h.(objs := h.objs[r := h.objs[r].(body := b.(deleted := true, teardowns := b.teardowns + 1, data := d))])
  {
    hide *;
    var b := h.objs[r].body;
    ClearLocal(h, r);
    MarkRewritten(h, r, Zeroed(b.data, IsA(h.types, b.ty, AlphaT), IsA(h.types, b.ty, DeltaT)));
    TearDownShape(h, r);
  }

  lemma TearDownShape(h: Heap, r: Ref)
    requires r in h.objs
    ensures var h1 := ClearObject(h, r, false);
            r in h1.objs && TearDown(h, r, false) == Marked(h1, r)
  {
    hide ClearObject, Positive;
  }

  function Marked(h: Heap, r: Ref): Heap
    requires r in h.objs
  {
    var b := h.objs[r].body;
    SetBody(h, r, b.(deleted := true, teardowns := b.teardowns + 1))
  }

  lemma MarkRewritten(h: Heap, r: Ref, d: Data)
    requires r in h.objs
    ensures var b := h.objs[r].body;
            r in Rewritten(h, r, b.ty, d).objs
            && Marked(Rewritten(h, r, b.ty, d), r)
               == h.(objs := h.objs[r := h.objs[r].(body := b.(deleted := true, teardowns := b.teardowns + 1,
                                                               data := d))])
  {
    hide Positive;
    var b := h.objs[r].body;
    var o1 := h.objs[r].(body := b.(data := d));
    var o2 := h.objs[r].(body := b.(deleted := true, teardowns := b.teardowns + 1, data := d));
    assert h.objs[r := o1][r := o2] == h.objs[r := o2];
  }

  /** It does nothing to an object that is marked deleted, and nothing at all when none is registered. */
  lemma LastResortSpares(h: Heap, p: Pool)
    requires p in h.cleanups ==> !Alive(h, h.cleanups[p])
    ensures LastResort(h, p) == h.(cleanups := h.cleanups - {p})
  {
    hide TearDown;
    if p !in h.cleanups { assert h.cleanups - {p} == h.cleanups; }
  }
}
