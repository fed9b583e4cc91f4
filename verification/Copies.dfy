/** What `y_copy` yields, and what it leaves behind when it fails (yakka/Object.c with the assign methods of
    test/ootest/Alpha.c and test/ootest/Delta.c). */
module Copies {
  import opened Options
  import opened Pools
  import opened Classes
  import opened Heaps
  import opened Cascade
  import opened Counts
  import opened Accounts
  import opened Calls
  import opened ErrorChains
  import opened WeakCalls

  // ---------------------------------------------------------------------------------------
  // When creation and assignment succeed
  // ---------------------------------------------------------------------------------------

  /** No init method leaves an error in the location. */
  predicate Quiet(list: seq<Method<InitExec>>, err: ErrorLocation) {
    err.Ignored? || forall m :: m in list ==> !m.exec.ThrowingInit?
  }

  /** No assign method refuses or leaves an error in the location. */
  predicate Willing(list: seq<Method<AssignExec>>, err: ErrorLocation) {
    forall m :: m in list ==> !m.exec.RefusingAssign? && (err.Location? ==> !m.exec.ThrowingAssign?)
  }

  /** The objects that a call has added: at most the error that it reports. */
  ghost predicate OnlyError(h: Heap, h': Heap, err: ErrorLocation) {
    forall x :: x in h'.objs ==> x in h.objs || err == Location(Some(x))
  }

  /** One turn of the loop in `y_create`: it stops exactly at a method that throws. */
  lemma InitStepOutcome(h: Heap, r: Ref, m: Method<InitExec>, err: ErrorLocation)
    requires r in h.objs && InitList(h, ErrorT) == [] && Young(h) && Stowed(err) == multiset{}
    ensures var (h1, err1) := ExecInit(Bless(h, r, m.ty), r, m.exec, err);
            && OnlyError(h, h1, err1)
            && (Quiet([m], err) ==> err1 == err && h1.objs.Keys == h.objs.Keys)
            && (!Quiet([m], err) ==> err1.Location? && err1.error.Some?)
  {}

  lemma {:induction false} InitFromOutcome(h: Heap, r: Ref, list: seq<Method<InitExec>>, i: nat, err: ErrorLocation,
                                           held: multiset<Ref>)
    requires i <= |list| && Sane(h, held, {}) && Unfinished(h, r) && Stowed(err) == multiset{}
    requires forall m :: m in list ==> m.ty in h.types
    ensures var (h', ok, err') := InitFrom(h, r, list, i, err);
            && OnlyError(h, h', err') && (ok <==> Quiet(list[i..], err)) && (ok ==> err' == err)
    decreases |list| - i
  {
    hide Sane, ExecInit, Bless, Unfinished;
    assert r in h.objs by { UnfinishedThere(h, r); }
    assert held + Stowed(err) == held;
    if i < |list| {
      var m := list[i];
      assert list[i..] == [m] + list[i + 1..];
      SanePlain(h, held, {});
      SanePools(h, held, {});
      InitStepOutcome(h, r, m, err);
      InitStepSane(h, r, m, err, held);
      var (h1, err1) := ExecInit(Bless(h, r, m.ty), r, m.exec, err);
      if Quiet([m], err) {
        assert !(err1.Location? && err1.error.Some?);
        assert held + Stowed(err1) == held;
        InitFromOutcome(h1, r, list, i + 1, err1, held);
      }
    }
  }

  lemma UnfinishedThere(h: Heap, r: Ref)
    requires Unfinished(h, r)
    ensures r in h.objs
  {}

  /** `y_create` succeeds exactly when no init method reports an error. What it adds is the new object, or
      the error; after a failure the pool that was drawn is idle again. */
  lemma CreateOutcome(h: Heap, ty: TypeId, err: ErrorLocation, held: multiset<Ref>)
    requires Sane(h, held, {}) && Stowed(err) == multiset{} && ty in h.types
    ensures var (h', r, err') := Create(h, ty, err);
            && (r.Some? <==> Quiet(InitList(h, ty), err))
            && (r.Some? ==> err' == err && h'.objs.Keys == h.objs.Keys + {h.next})
            && (r.Some? ==> h'.objs[h.next].body.pool == NextPool(h.pools))
            && (r.None? ==> OnlyError(h, h', err') && NextPool(h.pools) in Idle(h'.pools))
  {
    hide Sane, InitFrom, Allocate, Discard, Create, Finish, Stowed, Unfinished, Idle, NextPool;
    var r, list := h.next, InitList(h, ty);
    CreateStarts(h, ty, held);
    CreateShape(h, ty, err);
    InitFromSane(Allocate(h, ty), r, list, 0, err, held + multiset{r});
    InitFromOutcome(Allocate(h, ty), r, list, 0, err, held + multiset{r});
    assert list[0..] == list;
    var (h1, ok, err1) := InitFrom(Allocate(h, ty), r, list, 0, err);
    AllocateHasPool(h, ty);
    UnfinishedThere(h1, r);
    InitFromPool(Allocate(h, ty), r, list, 0, err, held + multiset{r});
    if ok {
      FinishPool(h1, r, ty);
      InitFromKeys(h, ty, err, held);
    } else {
      DiscardSane(h1, r, held + Stowed(err1)) by {
        assert held + multiset{r} + Stowed(err1) == (held + Stowed(err1)) + multiset{r};
      }
      DiscardIdle(h1, r, held + multiset{r} + Stowed(err1));
    }
  }

  lemma AllocateHasPool(h: Heap, ty: TypeId)
    ensures var h1 := Allocate(h, ty);
            && h.next in h1.objs && h1.objs[h.next].body.pool == NextPool(h.pools)
            && h1.objs.Keys == h.objs.Keys + {h.next}
  {}

  lemma FinishPool(h: Heap, r: Ref, ty: TypeId)
    requires r in h.objs
    ensures Finish(h, r, ty).objs.Keys == h.objs.Keys && Finish(h, r, ty).objs[r].body.pool == h.objs[r].body.pool
  {}

  lemma DiscardIdle(h: Heap, r: Ref, held: multiset<Ref>)
    requires Sane(h, held, {}) && Unfinished(h, r)
    ensures Discard(h, r).objs == h.objs - {r} && h.objs[r].body.pool in Idle(Discard(h, r).pools)
  {
    hide Discard, PoolsSound;
    SanePools(h, held, {});
    DiscardShape(h, r);
    SaneStack(h, held);
    RecycleIdles(h.pools, h.objs[r].body.pool);
  }

  lemma InitFromKeys(h: Heap, ty: TypeId, err: ErrorLocation, held: multiset<Ref>)
    requires Sane(h, held, {}) && Stowed(err) == multiset{} && ty in h.types
    requires InitFrom(Allocate(h, ty), h.next, InitList(h, ty), 0, err).1
    ensures InitFrom(Allocate(h, ty), h.next, InitList(h, ty), 0, err).0.objs.Keys == h.objs.Keys + {h.next}
  {
    hide Sane, InitFrom, Allocate, Stowed, Unfinished;
    CreateStarts(h, ty, held);
    AllocateHasPool(h, ty);
    InitFromOutcome(Allocate(h, ty), h.next, InitList(h, ty), 0, err, held + multiset{h.next});
    InitFromSane(Allocate(h, ty), h.next, InitList(h, ty), 0, err, held + multiset{h.next});
    var h1 := InitFrom(Allocate(h, ty), h.next, InitList(h, ty), 0, err).0;
    UnfinishedThere(h1, h.next);
    assert Stowed(err) == multiset{} ==> err == Ignored || err == Location(None) by { StowedNone(err); }
    assert forall x :: x in h1.objs <==> x in Allocate(h, ty).objs;
  }

  lemma StowedNone(err: ErrorLocation)
    ensures Stowed(err) == multiset{} <==> err == Ignored || err == Location(None)
  {}

  lemma {:induction false} InitFromPool(h: Heap, r: Ref, list: seq<Method<InitExec>>, i: nat, err: ErrorLocation,
                                        held: multiset<Ref>)
    requires i <= |list| && Sane(h, held, {}) && Unfinished(h, r) && Stowed(err) == multiset{}
    requires forall m :: m in list ==> m.ty in h.types
    ensures var h' := InitFrom(h, r, list, i, err).0;
            r in h.objs && r in h'.objs && h'.objs[r].body.pool == h.objs[r].body.pool
    decreases |list| - i
  {
    hide Sane, ExecInit, Bless, Unfinished;
    UnfinishedThere(h, r);
    assert held + Stowed(err) == held;
    if i < |list| {
      InitStepSane(h, r, list[i], err, held);
      SanePlain(h, held, {});
      SanePools(h, held, {});
      InitStepPool(h, r, list[i], err);
      var (h1, err1) := ExecInit(Bless(h, r, list[i].ty), r, list[i].exec, err);
      if !(err1.Location? && err1.error.Some?) {
        assert held + Stowed(err1) == held;
        InitFromPool(h1, r, list, i + 1, err1, held);
      }
    }
  }

  lemma InitStepPool(h: Heap, r: Ref, m: Method<InitExec>, err: ErrorLocation)
    requires r in h.objs && InitList(h, ErrorT) == [] && Young(h)
    ensures var h' := ExecInit(Bless(h, r, m.ty), r, m.exec, err).0;
            r in h'.objs && h'.objs[r].body.pool == h.objs[r].body.pool
  {
    hide Throw;
    if m.exec.ThrowingInit? {
      var h0 := Bless(h, r, m.ty);
      assert InitList(h0, ErrorT) == [] && Young(h0);
      if err.Location? {
        ThrowOne(h0, err, m.exec.code, None);
      } else {
        ThrowIgnored(h0, m.exec.code, None);
      }
    }
  }

  // ---------------------------------------------------------------------------------------
  // Clearing the new object first
  // ---------------------------------------------------------------------------------------

  /** An object just created: clearing it changes nothing but its class. */
  ghost predicate Newborn(o: Obj) {
    Bare(o.body) && Blank(o.body.data)
  }

  lemma ExecClearNewborn(h: Heap, r: Ref, exec: ClearExec)
    requires r in h.objs && Newborn(h.objs[r])
    ensures ExecClear(h, r, exec, true) == h
  {
    var b := h.objs[r].body;
    var d := b.data;
    assert d.(priv := false) == NO_DATA;
    assert SetBody(h, r, b) == h by { assert h.objs[r := h.objs[r]] == h.objs; }
    hide SetBody, Release;
    ReleaseNone(h, r, WeakSlot);
    ReleaseNone(h, r, CauseSlot);
    ReleaseNone(h, r, CSlot);
    match exec
    case ObjectClear =>
    case ErrorClear => assert b.(data := d.(code := 0, description := None)) == b;
    case AlphaClear => assert b.(data := d.(a := 0)) == b;
    case DeltaClear => assert b.(data := d.(b := None)) == b && b.(data := d.(d := None)) == b;
    case UserClear =>
  }

  lemma {:induction false} ClearFromNewborn(h: Heap, r: Ref, chain: seq<Method<ClearExec>>, i: nat)
    requires r in h.objs && Newborn(h.objs[r]) && i <= |chain|
    ensures var h' := ClearFrom(h, r, chain, i, true);
            && r in h'.objs && h' == Bless(h, r, h'.objs[r].body.ty)
    decreases i
  {
    hide ExecClear, Bless, Newborn;
    if i > 0 {
      var h1 := Bless(h, r, chain[i - 1].ty);
      BlessNewborn(h, r, chain[i - 1].ty);
      ExecClearNewborn(h1, r, chain[i - 1].exec);
      ClearFromNewborn(h1, r, chain, i - 1);
      BlessTwice(h, r, chain[i - 1].ty, ClearFrom(h1, r, chain, i - 1, true).objs[r].body.ty);
    } else {
      BlessTwice(h, r, h.objs[r].body.ty, h.objs[r].body.ty);
    }
  }

  lemma BlessNewborn(h: Heap, r: Ref, ty: TypeId)
    requires r in h.objs && Newborn(h.objs[r])
    ensures Newborn(Bless(h, r, ty).objs[r])
  {}

  lemma BlessTwice(h: Heap, r: Ref, s: TypeId, t: TypeId)
    requires r in h.objs
    ensures Bless(Bless(h, r, s), r, t) == Bless(h, r, t)
    ensures Bless(h, r, h.objs[r].body.ty) == h
  {}

  lemma ClearNewborn(h: Heap, r: Ref)
    requires r in h.objs && Newborn(h.objs[r])
    ensures ClearObject(h, r, true) == h
  {
    var ty := h.objs[r].body.ty;
    var chain := ClearList(h, ty);
    if chain != [] {
      hide ClearFrom, Bless;
      ClearFromNewborn(h, r, chain, |chain|);
      BlessTwice(h, r, ClearFrom(h, r, chain, |chain|, true).objs[r].body.ty, ty);
    }
  }

  // ---------------------------------------------------------------------------------------
  // A copy in the making
  // ---------------------------------------------------------------------------------------

  /** An object, with one reference more if `yes`. */
  function Lent(o: Obj, yes: bool): Obj {
    if yes then o.(refcount := o.refcount + 1) else o
  }

  /** The new object and its source before the assign methods run. */
  ghost predicate Ready(h: Heap, to: Ref, from: Ref) {
    && to != from && to in h.objs && from in h.objs && InitList(h, ErrorT) == [] && Young(h)
    && Newborn(h.objs[to]) && h.objs[to].refcount == 1 && !h.objs[to].body.deleted && h.objs[from].refcount > 0
    && (h.objs[from].body.c.Some? ==>
          var x := h.objs[from].body.c.value; x in h.objs && x != to && h.objs[x].refcount > 0)
  }

  /** What the new object may have become: its class, members and `c` slot are open. */
  ghost predicate InMaking(o: Obj, p: Obj, c: Option<Ref>, n: nat) {
    && p.refcount == n && p.target == o.target
    && p.body == o.body.(ty := p.body.ty, c := p.body.c, data := p.body.data)
    && (p.body.c == None || p.body.c == c)
  }

  /** From `h` to `g`, only the new object has changed, the class of the source, and the count of the
      object in the new object's `c` slot. */
  ghost predicate Copying(h: Heap, g: Heap, to: Ref, from: Ref, n: nat)
    requires to in h.objs && from in h.objs
  {
    && g.types == h.types && Young(g)
    && to in g.objs && InMaking(h.objs[to], g.objs[to], h.objs[from].body.c, n)
    && from in g.objs
    && g.objs[from] == Lent(h.objs[from].(body := h.objs[from].body.(ty := g.objs[from].body.ty)),
                            g.objs[to].body.c == Some(from))
    && (forall x :: x in h.objs && x != to && x != from ==>
          x in g.objs && g.objs[x] == Lent(h.objs[x], g.objs[to].body.c == Some(x)))
  }

  lemma CopyingStarts(h: Heap, to: Ref, from: Ref)
    requires Ready(h, to, from)
    ensures Copying(h, h, to, from, 1)
  {}

  /** Writing members or class of the new object. */
  lemma CopyingWrite(h: Heap, g: Heap, to: Ref, from: Ref, n: nat, b: Body)
    requires Ready(h, to, from) && Copying(h, g, to, from, n)
    requires b == g.objs[to].body.(ty := b.ty, data := b.data)
    ensures Copying(h, SetBody(g, to, b), to, from, n)
  {}

  /** Blessing both objects. */
  lemma CopyingBless(h: Heap, g: Heap, to: Ref, from: Ref, n: nat, ty: TypeId)
    requires Ready(h, to, from) && Copying(h, g, to, from, n)
    ensures Copying(h, Bless(Bless(g, to, ty), from, ty), to, from, n)
  {}

  /** The object in the `c` slot of the new object has two references at least: giving one back destroys
      nothing. */
  lemma CopyingUnref(h: Heap, g: Heap, to: Ref, from: Ref, n: nat)
    requires Ready(h, to, from) && Copying(h, g, to, from, n) && g.objs[to].body.c.Some?
    ensures var x := g.objs[to].body.c.value;
            && x in g.objs && x in h.objs && x != to && g.objs[x].refcount == h.objs[x].refcount + 1
            && Unref(g, x) == SetCount(g, x, h.objs[x].refcount)
  {}

  /** The `c` slot of the new object is emptied, and the object it referred to has a reference less. */
  lemma CopyingLower(h: Heap, g: Heap, to: Ref, from: Ref, n: nat, x: Ref)
    requires Ready(h, to, from) && Copying(h, g, to, from, n) && g.objs[to].body.c == Some(x)
    requires x in h.objs && x in g.objs
    ensures Copying(h, SetSlot(SetCount(g, x, h.objs[x].refcount), to, CSlot, None), to, from, n)
  {}

  /** The `c` slot of the new object is filled, and the object it refers to has a reference more. */
  lemma CopyingLend(h: Heap, g: Heap, to: Ref, from: Ref, x: Ref)
    requires Ready(h, to, from) && Copying(h, g, to, from, 1) && g.objs[to].body.c == None
    requires h.objs[from].body.c == Some(x) && Granted(g, x)
    ensures Copying(h, SetSlot(AddRef(g, x), to, CSlot, Some(x)), to, from, 1)
  {}

  /** Releasing the `c` slot of the new object. */
  lemma {:induction false} CopyingRelease(h: Heap, g: Heap, to: Ref, from: Ref, n: nat)
    requires Ready(h, to, from) && Copying(h, g, to, from, n)
    ensures var g' := Release(g, to, CSlot);
            && Copying(h, g', to, from, n) && g' == g.(objs := g'.objs)
            && g'.objs[to].body == g.objs[to].body.(c := None)
  {
    hide Unref, Copying, Ready;
    assert to in g.objs by { CopyingThere(h, g, to, from, n); }
    var b := g.objs[to].body;
    if b.c.Some? {
      CopyingUnref(h, g, to, from, n);
      CopyingLower(h, g, to, from, n, b.c.value);
    } else {
      assert b.(c := None) == b;
    }
  }

  lemma CopyingThere(h: Heap, g: Heap, to: Ref, from: Ref, n: nat)
    requires Ready(h, to, from) && Copying(h, g, to, from, n)
    ensures to in g.objs && from in g.objs
  {}

  /** `Delta_set_c` with the source's object. */
  lemma {:induction false} CopyingSetC(h: Heap, g: Heap, to: Ref, from: Ref)
    requires Ready(h, to, from) && Copying(h, g, to, from, 1)
    ensures var g' := SetC(g, to, h.objs[from].body.c);
            && Copying(h, g', to, from, 1) && g'.objs[to].body == g.objs[to].body.(c := h.objs[from].body.c)
            && g'.objs[from].body == g.objs[from].body && g'.objs.Keys == g.objs.Keys
  {
    var c := h.objs[from].body.c;
    if g.objs[to].body.c.Some? {
      CopyingSwap(h, g, to, from, c.value);
    } else if c.Some? {
      CopyingLend(h, g, to, from, c.value);
      hide Copying, Ready, Unref;
      assert SetC(g, to, c) == SetSlot(AddRef(g, c.value), to, CSlot, c);
    } else {
      hide Unref;
      assert Put(g.objs[to].body, CSlot, None) == g.objs[to].body;
      assert g.objs[to := g.objs[to]] == g.objs;
      assert SetC(g, to, c) == g;
    }
  }

  /** Storing the object that the slot holds already: one reference is given back and taken again. */
  lemma {:induction false} CopyingSwap(h: Heap, g: Heap, to: Ref, from: Ref, x: Ref)
    requires Ready(h, to, from) && Copying(h, g, to, from, 1) && g.objs[to].body.c == Some(x)
    ensures h.objs[from].body.c == Some(x)
    ensures var g' := SetC(g, to, Some(x));
            && Copying(h, g', to, from, 1) && g'.objs[to].body == g.objs[to].body
            && g'.objs[from].body == g.objs[from].body && g'.objs.Keys == g.objs.Keys
  {
    hide Positive;
    assert to in g.objs by { CopyingThere(h, g, to, from, 1); }
    CopyingUnref(h, g, to, from, 1);
    var g1 := SetCount(g, x, h.objs[x].refcount);
    CopyingLower(h, g, to, from, 1, x);
    CopyingLend(h, SetSlot(g1, to, CSlot, None), to, from, x);
    StoreEitherWay(g1, to, x);
    assert Granted(g1, x);
    hide Unref, Copying, Ready;
    assert SetC(g, to, Some(x)) == SetSlot(AddRef(g1, x), to, CSlot, Some(x));
    assert Put(g.objs[to].body, CSlot, Some(x)) == g.objs[to].body;
  }

  /** The members that Alpha's assign method copies are the source's. */
  ghost predicate AlphaCopied(h: Heap, g: Heap, to: Ref, from: Ref)
    requires from in h.objs
  {
    to in g.objs && g.objs[to].body.data.a == h.objs[from].body.data.a
  }

  /** The members that Delta's assign method copies are the source's. */
  ghost predicate DeltaCopied(h: Heap, g: Heap, to: Ref, from: Ref)
    requires from in h.objs
  {
    to in g.objs
    && var b, s := g.objs[to].body, h.objs[from].body;
       b.c == s.c && SameText(b.data.b, s.data.b) && SameText(b.data.d, s.data.d)
  }

  lemma AssignDeltaCopies(h: Heap, g: Heap, to: Ref, from: Ref)
    requires Ready(h, to, from) && Copying(h, g, to, from, 1)
    ensures var g' := AssignDelta(g, to, from);
            && Copying(h, g', to, from, 1) && DeltaCopied(h, g', to, from)
            && g'.objs.Keys == g.objs.Keys && g'.objs[to].body.data.a == g.objs[to].body.data.a
  {
    hide SetC;
    var g1 := SetB(g, to, g.objs[from].body.data.b);
    CopyingWrite(h, g, to, from, 1, g1.objs[to].body);
    CopyingSetC(h, g1, to, from);
    var g2 := SetC(g1, to, h.objs[from].body.c);
    CopyingWrite(h, g2, to, from, 1, AssignDelta(g, to, from).objs[to].body);
  }

  lemma {:induction false} CopyingThrow(h: Heap, g: Heap, to: Ref, from: Ref, err: ErrorLocation, code: int)
    requires Ready(h, to, from) && Copying(h, g, to, from, 1)
    ensures var (g', err') := Throw(g, err, code, None);
            && Copying(h, g', to, from, 1) && OnlyError(g, g', err') && to in g.objs && to in g'.objs
            && g'.objs[to] == g.objs[to]
            && (err.Ignored? ==> err' == err && g' == g) && (err.Location? ==> err'.Location? && err'.error.Some?)
  {
    hide Throw;
    if err.Location? {
      ThrowOne(g, err, code, None);
    } else {
      ThrowIgnored(g, code, None);
    }
  }

  /** One turn of the loop in `y_assign`. */
  lemma CopyStep(h: Heap, g: Heap, to: Ref, from: Ref, m: Method<AssignExec>, err: ErrorLocation)
    requires Ready(h, to, from) && Copying(h, g, to, from, 1) && Stowed(err) == multiset{}
    requires AssignOwner(m) && m.ty in h.types
    ensures var g1 := Bless(Bless(g, to, m.ty), from, m.ty);
            to in g1.objs && from in g1.objs &&
            var (g', ok, err') := ExecAssign(g1, to, from, m.exec, err);
            && Copying(h, g', to, from, 1) && OnlyError(g, g', err')
            && (Willing([m], err) <==> ok && !(err'.Location? && err'.error.Some?))
            && (Willing([m], err) ==> err' == err)
            && (AlphaCopied(h, g, to, from) || m.exec.AlphaAssign? ==> AlphaCopied(h, g', to, from))
            && (DeltaCopied(h, g, to, from) || m.exec.DeltaAssign? ==> DeltaCopied(h, g', to, from))
  {
    hide ExecAssign, Copying, Willing, AssignOwner, Ready;
    assert to in h.objs && from in h.objs by { ReadyThere(h, to, from); }
    CopyingParts(h, g, to, from);
    CopyingBless(h, g, to, from, 1, m.ty);
    CopyExec(h, Bless(Bless(g, to, m.ty), from, m.ty), to, from, m, err);
  }

  lemma ReadyThere(h: Heap, to: Ref, from: Ref)
    requires Ready(h, to, from)
    ensures to in h.objs && from in h.objs
  {}

  /** One assign method, with both objects blessed to the class that defined it. */
  lemma CopyExec(h: Heap, g: Heap, to: Ref, from: Ref, m: Method<AssignExec>, err: ErrorLocation)
    requires Ready(h, to, from) && Copying(h, g, to, from, 1) && Stowed(err) == multiset{}
    requires AssignOwner(m) && m.ty in h.types && to in g.objs && from in g.objs
    requires g.objs[to].body.ty == m.ty && g.objs[from].body.ty == m.ty
    ensures var (g', ok, err') := ExecAssign(g, to, from, m.exec, err);
            && Copying(h, g', to, from, 1) && OnlyError(g, g', err')
            && (Willing([m], err) <==> ok && !(err'.Location? && err'.error.Some?))
            && (Willing([m], err) ==> err' == err)
            && (AlphaCopied(h, g, to, from) || m.exec.AlphaAssign? ==> AlphaCopied(h, g', to, from))
            && (DeltaCopied(h, g, to, from) || m.exec.DeltaAssign? ==> DeltaCopied(h, g', to, from))
  {
    hide AssignDelta, Throw, Copying;
    CopyingParts(h, g, to, from);
    StowedNone(err);
    assert m in [m];
    match m.exec
    case AlphaAssign =>
      CopyingWrite(h, g, to, from, 1, g.objs[to].body.(data := g.objs[to].body.data.(a := g.objs[from].body.data.a)));
    case DeltaAssign => AssignDeltaCopies(h, g, to, from);
    case UserAssign =>
    case RefusingAssign =>
    case ThrowingAssign(code) => CopyingThrow(h, g, to, from, err, code);
  }

  lemma CopyingParts(h: Heap, g: Heap, to: Ref, from: Ref)
    requires to in h.objs && from in h.objs && Copying(h, g, to, from, 1)
    ensures to in g.objs && from in g.objs && g.types == h.types
    ensures g.objs[from].body == h.objs[from].body.(ty := g.objs[from].body.ty)
  {}

  /** The loop in `y_assign`, as `y_copy` runs it: it stops exactly at a method that refuses or reports an
      error, and what the methods of Alpha and Delta were to copy is copied. */
  lemma {:induction false} AssignFromCopies(h: Heap, g: Heap, to: Ref, from: Ref, list: seq<Method<AssignExec>>, i: nat,
                                            err: ErrorLocation)
    requires Ready(h, to, from) && Copying(h, g, to, from, 1) && Stowed(err) == multiset{} && i <= |list|
    requires forall m :: m in list ==> AssignOwner(m) && m.ty in h.types
    ensures var (g', ok, err') := AssignFrom(g, to, from, list, i, err);
            && Copying(h, g', to, from, 1) && OnlyError(g, g', err') && (Willing(list[i..], err) <==> ok)
            && (ok ==> err' == err)
            && (ok && (AlphaCopied(h, g, to, from) || Method(AlphaT, AlphaAssign) in list[i..]) ==>
                  AlphaCopied(h, g', to, from))
            && (ok && (DeltaCopied(h, g, to, from) || Method(DeltaT, DeltaAssign) in list[i..]) ==>
                  DeltaCopied(h, g', to, from))
    decreases |list| - i
  {
    hide ExecAssign, Copying, Bless, AlphaCopied, DeltaCopied;
    CopyingParts(h, g, to, from);
    if i < |list| {
      var m := list[i];
      assert list[i..] == [m] + list[i + 1..];
      CopyStep(h, g, to, from, m, err);
      var g1 := Bless(Bless(g, to, m.ty), from, m.ty);
      var (g2, ok, err1) := ExecAssign(g1, to, from, m.exec, err);
      if Willing([m], err) {
        StowedNone(err);
        assert OnlyError(g, g2, err) ==> forall x :: x in g2.objs ==> x in g.objs;
        AssignFromCopies(h, g2, to, from, list, i + 1, err1);
      }
    }
  }

  // ---------------------------------------------------------------------------------------
  // Letting go of the copy
  // ---------------------------------------------------------------------------------------

  lemma CopyingExecClear(h: Heap, g: Heap, to: Ref, from: Ref, exec: ClearExec)
    requires Ready(h, to, from) && Copying(h, g, to, from, 0)
    ensures var g' := ExecClear(g, to, exec, true);
            Copying(h, g', to, from, 0) && g' == g.(objs := g'.objs) && g'.objs[from] == g'.objs[from]
  {
    hide Copying, Release;
    assert to in g.objs && g.objs[to].body.weakRef == None && g.objs[to].body.cause == None by {
      CopyingBare(h, g, to, from);
    }
    var b := g.objs[to].body;
    match exec
    case ObjectClear => ReleaseNone(g, to, WeakSlot);
    case ErrorClear =>
      var b' := b.(data := b.data.(code := 0, description := None));
      CopyingWrite(h, g, to, from, 0, b');
      ReleaseNone(SetBody(g, to, b'), to, CauseSlot);
    case AlphaClear => CopyingWrite(h, g, to, from, 0, b.(data := b.data.(a := 0)));
    case DeltaClear =>
      if Casts(g, to, DeltaT) {
        var g1 := SetData(g, to, b.data.(b := None));
        CopyingWrite(h, g, to, from, 0, g1.objs[to].body);
        CopyingRelease(h, g1, to, from, 0);
        var g2 := Release(g1, to, CSlot);
        CopyingWrite(h, g2, to, from, 0, g2.objs[to].body.(data := g2.objs[to].body.data.(d := None)));
      }
    case UserClear =>
  }

  lemma CopyingBare(h: Heap, g: Heap, to: Ref, from: Ref)
    requires Ready(h, to, from) && Copying(h, g, to, from, 0)
    ensures to in g.objs && g.objs[to].body.weakRef == None && g.objs[to].body.cause == None && g.objs[to].refcount == 0
    ensures from in g.objs && !g.objs[to].body.deleted && g.objs[to].body.pool == h.objs[to].body.pool
  {}

  lemma {:induction false} CopyingClearFrom(h: Heap, g: Heap, to: Ref, from: Ref, chain: seq<Method<ClearExec>>, i: nat)
    requires Ready(h, to, from) && Copying(h, g, to, from, 0) && i <= |chain| && to in g.objs
    ensures var g' := ClearFrom(g, to, chain, i, true);
            Copying(h, g', to, from, 0) && g' == g.(objs := g'.objs)
    decreases i
  {
    hide ExecClear, Copying, Bless, Ready, SetBody;
    if i > 0 {
      var g0 := Bless(g, to, chain[i - 1].ty);
      CopyingWrite(h, g, to, from, 0, g.objs[to].body.(ty := chain[i - 1].ty)) by { CopyingBare(h, g, to, from); }
      BlessIsWrite(g, to, chain[i - 1].ty);
      CopyingExecClear(h, g0, to, from, chain[i - 1].exec);
      CopyingClearFrom(h, ExecClear(g0, to, chain[i - 1].exec, true), to, from, chain, i - 1);
    }
  }

  lemma BlessIsWrite(g: Heap, r: Ref, ty: TypeId)
    requires r in g.objs
    ensures Bless(g, r, ty) == SetBody(g, r, g.objs[r].body.(ty := ty))
    ensures Bless(g, r, ty) == g.(objs := Bless(g, r, ty).objs)
  {}

  lemma CopyingClear(h: Heap, g: Heap, to: Ref, from: Ref)
    requires Ready(h, to, from) && Copying(h, g, to, from, 0) && to in g.objs
    ensures var g' := ClearObject(g, to, true);
            Copying(h, g', to, from, 0) && g' == g.(objs := g'.objs)
  {
    hide ClearFrom, Copying, SetBody;
    var ty := g.objs[to].body.ty;
    var chain := ClearList(g, ty);
    if chain != [] {
      CopyingClearFrom(h, g, to, from, chain, |chain|);
      var g1 := ClearFrom(g, to, chain, |chain|, true);
      CopyingBare(h, g1, to, from);
      CopyingWrite(h, g1, to, from, 0, g1.objs[to].body.(ty := ty));
      BlessIsWrite(g1, to, ty);
      var b := g1.objs[to].body.(ty := ty);
      assert SetBody(g1, to, b) == g1.(objs := SetBody(g1, to, b).objs) by {
        SetBodyObjs(g1, to, g1.objs[to].body.(ty := ty));
      }
    }
  }

  lemma SetBodyObjs(g: Heap, r: Ref, b: Body)
    requires r in g.objs
    ensures SetBody(g, r, b) == g.(objs := SetBody(g, r, b).objs)
  {}

  /** The heap after the copy is let go: every object that there was before is as it was, and the copy's
      pool is the one given back last. */
  ghost predicate Undone(h: Heap, g: Heap, to: Ref, g': Heap)
    requires to in h.objs
  {
    && g'.objs.Keys == g.objs.Keys && g'.types == g.types
    && (forall x :: x in h.objs && x != to ==> x in g'.objs && g'.objs[x] == h.objs[x])
    && to in g'.objs && g'.objs[to].body.deleted && g'.objs[to].refcount == 0
    && g'.pools == Recycle(g.pools, h.objs[to].body.pool)
  }

  lemma CopyingDrop(h: Heap, g: Heap, to: Ref, from: Ref)
    requires Ready(h, to, from) && Copying(h, g, to, from, 1) && to in g.objs
    ensures Copying(h, SetCount(g, to, 0), to, from, 0)
    ensures Unref(g, to) == Destroy(SetCount(g, to, 0), to)
  {}

  lemma CopyingCount(h: Heap, g: Heap, to: Ref, from: Ref)
    requires Ready(h, to, from) && Copying(h, g, to, from, 1)
    ensures to in g.objs && from in g.objs && g.objs[to].refcount == 1
    ensures !g.objs[to].body.deleted && g.objs[to].body.pool == h.objs[to].body.pool
  {}

  lemma CleanupOf(g: Heap, r: Ref, held: multiset<Ref>)
    requires Sane(g, held, {}) && Alive(g, r)
    ensures var p := g.objs[r].body.pool; p in g.cleanups ==> g.cleanups[p] == r
  {}

  lemma DroppedSound(g: Heap, to: Ref, held: multiset<Ref>)
    requires Sane(g, held, {}) && to in g.objs && g.objs[to].refcount == 1
    ensures var g0 := SetCount(g, to, 0);
            PoolsSound(g0) && Sound(g0.types) && Covered(g0, g0.objs[to].body)
  {
    hide PoolsSound, Sound, Covered, Sane;
    SaneParts(g, held, {});
    BalancedParts(g, held, {}, {});
    SettledAt(g, to, held, {});
    PoolsSoundKept(g, SetCount(g, to, 0));
    CoveredKept(g, SetCount(g, to, 0), g.objs[to].body);
  }

  /** The copy once its clear chain has run: whatever it shared with the source is given back. */
  lemma CopyCleared(h: Heap, g: Heap, to: Ref, from: Ref, held: multiset<Ref>)
    requires Ready(h, to, from) && Copying(h, g, to, from, 1) && Sane(g, held, {}) && to in g.objs && from in g.objs
    requires g.objs[from].body.ty == h.objs[from].body.ty
    ensures var g1 := ClearObject(SetCount(g, to, 0), to, true);
            && g1 == g.(objs := g1.objs) && g1.objs.Keys == g.objs.Keys
            && to in g1.objs && !g1.objs[to].body.deleted && g1.objs[to].body.pool == h.objs[to].body.pool
            && g1.objs[to].refcount == 0
            && (forall x :: x in h.objs && x != to ==> x in g1.objs && g1.objs[x] == h.objs[x])
  {
    hide ClearObject, Sane, PoolsSound, Sound, Copying, Covered, Frame, Ready;
    CopyingCount(h, g, to, from);
    var g0 := SetCount(g, to, 0);
    CopyingDrop(h, g, to, from);
    CopyingClear(h, g0, to, from);
    var g1 := ClearObject(g0, to, true);
    DroppedSound(g, to, held);
    ClearObjectReleases(g0, to);
    assert Get(g1.objs[to].body, CSlot) == None;
    CopyingBare(h, g1, to, from);
    ClearObjectFrame(g0, to, true);
    FrameAt(g0, g1, {to}, from);
    assert h.objs[from].refcount > 0 by { ReadySource(h, to, from); }
    CopyingCounted(h, g1, to, from);
    CopyingBack(h, g1, to, from);
  }

  lemma ReadySource(h: Heap, to: Ref, from: Ref)
    requires Ready(h, to, from)
    ensures to in h.objs && from in h.objs && to != from && h.objs[from].refcount > 0
  {}

  lemma CopyingCounted(h: Heap, g: Heap, to: Ref, from: Ref)
    requires Ready(h, to, from) && Copying(h, g, to, from, 0)
    ensures from in g.objs && g.objs[from].refcount > 0
  {}

  lemma CopyingBack(h: Heap, g: Heap, to: Ref, from: Ref)
    requires Ready(h, to, from) && Copying(h, g, to, from, 0)
    requires to in g.objs && from in g.objs && g.objs[to].body.c == None && g.objs[from].body.ty == h.objs[from].body.ty
    ensures forall x :: x in h.objs && x != to ==> x in g.objs && g.objs[x] == h.objs[x]
  {}

  /** Unreffing a copy, finished or not, that nobody else refers to. */
  lemma UnrefCopy(h: Heap, g: Heap, to: Ref, from: Ref, held: multiset<Ref>)
    requires Ready(h, to, from) && Copying(h, g, to, from, 1) && Sane(g, held, {}) && to in g.objs && from in g.objs
    requires g.objs[from].body.ty == h.objs[from].body.ty
    ensures Undone(h, g, to, Unref(g, to))
  {
    hide Destroy, ClearObject, Sane, Copying, Unref, FreePool, Recycle, Ready;
    ReadySource(h, to, from);
    CopyingCount(h, g, to, from);
    CopyingDrop(h, g, to, from);
    CopyCleared(h, g, to, from, held);
    CleanupOf(g, to, held);
    CopyDestroyed(g, to);
  }

  /** The last steps of destroying the copy. */
  lemma {:induction false} CopyDestroyed(g: Heap, to: Ref)
    requires to in g.objs
    requires var g1 := ClearObject(SetCount(g, to, 0), to, true);
             && g1 == g.(objs := g1.objs) && !g.objs[to].body.deleted && g1.objs[to].body.pool == g.objs[to].body.pool
    requires var p := g.objs[to].body.pool; p in g.cleanups ==> g.cleanups[p] == to
    ensures var g1 := ClearObject(SetCount(g, to, 0), to, true);
            var g' := Destroy(SetCount(g, to, 0), to); var b := g1.objs[to].body;
            && g'.objs == g1.objs[to := g1.objs[to].(body := b.(deleted := true, teardowns := b.teardowns + 1))]
            && g'.types == g.types && g'.pools == Recycle(g.pools, g.objs[to].body.pool)
  {
    hide ClearObject, FreePool, Recycle, Destroy, SetCount, Positive, SetBody;
    var g0 := SetCount(g, to, 0);
    assert !g0.objs[to].body.deleted && g0.types == g.types by { CountIsSet(g, to, 0); }
    var g1 := ClearObject(g0, to, true);
    ErrorBuried(g1, to);
    DestroyShape(g0, to);
    BodyIsSet(g1, to, g1.objs[to].body.(deleted := true, teardowns := g1.objs[to].body.teardowns + 1));
  }

  lemma BodyIsSet(h: Heap, r: Ref, b: Body)
    requires r in h.objs
    ensures SetBody(h, r, b) == h.(objs := h.objs[r := h.objs[r].(body := b)])
  {}

  lemma CountIsSet(h: Heap, r: Ref, n: nat)
    requires r in h.objs
    ensures SetCount(h, r, n).objs[r].body == h.objs[r].body && SetCount(h, r, n).types == h.types
  {}

  lemma {:induction false} DestroyShape(h: Heap, r: Ref)
    requires r in h.objs && !h.objs[r].body.deleted
    ensures var h1 := ClearObject(h, r, true);
            var b := h1.objs[r].body;
            Destroy(h, r) == FreePool(SetBody(h1, r, b.(deleted := true, teardowns := b.teardowns + 1)), b.pool)
  {
    hide ClearObject, FreePool;
    TearDownShape(h, r);
  }

  // ---------------------------------------------------------------------------------------
  // y_copy as a whole
  // ---------------------------------------------------------------------------------------

  lemma ListOwners(types: Types, ty: TypeId)
    requires Sound(types) && ty in types
    ensures forall m :: m in types[ty].assign ==> AssignOwner(m) && m.ty in types
    ensures IsA(types, ty, AlphaT) ==> Method(AlphaT, AlphaAssign) in types[ty].assign
    ensures IsA(types, ty, DeltaT) ==> Method(DeltaT, DeltaAssign) in types[ty].assign
  {}

  lemma {:induction false} CopyingRestored(h: Heap, g: Heap, to: Ref, from: Ref, ty: TypeId)
    requires Ready(h, to, from) && Copying(h, g, to, from, 1) && h.objs[from].body.ty == ty
    ensures to in g.objs && from in g.objs
    ensures var g' := Bless(Bless(g, to, ty), from, ty);
            && Copying(h, g', to, from, 1) && g'.objs.Keys == g.objs.Keys
            && g'.objs[to].body == g.objs[to].body.(ty := ty) && g'.objs[from].body.ty == ty
  {
    hide Copying, Ready;
    ReadySource(h, to, from);
    CopyingParts(h, g, to, from);
    CopyingBless(h, g, to, from, 1, ty);
  }

  /** `y_assign` from an object to a new one of the same class. */
  lemma AssignOutcome(h: Heap, to: Ref, from: Ref, err: ErrorLocation)
    requires Ready(h, to, from) && Sound(h.types) && Stowed(err) == multiset{}
    requires h.objs[to].body.ty == h.objs[from].body.ty && h.objs[to].body.ty in h.types
    ensures var ty := h.objs[to].body.ty;
            var (g, ok, err') := Assign(h, to, from, err);
            && Copying(h, g, to, from, 1) && OnlyError(h, g, err')
            && to in g.objs && from in g.objs && g.objs[to].body.ty == ty && g.objs[from].body.ty == ty
            && (ok <==> AssignList(h, ty) != [] && Willing(AssignList(h, ty), err)) && (ok ==> err' == err)
            && (ok && IsA(h.types, ty, AlphaT) ==> AlphaCopied(h, g, to, from))
            && (ok && IsA(h.types, ty, DeltaT) ==> DeltaCopied(h, g, to, from))
  {
    hide Copying, ClearObject, AssignFrom, Sound, Bless, Willing;
    var ty := h.objs[to].body.ty;
    var list := AssignList(h, ty);
    CopyingStarts(h, to, from);
    if list != [] {
      ClearNewborn(h, to);
      ListOwners(h.types, ty);
      AssignFromCopies(h, h, to, from, list, 0, err);
      assert list[0..] == list;
      var (g, ok, err1) := AssignFrom(h, to, from, list, 0, err);
      CopyingRestored(h, g, to, from, ty);
      hide IsA;
    }
  }

  /** Nothing in the lists of class `ty` keeps `y_copy` from succeeding. */
  predicate Copyable(h: Heap, ty: TypeId, err: ErrorLocation) {
    Quiet(InitList(h, ty), err) && AssignList(h, ty) != [] && Willing(AssignList(h, ty), err)
  }

  /** Object `r` of `h'` is a copy of object `from` of `h`, and beyond that only the object that they now
      share has changed: it has one reference more. */
  ghost predicate CopyOf(h: Heap, from: Ref, h': Heap, r: Ref)
    requires from in h.objs
  {
    && r !in h.objs && h'.objs.Keys == h.objs.Keys + {r} && h'.types == h.types
    && h'.objs[r].refcount == 1 && !h'.objs[r].body.deleted
    && var source, copy := h.objs[from].body, h'.objs[r].body;
       && copy.ty == source.ty && copy.weakRef == None && copy.cause == None
       && (copy.c == None || copy.c == source.c)
       && (IsA(h.types, source.ty, AlphaT) ==> copy.data.a == source.data.a)
       && (IsA(h.types, source.ty, DeltaT) ==>
             copy.c == source.c && SameText(copy.data.b, source.data.b) && SameText(copy.data.d, source.data.d))
       && (forall x :: x in h.objs ==> h'.objs[x] == Lent(h.objs[x], copy.c == Some(x)))
  }

  /** A failed copy leaves every object as it was; the only live object that is new is the error. */
  ghost predicate Neutral(h: Heap, h': Heap, err: ErrorLocation) {
    && (forall x :: x in h.objs ==> x in h'.objs && h'.objs[x] == h.objs[x])
    && (forall x :: Alive(h', x) && x !in h.objs ==> err == Location(Some(x)))
  }

  /** The new object of a copy, just created. */
  lemma CreateReady(h: Heap, from: Ref, err: ErrorLocation, held: multiset<Ref>)
    requires Sane(h, held, {}) && from in held && Stowed(err) == multiset{}
    requires from in h.objs && h.objs[from].body.ty in h.types
    requires Create(h, h.objs[from].body.ty, err).1.Some?
    ensures var h1 := Create(h, h.objs[from].body.ty, err).0;
            && h.next !in h.objs && h.next in h1.objs && h1.types == h.types
            && (forall x :: x in h.objs ==> x in h1.objs && h1.objs[x] == h.objs[x])
            && h1.objs.Keys == h.objs.Keys + {h.next} && h1.objs[h.next].body.pool == NextPool(h.pools)
            && h1.objs[h.next].body.ty == h.objs[from].body.ty
            && Sane(h1, held + multiset{h.next}, {}) && Ready(h1, h.next, from)
  {
    hide *;
    var ty := h.objs[from].body.ty;
    CreatedParts(h, ty, err, held);
    CreateBare(h, ty, err, held);
    CreatedReady(h, Create(h, ty, err).0, from, held);
  }

  lemma CreatedParts(h: Heap, ty: TypeId, err: ErrorLocation, held: multiset<Ref>)
    requires Sane(h, held, {}) && Stowed(err) == multiset{} && ty in h.types && Create(h, ty, err).1.Some?
    ensures var h1 := Create(h, ty, err).0;
            && h.next !in h.objs && h.next in h1.objs && h1.types == h.types
            && (forall x :: x in h.objs ==> x in h1.objs && h1.objs[x] == h.objs[x])
            && h1.objs.Keys == h.objs.Keys + {h.next} && h1.objs[h.next].body.pool == NextPool(h.pools)
            && Sane(h1, held + multiset{h.next}, {})
  {
    hide Sane, Create, NextPool, Quiet, InitList, Idle, Stowed;
    var (h1, to, err1) := Create(h, ty, err);
    CreateSane(h, ty, err, held);
    CreateOutcome(h, ty, err, held);
    SaneYoung(h, held, {});
    assert held + One(to) + Stowed(err1) == held + multiset{h.next};
  }

  lemma CreatedReady(h: Heap, h1: Heap, from: Ref, held: multiset<Ref>)
    requires Sane(h, held, {}) && from in held && from in h.objs && h.next !in h.objs
    requires Sane(h1, held + multiset{h.next}, {}) && h.next in h1.objs
    requires forall x :: x in h.objs ==> x in h1.objs && h1.objs[x] == h.objs[x]
    requires Bare(h1.objs[h.next].body) && Blank(h1.objs[h.next].body.data) && h1.objs[h.next].refcount == 1
    ensures Ready(h1, h.next, from)
  {
    hide Sane, Covered;
    HeldIsGranted(h, from, held, {});
    HeldIsGranted(h1, h.next, held + multiset{h.next}, {});
    SanePlain(h1, held + multiset{h.next}, {});
    assert Young(h1) by { SanePools(h1, held + multiset{h.next}, {}); }
    if h.objs[from].body.c.Some? {
      SlotGranted(h, Edge(from, CSlot), held, {});
    }
  }

  /** `y_copy` on any object whatever: it succeeds exactly when the lists of the class allow it; then the
      result is a copy, and otherwise nothing is left behind and the pool is idle again. */
  lemma CopyOutcome(h: Heap, from: Ref, err: ErrorLocation, held: multiset<Ref>)
    requires Sane(h, held, {}) && from in held && from in h.objs && Stowed(err) == multiset{}
    ensures var (h', copy, err') := Copy(h, from, err);
            && (copy.Some? <==> Copyable(h, h.objs[from].body.ty, err))
            && (copy.Some? ==> err' == err && CopyOf(h, from, h', copy.value))
            && (copy.None? ==> Neutral(h, h', err') && NextPool(h.pools) in Idle(h'.pools))
  {
    hide Sane, Create, Assign, Unref, Copying, Ready, Quiet, Willing, Idle, NextPool, Undone, Recycle;
    var ty := h.objs[from].body.ty;
    HeldIsGranted(h, from, held, {});
    CreateOutcome(h, ty, err, held);
    CreateSane(h, ty, err, held);
    SaneYoung(h, held, {});
    var (h1, to, err1) := Create(h, ty, err);
    if to.Some? {
      CreateReady(h, from, err, held);
      CopyAssigned(h, h1, from, err, held);
    } else {
      hide AssignList, IsA;
      StowedNone(err1);
    }
  }

  /** `y_copy` once the new object is there. */
  lemma CopyAssigned(h: Heap, h1: Heap, from: Ref, err: ErrorLocation, held: multiset<Ref>)
    requires Sane(h1, held + multiset{h.next}, {}) && Ready(h1, h.next, from) && Stowed(err) == multiset{}
             && from in held
    requires from in h.objs && h.next !in h.objs && h1.types == h.types
    requires h1.objs.Keys == h.objs.Keys + {h.next} && (forall x :: x in h.objs ==> h1.objs[x] == h.objs[x])
    requires h1.objs[h.next].body.ty == h.objs[from].body.ty && h1.objs[h.next].body.ty in h.types
    requires h1.objs[h.next].body.pool == NextPool(h.pools)
    ensures var ty := h.objs[from].body.ty;
            var (g, ok, err') := Assign(h1, h.next, from, err);
            && (ok <==> AssignList(h, ty) != [] && Willing(AssignList(h, ty), err)) && (ok ==> err' == err)
            && (ok ==> CopyOf(h, from, g, h.next))
            && (!ok ==> Neutral(h, Unref(g, h.next), err') && NextPool(h.pools) in Idle(Unref(g, h.next).pools))
  {
    hide Sane, Assign, Unref, Copying, Ready, Willing, Idle, NextPool, Undone, Recycle, OnlyError, AlphaCopied,
         DeltaCopied, IsA;
    var to := h.next;
    ReadySource(h1, to, from);
    assert Sound(h1.types) by {
      SaneParts(h1, held + multiset{to}, {});
      BalancedParts(h1, held + multiset{to}, {}, {});
    }
    AssignOutcome(h1, to, from, err);
    var (g, ok, err2) := Assign(h1, to, from, err);
    StowedNone(err);
    assert held + multiset{to} + Stowed(err) == held + multiset{to};
    AssignSane(h1, to, from, err, held + multiset{to});
    if ok {
      CopyingIsCopy(h, h1, g, from);
    } else {
      UnrefCopy(h1, g, to, from, held + multiset{to} + Stowed(err2));
      UndoneIsNeutral(h, h1, g, err2);
      SaneStack(g, held + multiset{to} + Stowed(err2));
      UndoneIdle(h1, g, to);
    }
  }

  lemma CopyingIsCopy(h: Heap, h1: Heap, g: Heap, from: Ref)
    requires OnlyError(h1, g, Ignored) || OnlyError(h1, g, Location(None))
    requires Ready(h1, h.next, from) && Copying(h1, g, h.next, from, 1)
    requires from in h.objs && h.next !in h.objs && h1.types == h.types
    requires h1.objs.Keys == h.objs.Keys + {h.next} && (forall x :: x in h.objs ==> h1.objs[x] == h.objs[x])
    requires h1.objs[h.next].body.ty == h.objs[from].body.ty
    requires g.objs[h.next].body.ty == h.objs[from].body.ty && g.objs[from].body.ty == h.objs[from].body.ty
    requires IsA(h.types, h.objs[from].body.ty, AlphaT) ==> AlphaCopied(h1, g, h.next, from)
    requires IsA(h.types, h.objs[from].body.ty, DeltaT) ==> DeltaCopied(h1, g, h.next, from)
    ensures CopyOf(h, from, g, h.next)
  {}

  lemma UndoneIsNeutral(h: Heap, h1: Heap, g: Heap, err: ErrorLocation)
    requires h.next in h1.objs && Undone(h1, g, h.next, Unref(g, h.next)) && OnlyError(h1, g, err)
    requires h1.objs.Keys == h.objs.Keys + {h.next} && h.next !in h.objs
             && (forall x :: x in h.objs ==> h1.objs[x] == h.objs[x])
    ensures Neutral(h, Unref(g, h.next), err)
  {}

  lemma UndoneIdle(h1: Heap, g: Heap, to: Ref)
    requires to in h1.objs && Undone(h1, g, to, Unref(g, to)) && |g.pools.stack| <= g.pools.capacity
    ensures h1.objs[to].body.pool in Idle(Unref(g, to).pools)
  {
    hide Unref, Recycle;
    RecycleIdles(g.pools, h1.objs[to].body.pool);
  }

  /** Unreffing a copy brings every object back to what it was before the copy was made, and the copy's
      pool is idle again. */
  lemma CopyThenUnref(h: Heap, from: Ref, err: ErrorLocation, held: multiset<Ref>)
    requires Sane(h, held, {}) && from in held && from in h.objs && Stowed(err) == multiset{}
    requires Copyable(h, h.objs[from].body.ty, err)
    ensures var h' := Unref(Copy(h, from, err).0, h.next);
            && (forall x :: x in h.objs ==> x in h'.objs && h'.objs[x] == h.objs[x])
            && h'.objs.Keys == h.objs.Keys + {h.next} && h'.objs[h.next].body.deleted
            && NextPool(h.pools) in Idle(h'.pools)
  {
    hide Sane, Create, Assign, Unref, Copying, Ready, Quiet, Willing, Idle, NextPool, Undone, Recycle, OnlyError,
         Copyable;
    var ty, to := h.objs[from].body.ty, h.next;
    HeldIsGranted(h, from, held, {});
    CopyableParts(h, ty, err);
    CreateOutcome(h, ty, err, held);
    CreateSane(h, ty, err, held);
    var h1 := Create(h, ty, err).0;
    CreateReady(h, from, err, held);
    ReadySource(h1, to, from);
    assert Sound(h1.types) by {
      SaneParts(h1, held + multiset{to}, {});
      BalancedParts(h1, held + multiset{to}, {}, {});
    }
    AssignOutcome(h1, to, from, err);
    var (g, ok, err2) := Assign(h1, to, from, err);
    StowedNone(err);
    assert held + multiset{to} + Stowed(err) == held + multiset{to};
    AssignSane(h1, to, from, err, held + multiset{to});
    UnrefCopy(h1, g, to, from, held + multiset{to} + Stowed(err2));
    SaneStack(g, held + multiset{to} + Stowed(err2));
    UndoneIdle(h1, g, to);
    assert Copy(h, from, err).0 == g;
    UndoneBack(h, h1, g, err);
  }

  lemma CopyableParts(h: Heap, ty: TypeId, err: ErrorLocation)
    requires Copyable(h, ty, err)
    ensures Quiet(InitList(h, ty), err) && AssignList(h, ty) != [] && Willing(AssignList(h, ty), err)
  {}

  lemma UndoneBack(h: Heap, h1: Heap, g: Heap, err: ErrorLocation)
    requires h.next in h1.objs && Undone(h1, g, h.next, Unref(g, h.next)) && OnlyError(h1, g, err)
    requires Stowed(err) == multiset{}
    requires h1.objs.Keys == h.objs.Keys + {h.next} && h.next !in h.objs
             && (forall x :: x in h.objs ==> h1.objs[x] == h.objs[x])
    ensures var h' := Unref(g, h.next);
            && (forall x :: x in h.objs ==> x in h'.objs && h'.objs[x] == h.objs[x])
            && h'.objs.Keys == h.objs.Keys + {h.next} && h'.objs[h.next].body.deleted
  {}
}
