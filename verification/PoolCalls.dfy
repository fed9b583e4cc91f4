/** Pools and objects stay in step across every call that creates objects, whatever the counts. */
module PoolCalls {
  import opened Options
  import opened Pools
  import opened Classes
  import opened Heaps
  import opened Cascade
  import opened Accounts
  import opened Calls
  import opened ErrorChains

  /** Nothing points at the object. */
  ghost predicate Unpointed(h: Heap, r: Ref) {
    && (forall x, s :: x in h.objs ==> Get(h.objs[x].body, s) != Some(r))
    && (forall x :: x in h.objs ==> h.objs[x].target != Some(r))
    && (forall p :: p in h.cleanups ==> h.cleanups[p] != r)
  }

  /** What creating an object relies on. */
  ghost predicate Tended(h: Heap) {
    PoolsSound(h) && Young(h) && Sound(h.types)
  }

  /** Between the calls of a run everything that they rely on is there. */
  lemma SaneIsTended(h: Heap, held: multiset<Ref>, busy: set<Ref>)
    requires Sane(h, held, busy)
    ensures Tended(h)
  {}

  lemma TendedPlain(h: Heap)
    requires Tended(h)
    ensures InitList(h, ErrorT) == [] && InitList(h, WeakRefT) == [] && ErrorT in h.types && WeakRefT in h.types
  {}

  lemma AllocateTended(h: Heap, ty: TypeId)
    requires Tended(h)
    ensures Tended(Allocate(h, ty)) && Unfinished(Allocate(h, ty), h.next)
  {
    hide Sound;
    AllocatePools(h, ty);
    assert forall p :: p in h.cleanups ==> Alive(h, h.cleanups[p]);
    hide PoolsSound;
  }

  lemma AllocateUnpointed(h: Heap, ty: TypeId)
    requires Young(h) && (forall x, s :: x in h.objs ==> Get(h.objs[x].body, s) != Some(h.next))
    requires forall x :: x in h.objs ==> h.objs[x].target != Some(h.next)
    requires forall p :: p in h.cleanups ==> h.cleanups[p] in h.objs
    ensures Unpointed(Allocate(h, ty), h.next)
  {}

  lemma WriteTended(h: Heap, r: Ref, b: Body)
    requires Tended(h) && r in h.objs
    requires var was := h.objs[r].body; b.pool == was.pool && b.deleted == was.deleted && b.teardowns == was.teardowns
    ensures Tended(SetBody(h, r, b))
  {
    hide PoolsSound, Sound;
    PoolsSoundKept(h, SetBody(h, r, b));
  }

  lemma ThrowTended(h: Heap, err: ErrorLocation, code: int, description: Option<string>)
    requires Tended(h)
    ensures Tended(Throw(h, err, code, description).0)
  {
    hide Throw, Sound, PoolsSound, Allocate;
    if err.Location? {
      TendedPlain(h);
      ThrowOne(h, err, code, description);
      AllocateTended(h, ErrorT);
      ThrownTended(h, Throw(h, err, code, description).0);
    } else {
      ThrowIgnored(h, code, description);
    }
  }

  lemma ThrownTended(h: Heap, h': Heap)
    requires Tended(Allocate(h, ErrorT)) && Unfinished(Allocate(h, ErrorT), h.next)
    requires h.next in h'.objs && h'.objs == h.objs[h.next := h'.objs[h.next]] && h'.types == h.types
             && h'.next == h.next + 1
    requires h'.pools == Draw(h.pools) && h'.cleanups == h.cleanups[NextPool(h.pools) := h.next]
    requires var b := h'.objs[h.next].body; b.pool == NextPool(h.pools) && !b.deleted && b.teardowns == 0
    ensures Tended(h')
  {
    hide PoolsSound, Sound;
    var h1 := Allocate(h, ErrorT);
    RegisterPools(h1, h.next);
    PoolsSoundKept(h1.(cleanups := h1.cleanups[NextPool(h.pools) := h.next]), h');
  }

  lemma ThrowUnfinished(h: Heap, err: ErrorLocation, code: int, description: Option<string>, r: Ref)
    requires Tended(h) && Unfinished(h, r) && Unpointed(h, r) && err.Location? && err.error != Some(r)
    ensures var h' := Throw(h, err, code, description).0; Unfinished(h', r) && Unpointed(h', r)
  {
    hide PoolsSound, Sound, Throw;
    TendedPlain(h);
    ThrowOne(h, err, code, description);
    var h' := Throw(h, err, code, description).0;
    assert Get(h'.objs[h.next].body, CauseSlot) == err.error;
    forall s
      ensures Get(h'.objs[h.next].body, s) != Some(r)
    {
      match s
      case WeakSlot =>
      case CauseSlot =>
      case CSlot =>
    }
  }

  /** One turn of the loop in `y_create`. */
  lemma InitStepTended(h: Heap, r: Ref, m: Method<InitExec>, err: ErrorLocation)
    requires Tended(h) && Unfinished(h, r) && Unpointed(h, r) && err != Location(Some(r))
    ensures r in h.objs
    ensures var h' := ExecInit(Bless(h, r, m.ty), r, m.exec, err).0;
            Tended(h') && Unfinished(h', r) && Unpointed(h', r)
  {
    hide Tended, Throw;
    var h0 := Bless(h, r, m.ty);
    assert Tended(h0) by { WriteTended(h, r, h.objs[r].body.(ty := m.ty)); }
    assert Unfinished(h0, r) && Unpointed(h0, r);
    match m.exec
    case DeltaInit => WriteTended(h0, r, h0.objs[r].body.(data := h0.objs[r].body.data.(priv := true)));
    case UserInit =>
    case ThrowingInit(code) =>
      if err.Location? {
        ThrowTended(h0, err, code, None);
        ThrowUnfinished(h0, err, code, None, r);
      } else {
        ThrowIgnored(h0, code, None);
      }
  }

  /** The end of `y_create`, after success. */
  lemma {:induction false} FinishTended(h: Heap, r: Ref, ty: TypeId)
    requires Tended(h) && Unfinished(h, r)
    ensures Tended(Finish(h, r, ty))
  {
    hide PoolsSound, Sound;
    PoolsSoundKept(h, Bless(h, r, ty));
    RegisterPools(Bless(h, r, ty), r);
  }

  /** The end of `y_create`, after a failure. */
  lemma DiscardTended(h: Heap, r: Ref)
    requires Tended(h) && Unfinished(h, r)
    ensures Tended(Discard(h, r)) && Discard(h, r).types == h.types
    ensures FreePool(h, h.objs[r].body.pool) == h.(pools := Recycle(h.pools, h.objs[r].body.pool))
  {
    hide Sound, Discard, Recycle;
    DiscardShape(h, r);
    DiscardPools(h, r, Discard(h, r));
    NoCleanupFrees(h, h.objs[r].body.pool);
  }

  lemma NoCleanupFrees(h: Heap, p: Pool)
    requires p !in h.cleanups
    ensures FreePool(h, p) == h.(pools := Recycle(h.pools, p))
  {}

  lemma UnrefTended(h: Heap, r: Ref)
    requires Tended(h)
    ensures Tended(Unref(h, r)) && Unref(h, r).types == h.types
  {
    hide PoolsSound, Sound, Unref, Frame;
    UnrefFrame(h, r);
    FrameParts(h, Unref(h, r), {});
    YoungKept(h, Unref(h, r));
  }

  lemma ClearTended(h: Heap, r: Ref)
    requires Tended(h) && r in h.objs
    ensures Tended(ClearObject(h, r, true)) && ClearObject(h, r, true).types == h.types
  {
    hide PoolsSound, Sound, ClearObject, Frame;
    ClearObjectFrame(h, r, true);
    FrameParts(h, ClearObject(h, r, true), {r});
    YoungKept(h, ClearObject(h, r, true));
  }

  lemma RefTended(h: Heap, r: Ref)
    requires Tended(h)
    ensures Tended(AddRef(h, r)) && AddRef(h, r).types == h.types && AddRef(h, r).objs.Keys == h.objs.Keys
  {
    hide PoolsSound, Sound;
    PoolsSoundKept(h, AddRef(h, r));
  }

  lemma SetCTended(h: Heap, r: Ref, c: Option<Ref>)
    requires Tended(h) && r in h.objs
    ensures Tended(SetC(h, r, c)) && SetC(h, r, c).types == h.types
  {
    hide Tended, Unref, AddRef;
    var was := h.objs[r].body.c;
    var h1 := if was.Some? then Unref(h, was.value) else h;
    if was.Some? { UnrefTended(h, was.value); }
    var h2 := if c.Some? then AddRef(h1, c.value) else h1;
    if c.Some? { RefTended(h1, c.value); }
    WriteTended(h2, r, Put(h2.objs[r].body, CSlot, if c.Some? && Granted(h1, c.value) then c else None));
  }

  lemma AssignDeltaTended(h: Heap, to: Ref, from: Ref)
    requires Tended(h) && to in h.objs && from in h.objs
    ensures Tended(AssignDelta(h, to, from)) && AssignDelta(h, to, from).types == h.types
  {
    hide Tended, SetC;
    var h1 := SetB(h, to, h.objs[from].body.data.b);
    WriteTended(h, to, h1.objs[to].body);
    SetCTended(h1, to, h1.objs[from].body.c);
    var h2 := SetC(h1, to, h1.objs[from].body.c);
    WriteTended(h2, to, AssignDelta(h, to, from).objs[to].body);
  }

  lemma ExecAssignTended(h: Heap, to: Ref, from: Ref, exec: AssignExec, err: ErrorLocation)
    requires Tended(h) && to in h.objs && from in h.objs
    ensures Tended(ExecAssign(h, to, from, exec, err).0)
  {
    hide Tended, AssignDelta, Throw;
    match exec
    case AlphaAssign =>
      WriteTended(h, to, h.objs[to].body.(data := h.objs[to].body.data.(a := h.objs[from].body.data.a)));
    case DeltaAssign => AssignDeltaTended(h, to, from);
    case UserAssign =>
    case RefusingAssign =>
    case ThrowingAssign(code) => ThrowTended(h, err, code, None);
  }

  lemma {:induction false} BlessTended(h: Heap, r: Ref, ty: TypeId)
    requires Tended(h) && r in h.objs
    ensures Tended(Bless(h, r, ty))
  {
    hide Tended;
    WriteTended(h, r, h.objs[r].body.(ty := ty));
  }

  lemma {:induction false} TargetTended(h: Heap, w: Ref, t: Option<Ref>)
    requires Tended(h) && w in h.objs
    ensures Tended(SetTarget(h, w, t))
  {
    hide PoolsSound, Sound;
    PoolsSoundKept(h, SetTarget(h, w, t));
  }
}
