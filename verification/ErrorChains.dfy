/** Errors thrown over one another (yakka/Error.c): the chain of causes, and what becomes of it when its
    head is released. */
module ErrorChains {
  import opened Options
  import opened Pools
  import opened Classes
  import opened Heaps
  import opened Cascade
  import opened Accounts

  /** The clear list of the error class, as the runtime builds it. */
  const ERROR_CLEARS := [Method(ObjectT, ObjectClear), Method(ErrorT, ErrorClear)]

  /** Building Object and then Error gives the error class exactly these two clear methods. */
  lemma ErrorClearsBuilt(types: Types, defs: map<TypeId, Def>)
    requires Declared(defs) && Built(types, defs)
    ensures types[ErrorT].clear == ERROR_CLEARS && types[ErrorT].super == Some(ObjectT) && types[ObjectT].super == None
  {
    assert BuiltAs(types, defs, ErrorT) && BuiltAs(types, defs, ObjectT);
    assert DeclaredAs(ErrorT, defs[ErrorT]) && DeclaredAs(ObjectT, defs[ObjectT]);
    assert Ancestry(types - {ErrorT}, ObjectT) == [ObjectT];
    var line := Ancestry(types, ErrorT);
    assert line == [ObjectT, ErrorT];
    assert line[..1] == [ObjectT] && [ObjectT][..0] == [];
    var own := Clears(defs);
    assert Chain(own, []) == [];
    assert Chain(own, [ObjectT]) == [Method(ObjectT, ObjectClear)];
  }

  /** What one call of `y_Error_throw` is given. */
  datatype Thrown = Thrown(code: int, description: Option<string>)

  /** Throwing several errors, one after the other, into the same location. */
  function ThrowAll(h: Heap, err: ErrorLocation, throws: seq<Thrown>): (Heap, ErrorLocation)
    decreases |throws|
  {
    if throws == [] then (h, err)
    else
      var n := |throws| - 1;
      var (h1, err1) := ThrowAll(h, err, throws[..n]);
      Throw(h1, err1, throws[n].code, throws[n].description)
  }

  /** An error that is its location's or its successor's alone. */
  ghost predicate SoleError(h: Heap, e: Ref, cause: Option<Ref>) {
    && e in h.objs && h.objs[e].refcount == 1
    && var b := h.objs[e].body;
       && b.ty == ErrorT && !b.deleted && b.teardowns == 0 && b.weakRef == None && b.c == None && b.cause == cause
       && (b.pool in h.cleanups ==> h.cleanups[b.pool] == e)
  }

  /** The cause of the k-th oldest error of a chain. */
  function CauseIn(chain: seq<Ref>, k: nat): Option<Ref>
    requires k < |chain|
  {
    if k == 0 then None else Some(chain[k - 1])
  }

  /** The errors of `chain`, oldest first: each is the cause of the next. */
  ghost predicate Chained(h: Heap, chain: seq<Ref>) {
    && Distinct(chain)
    && forall k :: 0 <= k < |chain| ==> SoleError(h, chain[k], CauseIn(chain, k))
  }

  /** The identities that `n` throws use. */
  function Ids(from: Ref, n: nat): (s: seq<Ref>)
    ensures |s| == n && forall k :: 0 <= k < n ==> s[k] == from + k
  {
    if n == 0 then [] else Ids(from, n - 1) + [from + n - 1]
  }

  /** What a location holds after errors `chain` have been thrown into it while it was empty. */
  function Head(chain: seq<Ref>): ErrorLocation {
    Location(if chain == [] then None else Some(chain[|chain| - 1]))
  }

  /** The chain that the location's error heads: the errors thrown, with what was passed for each. */
  ghost predicate ChainOf(h: Heap, h': Heap, throws: seq<Thrown>) {
    var chain := Ids(h.next, |throws|);
    && h'.next == h.next + |throws| && h'.types == h.types
    && Chained(h', chain)
    && (forall k :: 0 <= k < |throws| ==> chain[k] in h'.objs && h'.objs[chain[k]].body.data.code == throws[k].code
                                          && h'.objs[chain[k]].body.data.description == throws[k].description)
    && (forall x :: x in h.objs ==> x in h'.objs && h'.objs[x] == h.objs[x])
  }

  /** One throw, in detail. */
  lemma {:induction false} ThrowOne(h: Heap, err: ErrorLocation, code: int, description: Option<string>)
    requires err.Location? && InitList(h, ErrorT) == [] && Young(h)
    ensures var (h', err') := Throw(h, err, code, description);
            && err' == Location(Some(h.next)) && h'.next == h.next + 1 && h'.types == h.types
            && h'.pools == Draw(h.pools) && h'.cleanups == h.cleanups[NextPool(h.pools) := h.next]
            && h.next in h'.objs && h'.objs == h.objs[h.next := h'.objs[h.next]]
            && h'.objs[h.next] == Fresh(ErrorT, NextPool(h.pools)).(body := h'.objs[h.next].body)
            && h'.objs[h.next].body
               == Fresh(ErrorT, NextPool(h.pools)).body.(cause := err.error, data := h'.objs[h.next].body.data)
            && h'.objs[h.next].body.data == NO_DATA.(code := code, description := description)
            && Young(h')
  {
    ThrowShape(h, err, code, description);
    CreatePlain(h, ErrorT, Ignored);
  }

  /** A new error does not disturb the ones thrown before. */
  lemma {:induction false} ChainGrows(h: Heap, throws: seq<Thrown>, h1: Heap, h2: Heap)
    requires |throws| > 0 && ChainOf(h, h1, throws[..|throws| - 1]) && Young(h1) && PoolsSound(h1)
    requires var t := throws[|throws| - 1];
             h2 == Throw(h1, Head(Ids(h.next, |throws| - 1)), t.code, t.description).0
    requires InitList(h1, ErrorT) == []
    ensures ChainOf(h, h2, throws)
    ensures Throw(h1, Head(Ids(h.next, |throws| - 1)), throws[|throws| - 1].code, throws[|throws| - 1].description).1
            == Head(Ids(h.next, |throws|))
  {
    hide PoolsSound, Throw, Chained;
    var n := |throws| - 1;
    var t := throws[n];
    var earlier, chain := Ids(h.next, n), Ids(h.next, n + 1);
    ThrowOne(h1, Head(earlier), t.code, t.description);
    NewErrorSole(h1, Head(earlier), t, h2);
    ChainedSnoc(h1, earlier, h2);
  }

  lemma ChainedSnoc(h1: Heap, earlier: seq<Ref>, h2: Heap)
    requires Chained(h1, earlier) && SoleError(h2, h1.next, Head(earlier).error)
    requires PoolsSound(h1) && Young(h1) && h1.next in h2.objs
    requires h2.objs == h1.objs[h1.next := h2.objs[h1.next]]
    requires h2.cleanups == h1.cleanups[NextPool(h1.pools) := h1.next]
    ensures Chained(h2, earlier + [h1.next])
  {
    hide PoolsSound, SoleError;
    var n, chain := |earlier|, earlier + [h1.next];
    forall k | 0 <= k < n
      ensures SoleError(h2, chain[k], CauseIn(chain, k)) && chain[k] < h1.next
    {
      assert SoleError(h1, earlier[k], CauseIn(earlier, k));
      SoleThere(h1, earlier[k], CauseIn(earlier, k));
      OldErrorKept(h1, earlier[k], CauseIn(earlier, k), h2);
    }
    assert SoleError(h2, chain[n], CauseIn(chain, n));
  }

  lemma SoleThere(h: Heap, e: Ref, cause: Option<Ref>)
    requires SoleError(h, e, cause)
    ensures e in h.objs
  {}

  lemma OldErrorKept(h: Heap, e: Ref, cause: Option<Ref>, h': Heap)
    requires SoleError(h, e, cause) && PoolsSound(h) && e != h.next && h.next in h'.objs
    requires h'.objs == h.objs[h.next := h'.objs[h.next]] && h'.cleanups == h.cleanups[NextPool(h.pools) := h.next]
    ensures SoleError(h', e, cause)
  {}

  lemma NewErrorSole(h: Heap, err: ErrorLocation, t: Thrown, h': Heap)
    requires err.Location? && InitList(h, ErrorT) == [] && Young(h) && h' == Throw(h, err, t.code, t.description).0
    ensures SoleError(h', h.next, err.error)
  {}

  /** After n throws into an empty location, the location holds the newest error and the causes lead from
      it through all the others to the oldest, each with a single reference. */
  lemma {:induction false} ThrowsChain(h: Heap, throws: seq<Thrown>, held: multiset<Ref>)
    requires Sane(h, held, {})
    ensures var (h', err') := ThrowAll(h, Location(None), throws);
            && ChainOf(h, h', throws) && err' == Head(Ids(h.next, |throws|))
            && Sane(h', held + Stowed(err'), {})
    decreases |throws|
  {
    hide Sane, Throw;
    if throws == [] {
      assert held + Stowed(Location(None)) == held;
    } else {
      var n := |throws| - 1;
      var earlier, t := throws[..n], throws[n];
      ThrowsChain(h, earlier, held);
      var (h1, err1) := ThrowAll(h, Location(None), earlier);
      SanePlain(h1, held + Stowed(err1), {});
      assert Young(h1) && PoolsSound(h1) by {
        SaneParts(h1, held + Stowed(err1), {});
        BalancedParts(h1, held + Stowed(err1), {}, {});
      }
      PinnedNobody(h1, held);
      ThrowSane(h1, err1, t.code, t.description, held, {});
      var h2 := Throw(h1, err1, t.code, t.description).0;
      hide ChainOf, PoolsSound;
      ChainGrows(h, throws, h1, h2);
    }
  }

  // ---------------------------------------------------------------------------------------
  // Releasing the head
  // ---------------------------------------------------------------------------------------

  /** An error after its destruction. */
  function Buried(o: Obj): Obj {
    Obj(0, o.target, o.body.(deleted := true, teardowns := o.body.teardowns + 1, cause := None,
                             data := o.body.data.(code := 0, description := None)))
  }

  function Members<T>(s: seq<T>): set<T> {
    set x | x in s
  }

  ghost function PoolsOf(h: Heap, chain: seq<Ref>): (s: seq<Pool>)
    requires forall e :: e in chain ==> e in h.objs
    ensures |s| == |chain| && forall k :: 0 <= k < |chain| ==> s[k] == h.objs[chain[k]].body.pool
  {
    if chain == [] then [] else PoolsOf(h, chain[..|chain| - 1]) + [h.objs[chain[|chain| - 1]].body.pool]
  }

  /** The heap after every error of a chain has been destroyed, the oldest first. */
  ghost predicate TornDown(h: Heap, chain: seq<Ref>, h': Heap)
    requires forall e :: e in chain ==> e in h.objs
  {
    && h'.types == h.types && h'.next == h.next && h'.objs.Keys == h.objs.Keys
    && (forall x :: x in h.objs ==> h'.objs[x] == if x in chain then Buried(h.objs[x]) else h.objs[x])
    && h'.pools == RecycleAll(h.pools, PoolsOf(h, chain))
    && h'.cleanups == h.cleanups - Members(PoolsOf(h, chain))
  }

  lemma ReleaseNone(h: Heap, r: Ref, s: Slot)
    requires r in h.objs && Get(h.objs[r].body, s) == None
    ensures Release(h, r, s) == h
  {}

  /** Clearing an error amounts to emptying it and releasing its cause. */
  lemma {:induction false} ErrorCleared(h: Heap, r: Ref)
    requires r in h.objs && h.objs[r].body.ty == ErrorT && h.objs[r].body.weakRef == None
    requires ClearList(h, ErrorT) == ERROR_CLEARS && ErrorT in h.types
    requires var h1 := ClearError(h, r); h1.objs[r].body.weakRef == None && h1.objs[r].body.ty == ErrorT
    ensures ClearObject(h, r, true) == ClearError(h, r)
  {
    hide ClearError, ClearDelta, ClearAlpha, Release;
    ReleaseNone(Bless(ClearError(h, r), r, ObjectT), r, WeakSlot);
    var h0 := Bless(h, r, ErrorT);
    assert h0 == h by { assert h.objs[r := h.objs[r]] == h.objs; }
    var h1 := ClearError(h, r);
    assert ExecClear(h0, r, ErrorClear, true) == h1;
    var h2 := Bless(h1, r, ObjectT);
    assert ExecClear(h2, r, ObjectClear, true) == h2;
    assert ClearFrom(h2, r, ERROR_CLEARS, 0, true) == h2;
    assert ClearFrom(h1, r, ERROR_CLEARS, 1, true) == h2;
    assert ClearFrom(h, r, ERROR_CLEARS, 2, true) == h2;
    assert Bless(h2, r, ErrorT) == h1 by { assert h2.objs[r := h1.objs[r]] == h1.objs; }
  }

  /** The last steps of destroying an error. */
  lemma ErrorBuried(h: Heap, r: Ref)
    requires r in h.objs && var p := h.objs[r].body.pool; p in h.cleanups ==> h.cleanups[p] == r
    ensures var b := h.objs[r].body;
            var marked := SetBody(h, r, b.(deleted := true, teardowns := b.teardowns + 1));
            FreePool(marked, b.pool)
            == marked.(pools := Recycle(h.pools, b.pool), cleanups := h.cleanups - {b.pool})
  {}

  /** Giving back one pool more. */
  lemma {:induction false} RecycleAllSnoc(ps: PoolState, back: seq<Pool>, p: Pool)
    ensures RecycleAll(ps, back + [p]) == Recycle(RecycleAll(ps, back), p)
    decreases |back|
  {
    if back == [] {
      assert [p][1..] == [];
    } else {
      assert (back + [p])[1..] == back[1..] + [p];
      RecycleAllSnoc(Recycle(ps, back[0]), back[1..], p);
    }
  }

  /** Emptying an error and letting go of its cause. */
  lemma {:induction false} CauseReleased(h: Heap, r: Ref, rest: seq<Ref>, h1: Heap)
    requires r in h.objs && h.objs[r].body.ty == ErrorT && ErrorT in h.types
    requires h.objs[r].body.cause == if rest == [] then None else Some(rest[|rest| - 1])
    requires var h0 := SetData(h, r, h.objs[r].body.data.(code := 0, description := None));
             h1 == if rest == [] then h0 else Unref(h0, rest[|rest| - 1])
    requires r in h1.objs
    ensures ClearError(h, r) == if rest == [] then h1 else SetSlot(h1, r, CauseSlot, None)
  {}

  /** The conditions of the chain below the head still hold once the head has lost its last reference and
      been emptied. */
  lemma RestChained(h: Heap, chain: seq<Ref>, h0: Heap)
    requires Chained(h, chain) && chain != []
    requires h0.cleanups == h.cleanups
    requires forall x :: x in h.objs && x != chain[|chain| - 1] ==> x in h0.objs && h0.objs[x] == h.objs[x]
    ensures Chained(h0, chain[..|chain| - 1])
  {}

  lemma PoolsOfSame(h: Heap, h': Heap, chain: seq<Ref>)
    requires forall e :: e in chain ==> e in h.objs && e in h'.objs && h'.objs[e].body.pool == h.objs[e].body.pool
    ensures PoolsOf(h, chain) == PoolsOf(h', chain)
  {}

  lemma PoolsOfSnoc(h: Heap, chain: seq<Ref>)
    requires chain != [] && forall e :: e in chain ==> e in h.objs
    ensures PoolsOf(h, chain) == PoolsOf(h, chain[..|chain| - 1]) + [h.objs[chain[|chain| - 1]].body.pool]
  {}

  /** Releasing the head of a chain that nobody else refers to destroys every error exactly once, the
      deepest cause first, and touches nothing else. */
  lemma {:induction false} UnrefTearsDown(h: Heap, chain: seq<Ref>)
    requires Chained(h, chain) && chain != []
    requires ClearList(h, ErrorT) == ERROR_CLEARS && ErrorT in h.types
    ensures forall e :: e in chain ==> e in h.objs
    ensures TornDown(h, chain, Unref(h, chain[|chain| - 1]))
    decreases |chain|
  {
    hide Destroy, Chained, TornDown, Unref, Dropped;
    var n := |chain| - 1;
    var r, rest := chain[n], chain[..n];
    ChainedAt(h, chain);
    var h1 := SetCount(h, r, 0);
    var h2 := SetData(h1, r, h1.objs[r].body.data.(code := 0, description := None));
    RestChained(h, chain, h2);
    var h3 := if n == 0 then h2 else Unref(h2, rest[n - 1]);
    if n > 0 {
      UnrefTearsDown(h2, rest);
    }
    NotRepeated(h, chain);
    assert Dropped(h, chain, h1, h2, h3) by { HeadDropped(h, chain, h1, h2, h3); }
    HeadTornDown(h, chain, h1, h2, h3);
    LastUnref(h, r, CauseIn(chain, n));
  }

  lemma HeadDropped(h: Heap, chain: seq<Ref>, h1: Heap, h2: Heap, h3: Heap)
    requires chain != [] && (forall e :: e in chain ==> e in h.objs)
    requires var n := |chain| - 1; var r, rest := chain[n], chain[..n];
             && r !in rest && SoleError(h, r, CauseIn(chain, n))
             && h1 == SetCount(h, r, 0)
             && h2 == SetData(h1, r, h1.objs[r].body.data.(code := 0, description := None))
             && (n == 0 ==> h3 == h2)
             && (n > 0 ==> h3 == Unref(h2, rest[n - 1]) && TornDown(h2, rest, h3))
    ensures Dropped(h, chain, h1, h2, h3)
  {}

  lemma ChainedAt(h: Heap, chain: seq<Ref>)
    requires Chained(h, chain)
    ensures forall e :: e in chain ==> e in h.objs
    ensures chain != [] ==> SoleError(h, chain[|chain| - 1], CauseIn(chain, |chain| - 1))
  {}

  /** Dropping the only reference to an error destroys it. */
  lemma {:induction false} LastUnref(h: Heap, r: Ref, cause: Option<Ref>)
    requires SoleError(h, r, cause)
    ensures Unref(h, r) == Destroy(SetCount(h, r, 0), r)
  {}

  lemma NotRepeated(h: Heap, chain: seq<Ref>)
    requires Chained(h, chain) && chain != []
    ensures chain[|chain| - 1] !in chain[..|chain| - 1]
  {}

  /** The rest of the chain is gone. */
  ghost predicate RestGone(h: Heap, chain: seq<Ref>, h3: Heap)
    requires chain != [] && forall e :: e in chain ==> e in h.objs
  {
    var r, rest := chain[|chain| - 1], chain[..|chain| - 1];
    && h3.pools == RecycleAll(h.pools, PoolsOf(h, rest))
    && h3.cleanups == h.cleanups - Members(PoolsOf(h, rest))
    && h3.types == h.types && h3.next == h.next && h3.objs.Keys == h.objs.Keys
    && (forall x :: x in h.objs && x != r ==> h3.objs[x] == if x in rest then Buried(h.objs[x]) else h.objs[x])
  }

  /** Error `r` has been emptied and is about to be marked as deleted. */
  ghost predicate Emptied(h: Heap, r: Ref, h3: Heap, h4: Heap)
    requires r in h.objs
  {
    && r in h3.objs && r in h4.objs && h4 == h3.(objs := h3.objs[r := h4.objs[r]])
    && h4.objs[r] == Buried(h.objs[r]).(body := Buried(h.objs[r]).body.(deleted := false, teardowns := 0))
  }

  /** Error `r` has been marked as deleted and its pool is back. */
  ghost predicate Marked(h4: Heap, r: Ref, h5: Heap)
    requires r in h4.objs
  {
    var b := h4.objs[r].body;
    && h5.objs == h4.objs[r := h4.objs[r].(body := b.(deleted := true, teardowns := b.teardowns + 1))]
    && h5.pools == Recycle(h4.pools, b.pool) && h5.cleanups == h4.cleanups - {b.pool}
    && h5.types == h4.types && h5.next == h4.next
  }

  /** Emptying the head. */
  lemma {:induction false} HeadCleared(h: Heap, chain: seq<Ref>, h1: Heap, h2: Heap, h3: Heap)
    requires Dropped(h, chain, h1, h2, h3) && ClearList(h, ErrorT) == ERROR_CLEARS && ErrorT in h.types
    ensures var r := chain[|chain| - 1];
            r in h.objs && r in h1.objs && Emptied(h, r, h3, ClearObject(h1, r, true))
  {
    hide ClearError, Unref, ClearObject, TornDown;
    var n := |chain| - 1;
    var r, rest := chain[n], chain[..n];
    if n > 0 { TornDownAt(h2, rest, h3, r); }
    CauseReleased(h1, r, rest, h3);
    assert h3.objs[r := h3.objs[r]] == h3.objs;
    ErrorCleared(h1, r);
  }

  lemma TornDownAt(h: Heap, chain: seq<Ref>, h': Heap, x: Ref)
    requires forall e :: e in chain ==> e in h.objs
    requires TornDown(h, chain, h') && x in h.objs
    ensures x in h'.objs && h'.objs[x] == if x in chain then Buried(h.objs[x]) else h.objs[x]
    ensures h'.types == h.types && h'.next == h.next && h'.objs.Keys == h.objs.Keys
  {}

  /** The heap once the head has lost its reference (`h1`), been emptied of its members (`h2`), and its
      cause has been torn down (`h3`). */
  ghost predicate Dropped(h: Heap, chain: seq<Ref>, h1: Heap, h2: Heap, h3: Heap) {
    && chain != [] && (forall e :: e in chain ==> e in h.objs)
    && var n := |chain| - 1; var r, rest := chain[n], chain[..n];
       && r !in rest && SoleError(h, r, CauseIn(chain, n))
       && h1 == SetCount(h, r, 0)
       && h2 == SetData(h1, r, h1.objs[r].body.data.(code := 0, description := None))
       && (n == 0 ==> h3 == h2)
       && (n > 0 ==> h3 == Unref(h2, rest[n - 1]) && TornDown(h2, rest, h3))
  }

  /** The pools and cleanups once the rest of the chain is gone. */
  lemma {:induction false} RestTornDown(h: Heap, chain: seq<Ref>, h1: Heap, h2: Heap, h3: Heap)
    requires Dropped(h, chain, h1, h2, h3)
    ensures chain != [] && (forall e :: e in chain ==> e in h.objs) && RestGone(h, chain, h3)
  {
    hide Unref, Positive, SoleError;
    var rest := chain[..|chain| - 1];
    if rest != [] {
      PoolsOfSame(h, h2, rest);
    } else {
      assert Members(PoolsOf(h, rest)) == {};
      assert h.cleanups - {} == h.cleanups;
    }
  }

  lemma {:induction false} HeadTornDown(h: Heap, chain: seq<Ref>, h1: Heap, h2: Heap, h3: Heap)
    requires Dropped(h, chain, h1, h2, h3) && ClearList(h, ErrorT) == ERROR_CLEARS && ErrorT in h.types
    ensures TornDown(h, chain, Destroy(h1, chain[|chain| - 1]))
  {
    hide *;
    DroppedParts(h, chain, h1, h2, h3);
    var r := chain[|chain| - 1];
    HeadCleared(h, chain, h1, h2, h3);
    RestTornDown(h, chain, h1, h2, h3);
    var h4 := ClearObject(h1, r, true);
    HeadBuried(h, chain, h3, h4);
    SnocTornDown(h, chain, h3, h4, Destroy(h1, r));
  }

  lemma DroppedParts(h: Heap, chain: seq<Ref>, h1: Heap, h2: Heap, h3: Heap)
    requires Dropped(h, chain, h1, h2, h3)
    ensures chain != [] && (forall e :: e in chain ==> e in h.objs)
    ensures var r := chain[|chain| - 1];
            && SoleError(h, r, CauseIn(chain, |chain| - 1)) && h1 == SetCount(h, r, 0) && h.objs[r].body.teardowns == 0
  {
    hide Unref, TornDown;
  }

  lemma {:induction false} HeadBuried(h: Heap, chain: seq<Ref>, h3: Heap, h4: Heap)
    requires chain != [] && forall e :: e in chain ==> e in h.objs
    requires var r := chain[|chain| - 1];
             && SoleError(h, r, CauseIn(chain, |chain| - 1))
             && h4 == ClearObject(SetCount(h, r, 0), r, true) && Emptied(h, r, h3, h4)
    requires RestGone(h, chain, h3)
    ensures var r := chain[|chain| - 1];
            r in h4.objs && Marked(h4, r, Destroy(SetCount(h, r, 0), r))
  {
    hide ClearObject, FreePool, PoolsOf, Members, RecycleAll;
    var r := chain[|chain| - 1];
    ErrorBuried(h4, r);
    TearDownShape(SetCount(h, r, 0), r);
  }

  lemma {:induction false} SnocTornDown(h: Heap, chain: seq<Ref>, h3: Heap, h4: Heap, h5: Heap)
    requires chain != [] && forall e :: e in chain ==> e in h.objs
    requires var r := chain[|chain| - 1];
             RestGone(h, chain, h3) && Emptied(h, r, h3, h4) && Marked(h4, r, h5) && h.objs[r].body.teardowns == 0
    ensures TornDown(h, chain, h5)
  {
    hide RecycleAll, PoolsOf, Recycle, Members, Buried;
    var r, rest := chain[|chain| - 1], chain[..|chain| - 1];
    PoolsOfSnoc(h, chain);
    RecycleAllSnoc(h.pools, PoolsOf(h, rest), h.objs[r].body.pool);
    MembersSnoc(PoolsOf(h, rest), h.objs[r].body.pool);
    MarkedIsBuried(h, r, h3, h4, h5);
    assert h5.cleanups == h.cleanups - Members(PoolsOf(h, chain));
    assert forall x :: x in chain <==> x in rest || x == r;
  }

  lemma MarkedIsBuried(h: Heap, r: Ref, h3: Heap, h4: Heap, h5: Heap)
    requires r in h.objs && Emptied(h, r, h3, h4) && Marked(h4, r, h5) && h.objs[r].body.teardowns == 0
    ensures h5.objs == h3.objs[r := Buried(h.objs[r])]
    ensures h4.objs[r].body.pool == h.objs[r].body.pool
    ensures h5.cleanups == h3.cleanups - {h.objs[r].body.pool}
  {}

  lemma MembersSnoc<T>(s: seq<T>, x: T)
    ensures Members(s + [x]) == Members(s) + {x}
  {}

  lemma {:induction false} TearDownShape(h: Heap, r: Ref)
    requires r in h.objs
    ensures var h1 := ClearObject(h, r, true); var b := h1.objs[r].body;
            TearDown(h, r, true) == SetBody(h1, r, b.(deleted := true, teardowns := b.teardowns + 1))
  {}

  /** n errors thrown into one empty location and then the location's error released: all n are destroyed,
      each exactly once; every other object is as it was before the first throw; the idle pools gain the
      pools of the n errors in throw order, and the buffer keeps the newest that fit. */
  lemma ThrowsTornDown(h: Heap, throws: seq<Thrown>, held: multiset<Ref>)
    requires Sane(h, held, {}) && throws != [] && ClearList(h, ErrorT) == ERROR_CLEARS
    ensures var (h1, err) := ThrowAll(h, Location(None), throws);
            var chain := Ids(h.next, |throws|);
            && err == Location(Some(chain[|throws| - 1]))
            && (forall e :: e in chain ==> e in h1.objs)
            && var h2 := Unref(h1, chain[|throws| - 1]);
            var back := PoolsOf(h1, chain);
            && Sane(h2, held, {})
            && (forall x :: x in h2.objs <==> x in h.objs || x in chain)
            && (forall x :: x in h.objs ==> h2.objs[x] == h.objs[x])
            && (forall e :: e in chain ==> h2.objs[e].body.deleted && h2.objs[e].body.teardowns == 1)
            && h2.pools.stack == Newest(h1.pools.stack + back, h.pools.capacity)
            && Idle(h2.pools) == Idle(h1.pools) + back
  {
    hide Sane, Unref, RecycleAll, PoolsOf, ThrowAll, Newest, Idle, TornDown, Chained;
    ThrowsChain(h, throws, held);
    var (h1, err) := ThrowAll(h, Location(None), throws);
    var chain := Ids(h.next, |throws|);
    SanePlain(h, held, {});
    UnrefTearsDown(h1, chain);
    var h2 := Unref(h1, chain[|throws| - 1]);
    SaneStack(h1, held + Stowed(err));
    TornDownPools(h1, chain, h2);
    PinnedNobody(h1, held);
    UnrefSane(h1, chain[|throws| - 1], held, {});
    SaneStack(h, held);
    ThrowsKeys(h, throws);
    forall x | x in h1.objs
      ensures x in h2.objs && h2.objs[x] == if x in chain then Buried(h1.objs[x]) else h1.objs[x]
      ensures h2.objs.Keys == h1.objs.Keys
    {
      TornDownAt(h1, chain, h2, x);
    }
    forall e | e in chain
      ensures h1.objs[e].body.teardowns == 0 && e !in h.objs
    {
      ChainedMember(h1, chain, e);
    }
  }

  lemma SaneStack(h: Heap, held: multiset<Ref>)
    requires Sane(h, held, {})
    ensures |h.pools.stack| <= h.pools.capacity && Young(h)
  {}

  lemma ChainedMember(h: Heap, chain: seq<Ref>, e: Ref)
    requires Chained(h, chain) && e in chain
    ensures e in h.objs && h.objs[e].body.teardowns == 0
  {}

  lemma TornDownPools(h: Heap, chain: seq<Ref>, h': Heap)
    requires forall e :: e in chain ==> e in h.objs
    requires TornDown(h, chain, h') && |h.pools.stack| <= h.pools.capacity
    ensures h'.pools.stack == Newest(h.pools.stack + PoolsOf(h, chain), h.pools.capacity)
    ensures Idle(h'.pools) == Idle(h.pools) + PoolsOf(h, chain)
    ensures h'.objs.Keys == h.objs.Keys
  {
    RecycleAllKeepsNewest(h.pools, PoolsOf(h, chain));
  }

  lemma {:induction false} ThrowsKeys(h: Heap, throws: seq<Thrown>)
    requires Young(h) && InitList(h, ErrorT) == []
    ensures var (h', err') := ThrowAll(h, Location(None), throws);
            && err'.Location? && Young(h') && h'.types == h.types && h'.next == h.next + |throws|
            && h'.pools.capacity == h.pools.capacity
            && (forall x :: x in h'.objs <==> x in h.objs || x in Ids(h.next, |throws|))
    decreases |throws|
  {
    if throws != [] {
      hide Throw, Young, Ids;
      var n := |throws| - 1;
      ThrowsKeys(h, throws[..n]);
      var (h1, err1) := ThrowAll(h, Location(None), throws[..n]);
      ThrowKeys(h1, err1, throws[n].code, throws[n].description);
      IdsSnoc(h.next, n);
    }
  }

  lemma IdsSnoc(from: Ref, n: nat)
    ensures forall x :: x in Ids(from, n + 1) <==> x in Ids(from, n) || x == from + n
  {}

  lemma ThrowKeys(h: Heap, err: ErrorLocation, code: int, description: Option<string>)
    requires err.Location? && InitList(h, ErrorT) == [] && Young(h)
    ensures var (h', err') := Throw(h, err, code, description);
            && err'.Location? && Young(h') && h'.types == h.types && h'.next == h.next + 1
            && h'.pools.capacity == h.pools.capacity && h'.objs.Keys == h.objs.Keys + {h.next}
  {
    hide Throw;
    ThrowOne(h, err, code, description);
  }
}
