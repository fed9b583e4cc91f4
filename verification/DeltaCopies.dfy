/** The class Delta of test/ootest/Delta.c, whose instances own strings and share an object. */
module DeltaCopies {
  import opened Options
  import opened Classes
  import opened Heaps
  import opened Accounts
  import opened Copies
  import opened Onward

  /** The lists of the class Delta, on top of Alpha and Object. */
  lemma DeltaListsBuilt(types: Types, defs: map<TypeId, Def>)
    requires Declared(defs) && Built(types, defs) && DeltaT in defs && AlphaT in defs
    ensures DeltaT in types && Ancestry(types, DeltaT) == [ObjectT, AlphaT, DeltaT]
    ensures types[DeltaT].init == [Method(DeltaT, DeltaInit)]
    ensures types[DeltaT].assign == [Method(AlphaT, AlphaAssign), Method(DeltaT, DeltaAssign)]
    ensures types[DeltaT].clear
            == [Method(ObjectT, ObjectClear), Method(AlphaT, AlphaClear), Method(DeltaT, DeltaClear)]
  {
    hide Chain, Ancestry, Rooted;
    DeltaSupers(types, defs);
    DeltaAncestry(types);
    assert BuiltAs(types, defs, DeltaT);
    DeltaChain(Inits(defs));
    DeltaChain(Assigns(defs));
    DeltaChain(Clears(defs));
  }

  lemma DeltaSupers(types: Types, defs: map<TypeId, Def>)
    requires Declared(defs) && Built(types, defs) && DeltaT in defs && AlphaT in defs
    ensures DeltaT in types && AlphaT in types && ObjectT in types
    ensures types[DeltaT].super == Some(AlphaT) && types[AlphaT].super == Some(ObjectT) && types[ObjectT].super == None
    ensures DeclaredAs(DeltaT, defs[DeltaT]) && DeclaredAs(AlphaT, defs[AlphaT]) && DeclaredAs(ObjectT, defs[ObjectT])
  {
    hide Chain, Ancestry, Rooted;
    assert BuiltAs(types, defs, DeltaT) && BuiltAs(types, defs, AlphaT) && BuiltAs(types, defs, ObjectT);
  }

  lemma DeltaAncestry(types: Types)
    requires DeltaT in types && AlphaT in types && ObjectT in types
    requires types[DeltaT].super == Some(AlphaT) && types[AlphaT].super == Some(ObjectT) && types[ObjectT].super == None
    ensures Ancestry(types, DeltaT) == [ObjectT, AlphaT, DeltaT]
  {
    var t1 := types - {DeltaT};
    var t2 := t1 - {AlphaT};
    assert Ancestry(t2, ObjectT) == [ObjectT];
    assert Ancestry(t1, AlphaT) == [ObjectT, AlphaT];
  }

  lemma DeltaChain<E>(own: Own<E>)
    requires ObjectT in own && AlphaT in own && DeltaT in own
    ensures Chain(own, [ObjectT, AlphaT, DeltaT])
            == (if own[ObjectT].Some? then [Method(ObjectT, own[ObjectT].value)] else [])
               + (if own[AlphaT].Some? then [Method(AlphaT, own[AlphaT].value)] else [])
               + (if own[DeltaT].Some? then [Method(DeltaT, own[DeltaT].value)] else [])
  {
    var l2, l1 := [ObjectT, AlphaT], [ObjectT];
    assert [ObjectT, AlphaT, DeltaT][..2] == l2 && l2[..1] == l1 && l1[..0] == [];
    assert Chain(own, []) == [];
    assert Chain(own, l1) == if own[ObjectT].Some? then [Method(ObjectT, own[ObjectT].value)] else [];
  }

  /** Copying a Delta always succeeds: the copy is another object of the class Delta with the same a, b, c
      and d; nothing else has changed but the count of a non-null c, which is one higher; and unreffing the
      copy brings back every object as it was. */
  lemma DeltaCopied(h: Heap, from: Ref, err: ErrorLocation, held: multiset<Ref>, defs: map<TypeId, Def>)
    requires Sane(h, held, {}) && AllTidy(h) && from in held && Stowed(err) == multiset{}
    requires Declared(defs) && Built(h.types, defs) && DeltaT in defs && AlphaT in defs
    requires from in h.objs && h.objs[from].body.ty == DeltaT
    ensures var (h', copy, err') := Copy(h, from, err);
            && copy == Some(h.next) && h.next !in h.objs && err' == err
            && h'.objs.Keys == h.objs.Keys + {h.next}
            && Twins(h.objs[from], h'.objs[h.next]) && h'.objs[h.next].refcount == 1
            && (forall x :: x in h.objs ==> h'.objs[x] == Lent(h.objs[x], h.objs[from].body.c == Some(x)))
    ensures var h' := Unref(Copy(h, from, err).0, h.next);
            forall x :: x in h.objs ==> x in h'.objs && h'.objs[x] == h.objs[x]
  {
    hide Sane, Unref, Copy, Built, Create;
    DeltaListsBuilt(h.types, defs);
    IsAIffAncestor(h.types, DeltaT, AlphaT);
    IsAIffAncestor(h.types, DeltaT, DeltaT);
    assert Copyable(h, DeltaT, err);
    CopyOutcome(h, from, err, held);
    CopyThenUnref(h, from, err, held);
    CopyIsNext(h, from, err, held);
    assert Tidy(h.objs[from].body.data);
  }

  /** Two Deltas with equal members. */
  predicate Twins(o: Obj, p: Obj) {
    && o.body.ty == DeltaT && p.body.ty == DeltaT && p.body.c == o.body.c
    && p.body.data.a == o.body.data.a && p.body.data.b == o.body.data.b && p.body.data.d == o.body.data.d
  }

  lemma {:induction false} CopyIsNext(h: Heap, from: Ref, err: ErrorLocation, held: multiset<Ref>)
    requires Sane(h, held, {}) && from in held && Stowed(err) == multiset{} && from in h.objs
    ensures Copy(h, from, err).1.Some? ==> Copy(h, from, err).1 == Some(h.next)
  {
    hide Sane, Create, Assign, Unref;
    HeldIsGranted(h, from, held, {});
    Calls.CreateSane(h, h.objs[from].body.ty, err, held);
  }
}
