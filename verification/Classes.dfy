/** Class structures and their method chains (yakka/Object.c, yakka/MethodList.c and the type
    construction of yakka/Runtime.c). */
module Classes {
  import opened Options

  /** The address of a class structure. The first six are the classes of the repository; `UserT`
      stands for any further class of an application. */
  datatype TypeId = ObjectT | WeakRefT | ErrorT | AlphaT | DeltaT | GammaT | UserT(n: nat)

  /** The init methods: Delta's own, and application methods that succeed or throw. */
  datatype InitExec = DeltaInit | UserInit | ThrowingInit(code: int)

  /** The assign methods: those of Alpha and Delta, and application methods that succeed, refuse by
      returning NULL, or throw. */
  datatype AssignExec = AlphaAssign | DeltaAssign | UserAssign | RefusingAssign | ThrowingAssign(code: int)

  /** The clear methods of the repository, and application methods that own no further objects. */
  datatype ClearExec = ObjectClear | ErrorClear | AlphaClear | DeltaClear | UserClear

  /** One entry of a method list: a method, and the class that defined it. */
  datatype Method<E> = Method(ty: TypeId, exec: E)

  /** The address of a packed interface table. */
  type TableId = nat

  /** A finished class structure. An absent method list is the empty one. */
  datatype Class = Class(super: Option<TypeId>,
                         init: seq<Method<InitExec>>,
                         assign: seq<Method<AssignExec>>,
                         clear: seq<Method<ClearExec>>,
                         interfaces: Option<TableId>)

  type Types = map<TypeId, Class>

  /** What an init-type callback passes to `y_init_type`: the super class and the class's own
      methods, each of which may be absent; and what it stores as the class's interfaces afterwards, which is
      the result of packing a list and may be NULL, unless it leaves the member alone. */
  datatype Def = Def(super: Option<TypeId>, init: Option<InitExec>, assign: Option<AssignExec>,
                     clear: Option<ClearExec>, interfaces: Option<Option<TableId>>)

  // ---------------------------------------------------------------------------------------
  // The class hierarchy
  // ---------------------------------------------------------------------------------------

  /** Following `super` from `ty` ends at a class without one, and never meets a class twice. */
  ghost predicate Rooted(types: Types, ty: TypeId)
    decreases |types|
  {
    ty in types && (types[ty].super.None? || Rooted(types - {ty}, types[ty].super.value))
  }

  /** The classes from the root down to `ty`. */
  ghost function Ancestry(types: Types, ty: TypeId): seq<TypeId>
    decreases |types|
  {
    if ty !in types then []
    else (if types[ty].super.None? then [] else Ancestry(types - {ty}, types[ty].super.value)) + [ty]
  }

  /** `y_is_a` on the class of an instance: `ty` is `expected` or descends from it. */
  predicate IsA(types: Types, ty: TypeId, expected: TypeId)
    decreases |types|
  {
    ty in types
    && (ty == expected
        || (types[ty].super.Some? && IsA(types - {ty}, types[ty].super.value, expected)))
  }

  /** The search up the hierarchy succeeds exactly on the ancestors. */
  lemma {:induction false} IsAIffAncestor(types: Types, ty: TypeId, expected: TypeId)
    ensures IsA(types, ty, expected) <==> expected in Ancestry(types, ty)
    decreases |types|
  {
    if ty in types && types[ty].super.Some? {
      IsAIffAncestor(types - {ty}, types[ty].super.value, expected);
    }
  }

  /** No class occurs twice along an ancestry. */
  ghost predicate Distinct<T(!new)>(s: seq<T>) {
    forall i, j :: 0 <= i < j < |s| ==> s[i] != s[j]
  }

  lemma {:induction false} AncestryDistinct(types: Types, ty: TypeId)
    ensures Distinct(Ancestry(types, ty))
    ensures forall x :: x in Ancestry(types, ty) ==> x in types
    decreases |types|
  {
    if ty in types && types[ty].super.Some? {
      AncestryDistinct(types - {ty}, types[ty].super.value);
    }
  }

  /** Adding a class that `ty` does not descend from leaves the ancestry of `ty` alone. */
  lemma {:induction false} AncestryKept(types: Types, ty: TypeId, extra: TypeId, cls: Class)
    requires Rooted(types, ty) && extra !in types
    ensures Rooted(types[extra := cls], ty)
    ensures Ancestry(types[extra := cls], ty) == Ancestry(types, ty)
    decreases |types|
  {
    if types[ty].super.Some? {
      assert types[extra := cls] - {ty} == (types - {ty})[extra := cls];
      AncestryKept(types - {ty}, types[ty].super.value, extra, cls);
    }
  }

  /** A class just added on top of a rooted one is rooted, and its ancestry is that of its super
      class followed by itself. */
  lemma AncestryAdded(types: Types, ty: TypeId, cls: Class)
    requires ty !in types
    requires cls.super.Some? ==> Rooted(types, cls.super.value)
    ensures Rooted(types[ty := cls], ty)
    ensures Ancestry(types[ty := cls], ty)
            == (if cls.super.None? then [] else Ancestry(types, cls.super.value)) + [ty]
  {
    assert types[ty := cls] - {ty} == types;
  }

  // ---------------------------------------------------------------------------------------
  // Type construction
  // ---------------------------------------------------------------------------------------

  /** `y_MethodList_extend`: a copy of the existing list with one entry more. */
  function Extend<E>(existing: seq<Method<E>>, ty: TypeId, exec: E): seq<Method<E>> {
    existing + [Method(ty, exec)]
  }

  /** One list of a new class: extended when the class defines the method, otherwise left as the
      copy of the super class's structure made it. */
  function Inherit<E>(existing: seq<Method<E>>, ty: TypeId, own: Option<E>): seq<Method<E>> {
    if own.Some? then Extend(existing, ty, own.value) else existing
  }

  /** The structure copied before `y_init_type` runs: the super class's, or a zeroed one. */
  function SuperClass(types: Types, super: Option<TypeId>): Class {
    if super.Some? && super.value in types then types[super.value] else Class(None, [], [], [], None)
  }

  /** `y_Runtime_init_type` with a callback that calls `y_init_type`. */
  function InitClass(types: Types, ty: TypeId, def: Def): Class {
    var base := SuperClass(types, def.super);
    Class(def.super, Inherit(base.init, ty, def.init), Inherit(base.assign, ty, def.assign),
          Inherit(base.clear, ty, def.clear), if def.interfaces.Some? then def.interfaces.value else base.interfaces)
  }

  /** A type is built once, after its super type. */
  ghost predicate CanBuild(defs: map<TypeId, Def>, ty: TypeId, def: Def) {
    ty !in defs && (def.super.Some? ==> def.super.value in defs)
  }

  /** Building several types, one after the other. */
  function BuildAll(types: Types, order: seq<(TypeId, Def)>): Types
    decreases |order|
  {
    if order == [] then types
    else BuildAll(types[order[0].0 := InitClass(types, order[0].0, order[0].1)], order[1..])
  }

  ghost function DefsOf(defs: map<TypeId, Def>, order: seq<(TypeId, Def)>): map<TypeId, Def>
    decreases |order|
  {
    if order == [] then defs else DefsOf(defs[order[0].0 := order[0].1], order[1..])
  }

  ghost predicate GoodOrder(defs: map<TypeId, Def>, order: seq<(TypeId, Def)>)
    decreases |order|
  {
    order == [] || (CanBuild(defs, order[0].0, order[0].1)
                    && GoodOrder(defs[order[0].0 := order[0].1], order[1..]))
  }

  /** The classes' own methods of one kind. */
  type Own<E> = map<TypeId, Option<E>>

  ghost function Inits(defs: map<TypeId, Def>): Own<InitExec> {
    map ty | ty in defs :: defs[ty].init
  }

  ghost function Assigns(defs: map<TypeId, Def>): Own<AssignExec> {
    map ty | ty in defs :: defs[ty].assign
  }

  ghost function Clears(defs: map<TypeId, Def>): Own<ClearExec> {
    map ty | ty in defs :: defs[ty].clear
  }

  /** The chain that the headers describe: along `line`, the classes that define the method. */
  ghost function Chain<E>(own: Own<E>, line: seq<TypeId>): seq<Method<E>> {
    if line == [] then []
    else
      var last := line[|line| - 1];
      Chain(own, line[..|line| - 1])
      + (if last in own && own[last].Some? then [Method(last, own[last].value)] else [])
  }

  ghost function Packs(defs: map<TypeId, Def>): Own<Option<TableId>> {
    map ty | ty in defs :: defs[ty].interfaces
  }

  /** The last class of `line` that packed an interface table, if one did. */
  ghost function LastPacker(own: Own<Option<TableId>>, line: seq<TypeId>): Option<TypeId> {
    if line == [] then None
    else
      var last := line[|line| - 1];
      if last in own && own[last].Some? then Some(last) else LastPacker(own, line[..|line| - 1])
  }

  /** The table of the nearest class up `line` that packed one. */
  ghost function NearestTable(own: Own<Option<TableId>>, line: seq<TypeId>): Option<TableId> {
    var packer := LastPacker(own, line);
    if packer.Some? && packer.value in own && own[packer.value].Some? then own[packer.value].value else None
  }

  /** The finished structure of `ty` is what its definition and its ancestry say. */
  ghost predicate BuiltAs(types: Types, defs: map<TypeId, Def>, ty: TypeId) {
    && ty in types && ty in defs
    && types[ty].super == defs[ty].super
    && Rooted(types, ty)
    && types[ty].init == Chain(Inits(defs), Ancestry(types, ty))
    && types[ty].assign == Chain(Assigns(defs), Ancestry(types, ty))
    && types[ty].clear == Chain(Clears(defs), Ancestry(types, ty))
    && types[ty].interfaces == NearestTable(Packs(defs), Ancestry(types, ty))
  }

  ghost predicate Built(types: Types, defs: map<TypeId, Def>) {
    types.Keys == defs.Keys && forall ty {:trigger BuiltAs(types, defs, ty)} :: ty in types ==> BuiltAs(types, defs, ty)
  }

  /** A chain looks only at the classes in its line. */
  lemma {:induction false} ChainKept<E>(own: Own<E>, more: Own<E>, line: seq<TypeId>)
    requires forall x :: x in line ==> x in own && x in more && own[x] == more[x]
    ensures Chain(own, line) == Chain(more, line)
    decreases |line|
  {
    if line != [] {
      ChainKept(own, more, line[..|line| - 1]);
    }
  }

  /** So does the search for the nearest table. */
  lemma {:induction false} LastPackerKept(own: Own<Option<TableId>>, more: Own<Option<TableId>>, line: seq<TypeId>)
    requires forall x :: x in line ==> x in own && x in more && own[x] == more[x]
    ensures LastPacker(own, line) == LastPacker(more, line)
    ensures LastPacker(own, line).Some? ==> LastPacker(own, line).value in line
    decreases |line|
  {
    if line != [] {
      LastPackerKept(own, more, line[..|line| - 1]);
    }
  }

  lemma NearestTableKept(own: Own<Option<TableId>>, more: Own<Option<TableId>>, line: seq<TypeId>)
    requires forall x :: x in line ==> x in own && x in more && own[x] == more[x]
    ensures NearestTable(own, line) == NearestTable(more, line)
  {
    LastPackerKept(own, more, line);
  }

  /** Building one more type leaves every earlier type as it was. */
  lemma EarlierTypeKept(types: Types, defs: map<TypeId, Def>, ty: TypeId, def: Def, earlier: TypeId)
    requires types.Keys == defs.Keys && BuiltAs(types, defs, earlier) && CanBuild(defs, ty, def)
    ensures BuiltAs(types[ty := InitClass(types, ty, def)], defs[ty := def], earlier)
  {
    var line := Ancestry(types, earlier);
    AncestryDistinct(types, earlier);
    AncestryKept(types, earlier, ty, InitClass(types, ty, def));
    ChainKept(Inits(defs), Inits(defs[ty := def]), line);
    ChainKept(Assigns(defs), Assigns(defs[ty := def]), line);
    ChainKept(Clears(defs), Clears(defs[ty := def]), line);
    NearestTableKept(Packs(defs), Packs(defs[ty := def]), line);
  }

  /** What a new structure starts from, with `upper` above it. */
  ghost predicate StartsFrom(base: Class, defs: map<TypeId, Def>, upper: seq<TypeId>) {
    && base.init == Chain(Inits(defs), upper)
    && base.assign == Chain(Assigns(defs), upper)
    && base.clear == Chain(Clears(defs), upper)
    && base.interfaces == NearestTable(Packs(defs), upper)
  }

  /** The line above a new type, with the lists its structure starts from. */
  lemma SuperClassChains(types: Types, defs: map<TypeId, Def>, super: Option<TypeId>)
    returns (upper: seq<TypeId>)
    requires Built(types, defs) && (super.Some? ==> super.value in defs)
    ensures upper == if super.None? then [] else Ancestry(types, super.value)
    ensures super.Some? ==> Rooted(types, super.value)
    ensures forall x :: x in upper ==> x in types
    ensures StartsFrom(SuperClass(types, super), defs, upper)
  {
    if super.None? {
      upper := [];
    } else {
      assert BuiltAs(types, defs, super.value);
      upper := Ancestry(types, super.value);
      AncestryDistinct(types, super.value);
    }
  }

  /** One list of the new structure, given the one it starts from. */
  lemma NewListBuilt<E>(own: Own<E>, more: Own<E>, upper: seq<TypeId>, ty: TypeId)
    requires ty in more && forall x :: x in upper ==> x in own && x in more && own[x] == more[x]
    ensures Inherit(Chain(own, upper), ty, more[ty]) == Chain(more, upper + [ty])
  {
    ChainKept(own, more, upper);
    assert (upper + [ty])[..|upper|] == upper;
  }

  /** The interfaces of the new structure. */
  lemma NewTableBuilt(own: Own<Option<TableId>>, more: Own<Option<TableId>>, upper: seq<TypeId>, ty: TypeId)
    requires ty in more && forall x :: x in upper ==> x in own && x in more && own[x] == more[x]
    ensures NearestTable(more, upper + [ty]) == if more[ty].Some? then more[ty].value else NearestTable(own, upper)
  {
    NearestTableKept(own, more, upper);
    assert (upper + [ty])[..|upper|] == upper;
  }

  lemma NewTypeFrom(types: Types, defs: map<TypeId, Def>, ty: TypeId, def: Def, upper: seq<TypeId>)
    requires ty !in types && types.Keys == defs.Keys
    requires upper == if def.super.None? then [] else Ancestry(types, def.super.value)
    requires def.super.Some? ==> Rooted(types, def.super.value)
    requires forall x :: x in upper ==> x in types
    requires StartsFrom(SuperClass(types, def.super), defs, upper)
    ensures BuiltAs(types[ty := InitClass(types, ty, def)], defs[ty := def], ty)
  {
    NewListBuilt(Inits(defs), Inits(defs[ty := def]), upper, ty);
    NewListBuilt(Assigns(defs), Assigns(defs[ty := def]), upper, ty);
    NewListBuilt(Clears(defs), Clears(defs[ty := def]), upper, ty);
    NewTableBuilt(Packs(defs), Packs(defs[ty := def]), upper, ty);
    hide NearestTable, Chain;
    AncestryAdded(types, ty, InitClass(types, ty, def));
  }

  /** The new type itself. */
  lemma NewTypeBuilt(types: Types, defs: map<TypeId, Def>, ty: TypeId, def: Def)
    requires Built(types, defs) && CanBuild(defs, ty, def)
    ensures BuiltAs(types[ty := InitClass(types, ty, def)], defs[ty := def], ty)
  {
    var upper := SuperClassChains(types, defs, def.super);
    NewTypeFrom(types, defs, ty, def, upper);
  }

  /** One call of `y_Runtime_init_type` keeps every class as its definition says. */
  lemma BuildOne(types: Types, defs: map<TypeId, Def>, ty: TypeId, def: Def)
    requires Built(types, defs) && CanBuild(defs, ty, def)
    ensures Built(types[ty := InitClass(types, ty, def)], defs[ty := def])
  {
    var more := types[ty := InitClass(types, ty, def)];
    NewTypeBuilt(types, defs, ty, def);
    forall x | x in types
      ensures BuiltAs(more, defs[ty := def], x)
    {
      assert BuiltAs(types, defs, x);
      EarlierTypeKept(types, defs, ty, def, x);
    }
  }

  /** Every class that the runtime builds carries, in each of its three lists, exactly the methods
      defined along its ancestry, from the root down, whether it extended the list or inherited it
      by the copy of the structure. */
  lemma {:induction false} BuildAllBuilds(types: Types, defs: map<TypeId, Def>, order: seq<(TypeId, Def)>)
    requires Built(types, defs) && GoodOrder(defs, order)
    ensures Built(BuildAll(types, order), DefsOf(defs, order))
    decreases |order|
  {
    if order != [] {
      var ty, def := order[0].0, order[0].1;
      var more, moreDefs := types[ty := InitClass(types, ty, def)], defs[ty := def];
      BuildOne(types, defs, ty, def);
      BuildAllBuilds(more, moreDefs, order[1..]);
    }
  }

  // ---------------------------------------------------------------------------------------
  // What the object methods rely on
  // ---------------------------------------------------------------------------------------

  /** What a chain holds. */
  lemma {:induction false} InChain<E>(own: Own<E>, line: seq<TypeId>, m: Method<E>)
    ensures m in Chain(own, line) <==> m.ty in line && m.ty in own && own[m.ty] == Some(m.exec)
    decreases |line|
  {
    if line != [] {
      InChain(own, line[..|line| - 1], m);
      assert line == line[..|line| - 1] + [line[|line| - 1]];
    }
  }

  /** Every entry of a list belongs to an ancestor, and is that ancestor's own method. */
  lemma {:induction false} EntriesAreAncestors(types: Types, defs: map<TypeId, Def>, ty: TypeId)
    requires BuiltAs(types, defs, ty)
    ensures forall m :: m in types[ty].init <==>
              IsA(types, ty, m.ty) && m.ty in defs && defs[m.ty].init == Some(m.exec)
    ensures forall m :: m in types[ty].assign <==>
              IsA(types, ty, m.ty) && m.ty in defs && defs[m.ty].assign == Some(m.exec)
    ensures forall m :: m in types[ty].clear <==>
              IsA(types, ty, m.ty) && m.ty in defs && defs[m.ty].clear == Some(m.exec)
  {
    var line := Ancestry(types, ty);
    forall m: Method<InitExec>
      ensures m in types[ty].init <==> IsA(types, ty, m.ty) && m.ty in defs && defs[m.ty].init == Some(m.exec)
    {
      InChain(Inits(defs), line, m);
      IsAIffAncestor(types, ty, m.ty);
    }
    forall m: Method<AssignExec>
      ensures m in types[ty].assign <==> IsA(types, ty, m.ty) && m.ty in defs && defs[m.ty].assign == Some(m.exec)
    {
      InChain(Assigns(defs), line, m);
      IsAIffAncestor(types, ty, m.ty);
    }
    forall m: Method<ClearExec>
      ensures m in types[ty].clear <==> IsA(types, ty, m.ty) && m.ty in defs && defs[m.ty].clear == Some(m.exec)
    {
      InChain(Clears(defs), line, m);
      IsAIffAncestor(types, ty, m.ty);
    }
  }

  /** No class defines two entries of a method list. */
  ghost predicate DistinctOwners<E>(list: seq<Method<E>>) {
    forall i, j :: 0 <= i < j < |list| ==> list[i].ty != list[j].ty
  }

  lemma {:induction false} ChainDistinct<E>(own: Own<E>, line: seq<TypeId>)
    requires Distinct(line)
    ensures DistinctOwners(Chain(own, line))
    decreases |line|
  {
    if line != [] {
      var rest := line[..|line| - 1];
      ChainDistinct(own, rest);
      var chain := Chain(own, rest);
      forall i | 0 <= i < |chain|
        ensures chain[i].ty in rest
      {
        InChain(own, rest, chain[i]);
      }
    }
  }

  /** The arguments that each class of the repository passes to `y_init_type`; an application's
      class has a super class and any of the application methods. */
  ghost predicate DeclaredAs(ty: TypeId, def: Def) {
    match ty
    case ObjectT => def == Def(None, None, None, Some(ObjectClear), None)
    case WeakRefT => def == Def(Some(ObjectT), None, None, None, None)
    case ErrorT => def == Def(Some(ObjectT), None, None, Some(ErrorClear), None)
    case AlphaT => def == Def(Some(ObjectT), None, Some(AlphaAssign), Some(AlphaClear), None)
    case DeltaT => def == Def(Some(AlphaT), Some(DeltaInit), Some(DeltaAssign), Some(DeltaClear), None)
    case GammaT => def == Def(Some(ObjectT), None, None, None, def.interfaces) && def.interfaces.Some?
    case UserT(_) =>
      && def.super.Some?
      && (def.init.None? || !def.init.value.DeltaInit?)
      && (def.assign.None? || !(def.assign.value.AlphaAssign? || def.assign.value.DeltaAssign?))
      && (def.clear.None? || def.clear.value.UserClear?)
  }

  ghost predicate Declared(defs: map<TypeId, Def>) {
    && ObjectT in defs && WeakRefT in defs && ErrorT in defs
    && forall ty :: ty in defs ==> DeclaredAs(ty, defs[ty])
  }

  /** The class that defines a given method of the repository. */
  ghost predicate ClearOwner(m: Method<ClearExec>) {
    match m.exec
    case ObjectClear => m.ty == ObjectT
    case ErrorClear => m.ty == ErrorT
    case AlphaClear => m.ty == AlphaT
    case DeltaClear => m.ty == DeltaT
    case UserClear => m.ty.UserT?
  }

  ghost predicate AssignOwner(m: Method<AssignExec>) {
    match m.exec
    case AlphaAssign => m.ty == AlphaT
    case DeltaAssign => m.ty == DeltaT
    case _ => m.ty.UserT?
  }

  ghost predicate InitOwner(m: Method<InitExec>) {
    match m.exec
    case DeltaInit => m.ty == DeltaT
    case _ => m.ty.UserT?
  }

  /** What the object methods rely on, list by list, for one class. */
  ghost predicate SoundClear(types: Types, ty: TypeId, clear: seq<Method<ClearExec>>) {
    && Method(ObjectT, ObjectClear) in clear
    && (IsA(types, ty, ErrorT) <==> Method(ErrorT, ErrorClear) in clear)
    && (IsA(types, ty, AlphaT) <==> Method(AlphaT, AlphaClear) in clear)
    && (IsA(types, ty, DeltaT) <==> Method(DeltaT, DeltaClear) in clear)
    && (forall m :: m in clear ==> ClearOwner(m) && m.ty in types)
  }

  ghost predicate SoundAssign(types: Types, ty: TypeId, assign: seq<Method<AssignExec>>) {
    && (IsA(types, ty, AlphaT) <==> Method(AlphaT, AlphaAssign) in assign)
    && (IsA(types, ty, DeltaT) <==> Method(DeltaT, DeltaAssign) in assign)
    && (forall m :: m in assign ==> AssignOwner(m) && m.ty in types)
  }

  ghost predicate SoundInit(types: Types, ty: TypeId, init: seq<Method<InitExec>>) {
    && (IsA(types, ty, DeltaT) <==> Method(DeltaT, DeltaInit) in init)
    && (forall m :: m in init ==> InitOwner(m) && m.ty in types)
  }

  ghost predicate SoundClass(types: Types, ty: TypeId)
    requires ty in types
  {
    && IsA(types, ty, ObjectT)
    && SoundClear(types, ty, types[ty].clear)
    && SoundAssign(types, ty, types[ty].assign)
    && SoundInit(types, ty, types[ty].init)
  }

  /** Weak references are neither errors nor Deltas, so that no class makes them own anything but a weak reference. */
  ghost predicate PlainWeakRefs(types: Types) {
    !IsA(types, WeakRefT, ErrorT) && !IsA(types, WeakRefT, DeltaT)
  }

  ghost predicate Sound(types: Types) {
    && ObjectT in types && WeakRefT in types && ErrorT in types
    && types[WeakRefT].init == [] && types[ErrorT].init == [] && PlainWeakRefs(types)
    && (forall ty :: ty in types ==> SoundClass(types, ty))
    && (forall ty :: ty in types ==> DistinctOwners(types[ty].assign))
  }

  /** Every class descends from Object, so that casting a non-null object to Object never fails. */
  lemma {:induction false} RootIsObject(types: Types, defs: map<TypeId, Def>, ty: TypeId)
    requires Declared(defs) && Rooted(types, ty)
    requires forall x :: x in types ==> x in defs && types[x].super == defs[x].super
    ensures IsA(types, ty, ObjectT)
    decreases |types|
  {
    assert DeclaredAs(ty, defs[ty]);
    if ty != ObjectT {
      RootIsObject(types - {ty}, defs, types[ty].super.value);
    }
  }

  /** The ancestors of a built class are declared classes. */
  lemma AncestorDeclared(types: Types, defs: map<TypeId, Def>, ty: TypeId, x: TypeId)
    requires Declared(defs) && types.Keys == defs.Keys && IsA(types, ty, x)
    ensures x in types && x in defs && DeclaredAs(x, defs[x])
  {
    AncestryDistinct(types, ty);
    IsAIffAncestor(types, ty, x);
  }

  lemma SupersAgree(types: Types, defs: map<TypeId, Def>)
    requires Built(types, defs)
    ensures forall x :: x in types ==> x in defs && types[x].super == defs[x].super
  {
    forall x | x in types
      ensures x in defs && types[x].super == defs[x].super
    {
      assert BuiltAs(types, defs, x);
    }
  }

  lemma {:induction false} ClearListSound(types: Types, defs: map<TypeId, Def>, ty: TypeId)
    requires Declared(defs) && types.Keys == defs.Keys && BuiltAs(types, defs, ty)
    requires IsA(types, ty, ObjectT)
    ensures SoundClear(types, ty, types[ty].clear)
  {
    EntriesAreAncestors(types, defs, ty);
    forall m | m in types[ty].clear
      ensures ClearOwner(m) && m.ty in types
    {
      AncestorDeclared(types, defs, ty, m.ty);
    }
    AncestorDeclared(types, defs, ty, ObjectT);
    if IsA(types, ty, ErrorT) { AncestorDeclared(types, defs, ty, ErrorT); }
    if IsA(types, ty, AlphaT) { AncestorDeclared(types, defs, ty, AlphaT); }
    if IsA(types, ty, DeltaT) { AncestorDeclared(types, defs, ty, DeltaT); }
  }

  lemma AssignListSound(types: Types, defs: map<TypeId, Def>, ty: TypeId)
    requires Declared(defs) && types.Keys == defs.Keys && BuiltAs(types, defs, ty)
    ensures SoundAssign(types, ty, types[ty].assign)
  {
    EntriesAreAncestors(types, defs, ty);
    forall m | m in types[ty].assign
      ensures AssignOwner(m) && m.ty in types
    {
      AncestorDeclared(types, defs, ty, m.ty);
    }
    if IsA(types, ty, AlphaT) { AncestorDeclared(types, defs, ty, AlphaT); }
    if IsA(types, ty, DeltaT) { AncestorDeclared(types, defs, ty, DeltaT); }
  }

  lemma InitListSound(types: Types, defs: map<TypeId, Def>, ty: TypeId)
    requires Declared(defs) && types.Keys == defs.Keys && BuiltAs(types, defs, ty)
    ensures SoundInit(types, ty, types[ty].init)
  {
    EntriesAreAncestors(types, defs, ty);
    forall m | m in types[ty].init
      ensures InitOwner(m) && m.ty in types
    {
      AncestorDeclared(types, defs, ty, m.ty);
    }
    if IsA(types, ty, DeltaT) { AncestorDeclared(types, defs, ty, DeltaT); }
  }

  lemma BuiltClassIsSound(types: Types, defs: map<TypeId, Def>, ty: TypeId)
    requires Declared(defs) && types.Keys == defs.Keys && BuiltAs(types, defs, ty)
    requires forall x :: x in types ==> x in defs && types[x].super == defs[x].super
    ensures SoundClass(types, ty)
  {
    RootIsObject(types, defs, ty);
    ClearListSound(types, defs, ty);
    AssignListSound(types, defs, ty);
    InitListSound(types, defs, ty);
  }

  /** A direct subclass of a root class has no further ancestors. */
  lemma TwoLevels(types: Types, ty: TypeId, x: TypeId)
    requires ty in types && ObjectT in types && ty != ObjectT
    requires types[ty].super == Some(ObjectT) && types[ObjectT].super == None
    requires IsA(types, ty, x)
    ensures x == ty || x == ObjectT
  {}

  /** The two classes that the library itself creates have no init methods. */
  lemma NoInitMethods(types: Types, defs: map<TypeId, Def>, ty: TypeId)
    requires Declared(defs) && types.Keys == defs.Keys && BuiltAs(types, defs, ty)
    requires forall x :: x in types ==> x in defs && types[x].super == defs[x].super
    requires ty == WeakRefT || ty == ErrorT
    ensures types[ty].init == []
  {
    assert DeclaredAs(ty, defs[ty]) && DeclaredAs(ObjectT, defs[ObjectT]);
    if types[ty].init != [] {
      var m := types[ty].init[0];
      EntriesAreAncestors(types, defs, ty);
      assert m in types[ty].init;
      TwoLevels(types, ty, m.ty);
      assert false;
    }
  }

  lemma WeakRefsArePlain(types: Types, defs: map<TypeId, Def>)
    requires Declared(defs) && BuiltAs(types, defs, WeakRefT) && BuiltAs(types, defs, ObjectT)
    ensures PlainWeakRefs(types)
  {
    assert DeclaredAs(WeakRefT, defs[WeakRefT]) && DeclaredAs(ObjectT, defs[ObjectT]);
    assert types[WeakRefT].super == Some(ObjectT) && types[ObjectT].super == None;
    assert (types - {WeakRefT})[ObjectT].super == None;
  }

  /** Any set of classes that the runtime builds from the repository's declarations is sound. */
  lemma BuiltIsSound(types: Types, defs: map<TypeId, Def>)
    requires Declared(defs) && Built(types, defs)
    ensures Sound(types)
  {
    SupersAgree(types, defs);
    forall ty | ty in types
      ensures SoundClass(types, ty)
    {
      assert BuiltAs(types, defs, ty);
      BuiltClassIsSound(types, defs, ty);
    }
    forall ty | ty in types
      ensures DistinctOwners(types[ty].assign)
    {
      assert BuiltAs(types, defs, ty);
      AncestryDistinct(types, ty);
      ChainDistinct(Assigns(defs), Ancestry(types, ty));
    }
    assert BuiltAs(types, defs, WeakRefT) && BuiltAs(types, defs, ErrorT) && BuiltAs(types, defs, ObjectT);
    WeakRefsArePlain(types, defs);
    NoInitMethods(types, defs, WeakRefT);
    NoInitMethods(types, defs, ErrorT);
  }

  /** The classes of the repository in the order in which they come to be built, with what their callbacks pass. */
  const REPOSITORY: seq<(TypeId, Def)> := [
    (ObjectT, Def(None, None, None, Some(ObjectClear), None)),
    (WeakRefT, Def(Some(ObjectT), None, None, None, None)),
    (ErrorT, Def(Some(ObjectT), None, None, Some(ErrorClear), None)),
    (AlphaT, Def(Some(ObjectT), None, Some(AlphaAssign), Some(AlphaClear), None)),
    (DeltaT, Def(Some(AlphaT), Some(DeltaInit), Some(DeltaAssign), Some(DeltaClear), None)),
    (GammaT, Def(Some(ObjectT), None, None, None, Some(Some(0))))
  ]

  /** The definitions of a series are those of its entries, on top of the earlier ones. */
  lemma {:induction false} DefsOfSeries(defs: map<TypeId, Def>, order: seq<(TypeId, Def)>)
    requires GoodOrder(defs, order)
    ensures forall ty :: ty in defs ==> ty in DefsOf(defs, order) && DefsOf(defs, order)[ty] == defs[ty]
    ensures forall i :: 0 <= i < |order| ==>
              order[i].0 in DefsOf(defs, order) && DefsOf(defs, order)[order[i].0] == order[i].1
    ensures forall ty :: ty in DefsOf(defs, order) ==>
              (ty in defs && DefsOf(defs, order)[ty] == defs[ty]) || (ty, DefsOf(defs, order)[ty]) in order
    decreases |order|
  {
    if order != [] {
      DefsOfSeries(defs[order[0].0 := order[0].1], order[1..]);
    }
  }

  /** Building the repository's classes in that order is possible, and yields sound classes. */
  lemma RepositoryIsSound()
    ensures GoodOrder(map[], REPOSITORY) && Declared(DefsOf(map[], REPOSITORY))
    ensures Built(BuildAll(map[], REPOSITORY), DefsOf(map[], REPOSITORY))
    ensures Sound(BuildAll(map[], REPOSITORY))
  {
    hide Built, Declared, Sound, GoodOrder, DefsOf, BuildAll, REPOSITORY;
    RepositoryOrder();
    assert Built(map[], map[]) by { NothingBuilt(); }
    BuildAllBuilds(map[], map[], REPOSITORY);
    RepositoryDeclared();
    BuiltIsSound(BuildAll(map[], REPOSITORY), DefsOf(map[], REPOSITORY));
  }

  lemma NothingBuilt()
    ensures Built(map[], map[])
  {}

  lemma RepositoryDeclared()
    requires GoodOrder(map[], REPOSITORY)
    ensures Declared(DefsOf(map[], REPOSITORY))
  {}

  lemma RepositoryOrder()
    ensures GoodOrder(map[], REPOSITORY)
  {}
}
