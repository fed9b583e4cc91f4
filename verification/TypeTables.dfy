/** Building class structures in place: `y_MethodList_extend` (yakka/MethodList.c), `y_init_type` and `y_is_a`
    (yakka/Object.c) and `y_Runtime_init_type` (yakka/Runtime.c). */
module TypeTables {
  import opened Options
  import opened Classes
  import Interfaces

  /** `y_MethodList` and its kin. A list is filled when it is made and never written to again. */
  class MethodList<E> {
    const methods: seq<Method<E>>

    constructor (methods: seq<Method<E>>)
      ensures this.methods == methods
    {
      this.methods := methods;
    }
  }

  /** A missing list is an empty one. */
  function Entries<E>(list: MethodList?<E>): seq<Method<E>> {
    if list == null then [] else list.methods
  }

  /** `y_MethodList_extend`: a new list with one entry more, copied from the existing one. */
  method ExtendList<E>(existing: MethodList?<E>, ty: TypeId, exec: E) returns (list: MethodList<E>)
    ensures fresh(list) && Entries(list) == Extend(Entries(existing), ty, exec)
  {
    var size := (if existing == null then 0 else |existing.methods|) + 1;
    var methods := new Method<E>[size](_ => Method(ty, exec));
    if existing != null {
      var i := 0;
      while i < |existing.methods|
        invariant 0 <= i <= |existing.methods|
        invariant forall k :: 0 <= k < i ==> methods[k] == existing.methods[k]
      {
        methods[i] := existing.methods[i];
        i := i + 1;
      }
    }
    methods[size - 1] := Method(ty, exec);
    list := new MethodList(methods[..]);
    assert methods[..] == Entries(existing) + [Method(ty, exec)];
  }

  /** `y_ObjectClass`; `id` stands for its address. */
  class ObjectClass {
    const id: TypeId
    var super: ObjectClass?
    var init: MethodList?<InitExec>
    var assign: MethodList?<AssignExec>
    var clear: MethodList?<ClearExec>
    var interfaces: Option<TableId>

    constructor (id: TypeId)
      ensures this.id == id && super == null && init == null && assign == null && clear == null && interfaces == None
    {
      this.id := id;
      super, init, assign, clear, interfaces := null, null, null, null, None;
    }

    ghost function Value(): Class
      reads this
    {
      Class(IdOf(super), Entries(init), Entries(assign), Entries(clear), interfaces)
    }
  }

  ghost function IdOf(c: ObjectClass?): Option<TypeId> {
    if c == null then None else Some(c.id)
  }

  /** The static variable in which a class keeps its own type. */
  class TypeLocation {
    var content: ObjectClass?

    constructor ()
      ensures content == null
    {
      content := null;
    }
  }

  /** The lists that a new class starts from. */
  ghost predicate Copied(c: ObjectClass, super: ObjectClass?)
    reads c, super
  {
    && c.init == (if super == null then null else super.init)
    && c.assign == (if super == null then null else super.assign)
    && c.clear == (if super == null then null else super.clear)
  }

  /** `y_init_type`, on a structure that starts as a copy of the super class's. */
  method FillType(c: ObjectClass, super: ObjectClass?, init: Option<InitExec>, assign: Option<AssignExec>,
                  clear: Option<ClearExec>)
    requires c != super && Copied(c, super)
    modifies c
    ensures c.super == super && c.interfaces == old(c.interfaces)
    ensures Entries(c.init) == Inherit(old(Entries(c.init)), c.id, init)
    ensures Entries(c.assign) == Inherit(old(Entries(c.assign)), c.id, assign)
    ensures Entries(c.clear) == Inherit(old(Entries(c.clear)), c.id, clear)
  {
    c.super := super;
    if init.Some? {
      c.init := ExtendList(if super == null then null else super.init, c.id, init.value);
    }
    if assign.Some? {
      c.assign := ExtendList(if super == null then null else super.assign, c.id, assign.value);
    }
    if clear.Some? {
      c.clear := ExtendList(if super == null then null else super.clear, c.id, clear.value);
    }
  }

  /** A new structure: the super class's copied over zeroes, and then filled in by the class's callback, which may
      store a packed interface table after it has called `y_init_type`. */
  method NewClass(ty: TypeId, super: ObjectClass?, init: Option<InitExec>, assign: Option<AssignExec>,
                  clear: Option<ClearExec>, interfaces: Option<Option<TableId>>)
    returns (c: ObjectClass)
    ensures fresh(c) && c.id == ty && c.super == super
    ensures Entries(c.init) == Inherit(if super == null then [] else Entries(super.init), ty, init)
    ensures Entries(c.assign) == Inherit(if super == null then [] else Entries(super.assign), ty, assign)
    ensures Entries(c.clear) == Inherit(if super == null then [] else Entries(super.clear), ty, clear)
    ensures c.interfaces
            == if interfaces.Some? then interfaces.value else if super == null then None else super.interfaces
  {
    c := new ObjectClass(ty);
    if super != null {
      c.super, c.init, c.assign, c.clear := super.super, super.init, super.assign, super.clear;
      c.interfaces := super.interfaces;
    }
    FillType(c, super, init, assign, clear);
    if interfaces.Some? {
      c.interfaces := interfaces.value;
    }
  }

  /** The contents of the table that a class's `interfaces` member points at. */
  function TableAt(tables: map<TableId, seq<Option<Interfaces.VTable>>>, t: Option<TableId>)
    : Option<seq<Option<Interfaces.VTable>>>
  {
    if t.Some? && t.value in tables then Some(tables[t.value]) else None
  }

  /** A search that finds a class finds one that packed a table. */
  lemma {:induction false} LastPackerPacks(own: Own<Option<TableId>>, line: seq<TypeId>)
    ensures LastPacker(own, line).Some? ==>
              var p := LastPacker(own, line).value; p in line && p in own && own[p].Some?
    decreases |line|
  {
    if line != [] {
      LastPackerPacks(own, line[..|line| - 1]);
    }
  }

  /** Looking an interface up on an instance gives what the nearest class up its ancestry that packed a list says for
      the name, and NULL when none did: the copy of the structure passes the table on to every subclass that does not
      pack a list of its own. */
  lemma InheritedInterfaces(types: Types, defs: map<TypeId, Def>, ty: TypeId, ids: Interfaces.Ids, name: string,
                            tables: map<TableId, seq<Option<Interfaces.VTable>>>,
                            specs: map<TypeId, seq<Interfaces.Spec>>)
    requires BuiltAs(types, defs, ty) && name in ids.of
    requires forall t :: t in defs && defs[t].interfaces.Some? ==>
               t in specs && Interfaces.Packed(TableAt(tables, defs[t].interfaces.value), ids, specs[t])
    ensures var packer := LastPacker(Packs(defs), Ancestry(types, ty));
            && (packer.Some? ==> packer.value in specs)
            && Interfaces.At(TableAt(tables, types[ty].interfaces), ids.of[name])
               == if packer.Some? then Interfaces.LastVtable(specs[packer.value], name) else None
  {
    LastPackerPacks(Packs(defs), Ancestry(types, ty));
  }

  lemma BuiltRooted(types: Types, defs: map<TypeId, Def>, ty: TypeId)
    requires Built(types, defs) && ty in types
    ensures Rooted(types, ty)
  {
    hide Rooted, Chain, Ancestry;
    assert BuiltAs(types, defs, ty);
  }

  lemma BuiltKeys(types: Types, defs: map<TypeId, Def>)
    requires Built(types, defs)
    ensures types.Keys == defs.Keys
  {}

  class TypeTable {
    /** The finished class structures, by address. */
    ghost var classes: map<TypeId, ObjectClass>
    /** What each of them was built from. */
    ghost var defs: map<TypeId, Def>

    ghost predicate Has(c: ObjectClass)
      reads this
    {
      c.id in classes && classes[c.id] == c
    }

    ghost function View(): Types
      reads this, classes.Values
    {
      map t | t in classes :: classes[t].Value()
    }

    /** Every class is what its definition and its ancestry say, and its super class is another one of the table. */
    ghost predicate Valid()
      reads this, classes.Values
    {
      && (forall t :: t in classes ==> classes[t].id == t && (classes[t].super != null ==> Has(classes[t].super)))
      && Built(View(), defs)
    }

    constructor ()
      ensures Valid() && View() == map[] && defs == map[]
    {
      classes := map[];
      defs := map[];
      new;
      assert View() == map[];
    }

    /** `y_Runtime_init_type`: the new class, or NULL when the location is filled already. */
    method InitType(ty: TypeId, super: ObjectClass?, init: Option<InitExec>, assign: Option<AssignExec>,
                    clear: Option<ClearExec>, interfaces: Option<Option<TableId>>, location: TypeLocation)
      returns (made: ObjectClass?)
      requires Valid() && ty !in classes && (super != null ==> Has(super))
      modifies this, location
      ensures Valid()
      ensures old(location.content) != null ==>
                made == null && View() == old(View()) && defs == old(defs) && location.content == old(location.content)
      ensures old(location.content) == null ==>
                && made != null && location.content == made && made.id == ty && Has(made)
                && var def := Def(IdOf(super), init, assign, clear, interfaces);
                   defs == old(defs)[ty := def] && View() == old(View())[ty := InitClass(old(View()), ty, def)]
    {
      hide Built, Chain, Ancestry;
      made := null;
      if location.content == null {
        ghost var types, def := View(), Def(IdOf(super), init, assign, clear, interfaces);
        BuiltKeys(types, defs);
        BuildOne(types, defs, ty, def);
        made := NewClass(ty, super, init, assign, clear, interfaces);
        assert super != null ==> types[super.id] == super.Value();
        assert made.Value() == InitClass(types, ty, def);
        location.content := made;
        Enter(made, def);
      }
    }

    /** The new class joins the table. */
    ghost method Enter(c: ObjectClass, def: Def)
      requires Valid() && c.id !in classes && (c.super != null ==> Has(c.super))
      requires c.Value() == InitClass(View(), c.id, def)
      requires Built(View()[c.id := InitClass(View(), c.id, def)], defs[c.id := def])
      modifies this
      ensures Valid() && Has(c) && defs == old(defs)[c.id := def]
      ensures View() == old(View())[c.id := InitClass(old(View()), c.id, def)]
    {
      hide Built, Chain, Ancestry, InitClass, ObjectClass.Value;
      ghost var types := View();
      classes := classes[c.id := c];
      defs := defs[c.id := def];
      assert View() == types[c.id := InitClass(types, c.id, def)];
    }

    /** `y_is_a`: following `super` finds the expected class exactly when it is the instance's class or an ancestor
        of it. */
    method IsAncestor(instanceType: ObjectClass?, expected: ObjectClass?) returns (found: bool)
      requires Valid() && (instanceType != null ==> Has(instanceType)) && (expected != null ==> Has(expected))
      ensures found <==> instanceType != null && expected != null && IsA(View(), instanceType.id, expected.id)
      ensures found <==> instanceType != null && expected != null && expected.id in Ancestry(View(), instanceType.id)
    {
      if instanceType == null || expected == null {
        return false;
      }
      IsAIffAncestor(View(), instanceType.id, expected.id);
      BuiltRooted(View(), defs, instanceType.id);
      hide Built, Ancestry;
      found := false;
      var actual: ObjectClass? := instanceType;
      ghost var left := View();
      while actual != null && !found
        invariant actual != null ==> Has(actual) && Rooted(left, actual.id)
        invariant forall t :: t in left ==> t in View() && left[t] == View()[t]
        invariant IsA(View(), instanceType.id, expected.id)
                  <==> found || (actual != null && IsA(left, actual.id, expected.id))
        decreases |left|
      {
        assert left[actual.id] == View()[actual.id] && View()[actual.id].super == IdOf(actual.super);
        found := actual == expected;
        left := left - {actual.id};
        actual := actual.super;
      }
    }
  }
}
