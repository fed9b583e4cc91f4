/** Interface identifiers and the sparse tables of implementations (yakka/Runtime.c, yakka/Interface.h and the
    lookups of yakka/Object.c). */
module Interfaces {
  import opened Options

  /** The address of a vtable. */
  type VTable = nat

  /** One entry of the array that a class passes; a NULL name ends the array. */
  datatype InterfaceSpec = InterfaceSpec(name: Option<string>, vtable: Option<VTable>)

  // ---------------------------------------------------------------------------------------
  // Identifiers
  // ---------------------------------------------------------------------------------------

  /** `interface_ids` and `interface_size`. */
  datatype Ids = Ids(of: map<string, nat>, size: nat)

  ghost predicate Taken(ids: Ids, k: nat) {
    exists n :: n in ids.of && ids.of[n] == k
  }

  /** The identifiers are 1 to `size`, each with one name. */
  ghost predicate Numbered(ids: Ids) {
    && (forall n :: n in ids.of ==> 1 <= ids.of[n] <= ids.size)
    && (forall n, m :: n in ids.of && m in ids.of && ids.of[n] == ids.of[m] ==> n == m)
    && (forall k: nat :: 1 <= k <= ids.size ==> Taken(ids, k))
  }

  /** The identifiers after asking for the one of `name`. */
  function Register(ids: Ids, name: string): Ids {
    if name in ids.of then ids else Ids(ids.of[name := ids.size + 1], ids.size + 1)
  }

  /** Nothing that has an identifier ever gets another. */
  ghost predicate Extends(later: Ids, ids: Ids) {
    && ids.size <= later.size
    && (forall n :: n in ids.of ==> n in later.of && later.of[n] == ids.of[n])
    && (forall n :: n in later.of && n !in ids.of ==> later.of[n] > ids.size)
  }

  lemma RegisterNumbers(ids: Ids, name: string)
    requires Numbered(ids)
    ensures Numbered(Register(ids, name)) && Extends(Register(ids, name), ids) && name in Register(ids, name).of
  {
    var later := Register(ids, name);
    forall k: nat | 1 <= k <= later.size
      ensures Taken(later, k)
    {
      if k <= ids.size {
        assert Taken(ids, k);
        var n :| n in ids.of && ids.of[n] == k;
        assert later.of[n] == k;
      } else {
        assert later.of[name] == k;
      }
    }
  }

  /** The identifiers after asking for those of several names. */
  function RegisterAll(ids: Ids, names: seq<string>): Ids
    decreases |names|
  {
    if names == [] then ids else Register(RegisterAll(ids, names[..|names| - 1]), names[|names| - 1])
  }

  /** However many names are asked for, the registry stays a numbering of its names from 1 on, the names it
      had keep their identifiers, and every name asked for has one. */
  lemma {:induction false} RegisterAllNumbers(ids: Ids, names: seq<string>)
    requires Numbered(ids)
    ensures Numbered(RegisterAll(ids, names)) && Extends(RegisterAll(ids, names), ids)
    ensures forall n :: n in names ==> n in RegisterAll(ids, names).of
    decreases |names|
  {
    hide Numbered, Extends, Register;
    ExtendsRefl(ids);
    if names != [] {
      var rest, last := names[..|names| - 1], names[|names| - 1];
      var ids1 := RegisterAll(ids, rest);
      RegisterAllNumbers(ids, rest);
      RegisterNumbers(ids1, last);
      ExtendsTrans(ids, ids1, Register(ids1, last));
      assert names == rest + [last];
    }
  }

  lemma ExtendsRefl(ids: Ids)
    ensures Extends(ids, ids)
  {}

  lemma ExtendsTrans(ids0: Ids, ids1: Ids, ids2: Ids)
    requires Extends(ids1, ids0) && Extends(ids2, ids1)
    ensures Extends(ids2, ids0) && forall n :: n in ids1.of ==> n in ids2.of
  {}

  lemma {:induction false} RegisterAllSnoc(ids: Ids, names: seq<string>, i: nat)
    requires i < |names|
    ensures RegisterAll(ids, names[..i + 1]) == Register(RegisterAll(ids, names[..i]), names[i])
    ensures names[..i + 1] == names[..i] + [names[i]]
  {
    assert names[..i + 1][..i] == names[..i];
  }

  /** Names that have identifiers already may be asked for again. */
  lemma {:induction false} RegisterAllAgain(ids: Ids, names: seq<string>)
    requires forall n :: n in names ==> n in ids.of
    ensures RegisterAll(ids, names) == ids
    decreases |names|
  {
    if names != [] {
      RegisterAllAgain(ids, names[..|names| - 1]);
    }
  }

  /** Each of the names has an identifier, and none is larger than `maxId`. */
  ghost predicate Below(ids: Ids, names: seq<string>, maxId: nat) {
    forall n :: n in names ==> n in ids.of && ids.of[n] <= maxId
  }

  lemma BelowSnoc(ids: Ids, names: seq<string>, maxId: nat, name: string)
    requires Below(ids, names, maxId) && Extends(Register(ids, name), ids)
    ensures name in Register(ids, name).of
    ensures Below(Register(ids, name), names + [name],
                  if Register(ids, name).of[name] > maxId then Register(ids, name).of[name] else maxId)
  {}

  // ---------------------------------------------------------------------------------------
  // Specifications and tables
  // ---------------------------------------------------------------------------------------

  /** A specification with its name. */
  type Spec = (string, Option<VTable>)

  /** The specifications before the terminating entry. */
  function Listed(a: seq<InterfaceSpec>): seq<Spec>
    decreases |a|
  {
    if a == [] || a[0].name.None? then [] else [(a[0].name.value, a[0].vtable)] + Listed(a[1..])
  }

  ghost predicate Terminated(a: seq<InterfaceSpec>) {
    exists k :: 0 <= k < |a| && a[k].name.None?
  }

  lemma {:induction false} ListedAt(a: seq<InterfaceSpec>, i: nat)
    requires Terminated(a)
    ensures |Listed(a)| < |a| && a[|Listed(a)|].name.None?
    ensures i < |Listed(a)| ==> a[i].name.Some? && Listed(a)[i] == (a[i].name.value, a[i].vtable)
    decreases |a|
  {
    if a[0].name.Some? {
      assert Terminated(a[1..]) by {
        var k :| 0 <= k < |a| && a[k].name.None?;
        assert a[1..][k - 1].name.None?;
      }
      ListedAt(a[1..], if i == 0 then 0 else i - 1);
    }
  }

  function Names(specs: seq<Spec>): (names: seq<string>)
    ensures |names| == |specs| && forall i :: 0 <= i < |specs| ==> names[i] == specs[i].0
    decreases |specs|
  {
    if specs == [] then [] else Names(specs[..|specs| - 1]) + [specs[|specs| - 1].0]
  }

  /** The implementation that the list gives for `name`: that of the last specification with the name. */
  function LastVtable(specs: seq<Spec>, name: string): Option<VTable>
    decreases |specs|
  {
    if specs == [] then None
    else if specs[|specs| - 1].0 == name then specs[|specs| - 1].1
    else LastVtable(specs[..|specs| - 1], name)
  }

  lemma {:induction false} LastVtableUnnamed(specs: seq<Spec>, name: string)
    requires forall i :: 0 <= i < |specs| ==> specs[i].0 != name
    ensures LastVtable(specs, name) == None
    decreases |specs|
  {
    if specs != [] {
      LastVtableUnnamed(specs[..|specs| - 1], name);
    }
  }

  /** What `y_get_implementation` reads from a packed table, or from none. */
  function At(table: Option<seq<Option<VTable>>>, id: nat): Option<VTable> {
    if table.Some? && |table.value| > id then table.value[id] else None
  }

  /** The table holds, at the identifier of every name, what the list gives for it; and nothing else. */
  ghost predicate Packed(table: Option<seq<Option<VTable>>>, ids: Ids, specs: seq<Spec>) {
    && (forall n :: n in ids.of ==> At(table, ids.of[n]) == LastVtable(specs, n))
    && (table.Some? ==> |table.value| <= ids.size + 1)
  }

  /** A table packed once stays right: for every name, also one that had no identifier when the table was
      packed, the table and the identifier that the name has or gets agree with the list. */
  lemma PackedLater(table: Option<seq<Option<VTable>>>, ids: Ids, specs: seq<Spec>, later: Ids)
    requires Packed(table, ids, specs) && Extends(later, ids)
    requires forall i :: 0 <= i < |specs| ==> specs[i].0 in ids.of
    ensures Packed(table, later, specs)
  {
    forall n | n in later.of
      ensures At(table, later.of[n]) == LastVtable(specs, n)
    {
      if n !in ids.of {
        LastVtableUnnamed(specs, n);
      }
    }
  }

  /** Storing one more specification's vtable at the identifier of its name. */
  lemma PackOne(table: seq<Option<VTable>>, ids: Ids, specs: seq<Spec>, i: nat)
    requires Numbered(ids) && i < |specs| && specs[i].0 in ids.of && ids.of[specs[i].0] < |table|
    requires Packed(Some(table), ids, specs[..i])
    ensures Packed(Some(table[ids.of[specs[i].0] := specs[i].1]), ids, specs[..i + 1])
  {
    assert specs[..i + 1][..i] == specs[..i];
  }

  lemma PackNothing(table: seq<Option<VTable>>, ids: Ids)
    requires |table| <= ids.size + 1 && forall k :: 0 <= k < |table| ==> table[k] == None
    ensures Packed(Some(table), ids, [])
  {}

  lemma PackNone(ids: Ids, specs: seq<Spec>)
    requires specs == []
    ensures Packed(None, ids, specs)
  {}

  // ---------------------------------------------------------------------------------------
  // The runtime's side
  // ---------------------------------------------------------------------------------------

  /** `y_Interfaces`; `size` is the length of the array. */
  class Table {
    const vtables: array<Option<VTable>>

    constructor (size: nat)
      ensures fresh(vtables) && vtables.Length == size && forall k :: 0 <= k < size ==> vtables[k] == None
    {
      vtables := new Option<VTable>[size](_ => None);
    }
  }

  ghost function Contents(t: Table?): Option<seq<Option<VTable>>>
    reads t, if t == null then {} else {t.vtables}
  {
    if t == null then None else Some(t.vtables[..])
  }

  class Registry {
    /** `interface_ids` */
    var interfaceIds: map<string, nat>
    /** `interface_size` */
    var interfaceSize: nat

    ghost function State(): Ids
      reads this
    {
      Ids(interfaceIds, interfaceSize)
    }

    ghost predicate Valid()
      reads this
    {
      Numbered(State())
    }

    constructor ()
      ensures Valid() && State() == Ids(map[], 0)
    {
      interfaceIds := map[];
      interfaceSize := 0;
    }

    /** `y_Runtime_get_interface_id_nolock` */
    method GetInterfaceIdNolock(name: string) returns (id: nat)
      requires Valid()
      modifies this
      ensures Valid() && State() == Register(old(State()), name)
      ensures name in State().of && id == State().of[name] && id > 0
    {
      RegisterNumbers(State(), name);
      hide Numbered, Extends;
      if name !in interfaceIds {
        interfaceSize := interfaceSize + 1;
        id := interfaceSize;
        interfaceIds := interfaceIds[name := id];
      } else {
        id := interfaceIds[name];
      }
    }

    /** `y_Runtime_get_interface_id`, by a single thread. */
    method GetInterfaceId(name: string) returns (id: nat)
      requires Valid()
      modifies this
      ensures Valid() && State() == Register(old(State()), name)
      ensures name in State().of && id == State().of[name] && id > 0
    {
      if name !in interfaceIds {
        id := GetInterfaceIdNolock(name);
      } else {
        id := interfaceIds[name];
      }
    }

    /** The first loop of `y_Runtime_pack_interfaces`: every name gets its identifier. */
    method NumberAll(specs: array<InterfaceSpec>) returns (maxId: nat)
      requires Valid() && Terminated(specs[..])
      modifies this
      ensures Valid() && State() == RegisterAll(old(State()), Names(Listed(specs[..])))
      ensures Below(State(), Names(Listed(specs[..])), maxId)
      ensures maxId <= interfaceSize && (maxId == 0 <==> Listed(specs[..]) == [])
    {
      ghost var names := Names(Listed(specs[..]));
      var i := 0;
      maxId := 0;
      ListedAt(specs[..], 0);
      while specs[i].name.Some?
        invariant 0 <= i <= |names| < specs.Length
        invariant specs[|names|].name.None?
        invariant Valid() && State() == RegisterAll(old(State()), names[..i]) && Below(State(), names[..i], maxId)
        invariant maxId <= interfaceSize && (maxId == 0 <==> i == 0)
        decreases specs.Length - i
      {
        hide Below, Numbered, Extends, RegisterAll;
        ListedAt(specs[..], i);
        assert i < |names|;
        ghost var ids := State();
        RegisterNumbers(ids, specs[i].name.value);
        BelowSnoc(ids, names[..i], maxId, names[i]);
        var specId := GetInterfaceIdNolock(specs[i].name.value);
        RegisterAllSnoc(old(State()), names, i);
        if specId > maxId {
          maxId := specId;
        }
        i := i + 1;
      }
      assert i == |names| by {
        if i < |names| { ListedAt(specs[..], i); }
      }
      assert names[..i] == names;
    }

    /** The second loop: every vtable goes to the identifier of its name. */
    method FillTable(specs: array<InterfaceSpec>, table: Table)
      requires Valid() && Terminated(specs[..])
      requires table.vtables.Length > 0 && Below(State(), Names(Listed(specs[..])), table.vtables.Length - 1)
      requires table.vtables.Length <= interfaceSize + 1
      requires forall k :: 0 <= k < table.vtables.Length ==> table.vtables[k] == None
      modifies this, table.vtables
      ensures Valid() && State() == old(State())
      ensures Packed(Contents(table), State(), Listed(specs[..]))
    {
      hide Numbered, Packed, Listed, Names, Terminated, LastVtable;
      ghost var listed := Listed(specs[..]);
      ghost var ids := State();
      var i := 0;
      ListedAt(specs[..], 0);
      PackNothing(table.vtables[..], ids);
      assert listed[..0] == [];
      while specs[i].name.Some?
        invariant 0 <= i <= |listed| < specs.Length
        invariant specs[|listed|].name.None? && specs[..] == old(specs[..])
        invariant Valid() && State() == ids
        invariant Packed(Some(table.vtables[..]), ids, listed[..i])
        decreases specs.Length - i
      {
        ListedAt(specs[..], i);
        assert i < |listed|;
        assert listed[i].0 in Names(listed) by { assert Names(listed)[i] == listed[i].0; }
        var id := GetInterfaceIdNolock(specs[i].name.value);
        PackOne(table.vtables[..], ids, listed, i);
        ghost var was := table.vtables[..];
        table.vtables[id] := specs[i].vtable;
        assert table.vtables[..] == was[id := specs[i].vtable];
        i := i + 1;
      }
      assert i == |listed| by {
        if i < |listed| { ListedAt(specs[..], i); }
      }
      assert listed[..i] == listed;
    }

    /** `y_Runtime_pack_interfaces`: NULL for an empty list, otherwise a table that holds the last vtable
        given for each name and NULL for every other identifier. */
    method PackInterfaces(specs: array<InterfaceSpec>) returns (table: Table?)
      requires Valid() && Terminated(specs[..])
      modifies this
      ensures Valid() && State() == RegisterAll(old(State()), Names(Listed(specs[..])))
      ensures table == null <==> Listed(specs[..]) == []
      ensures table != null ==> fresh(table) && fresh(table.vtables)
      ensures Packed(Contents(table), State(), Listed(specs[..]))
      ensures forall i :: 0 <= i < |Listed(specs[..])| ==> Listed(specs[..])[i].0 in State().of
    {
      table := null;
      var maxId := NumberAll(specs);
      ghost var listed := Listed(specs[..]);
      forall i | 0 <= i < |listed|
        ensures listed[i].0 in State().of
      {
        assert Names(listed)[i] in Names(listed);
      }
      hide Numbered, Below, RegisterAll, Packed, Listed, Names, Terminated;
      if maxId > 0 {
        table := new Table(maxId + 1);
        FillTable(specs, table);
      } else {
        PackNone(State(), listed);
      }
    }

    /** `y_get_implementation_by_name` on an instance whose class was given `specs` at some earlier time: the
        last vtable for the name, or NULL, whether or not the name had an identifier. */
    method GetImplementationByName(table: Table?, name: string, ghost specs: seq<Spec>) returns (impl: Option<VTable>)
      requires Valid() && Packed(Contents(table), State(), specs)
      requires forall i :: 0 <= i < |specs| ==> specs[i].0 in State().of
      modifies this
      ensures Valid() && State() == Register(old(State()), name)
      ensures impl == LastVtable(specs, name)
      ensures Packed(Contents(table), State(), specs)
    {
      impl := None;
      RegisterNumbers(State(), name);
      PackedLater(Contents(table), State(), specs, Register(State(), name));
      var id := GetInterfaceId(name);
      if id > 0 {
        impl := GetImplementation(table, id);
      }
    }

    /** The macro `y_GET_INSTANCE_VTABLE`, with the caller's variable `cached`, zero until it is first set:
        the same answer, and the variable holds the identifier of the name from then on. */
    method GetInstanceVtable(table: Table?, name: string, cached: nat, ghost specs: seq<Spec>)
      returns (impl: Option<VTable>, cached': nat)
      requires Valid() && Packed(Contents(table), State(), specs)
      requires forall i :: 0 <= i < |specs| ==> specs[i].0 in State().of
      requires cached == 0 || (name in State().of && State().of[name] == cached)
      modifies this
      ensures Valid() && State() == if cached == 0 then Register(old(State()), name) else old(State())
      ensures impl == LastVtable(specs, name)
      ensures name in State().of && State().of[name] == cached' && cached' > 0
      ensures Packed(Contents(table), State(), specs)
    {
      cached' := cached;
      impl := None;
      RegisterNumbers(State(), name);
      PackedLater(Contents(table), State(), specs, Register(State(), name));
      if cached' == 0 {
        cached' := GetInterfaceId(name);
      }
      if cached' != 0 {
        impl := GetImplementation(table, cached');
      }
    }
  }

  /** `y_get_implementation` */
  method GetImplementation(table: Table?, interfaceId: nat) returns (implementation: Option<VTable>)
    ensures implementation == At(Contents(table), interfaceId)
  {
    implementation := None;
    if table != null && table.vtables.Length > interfaceId {
      implementation := table.vtables[interfaceId];
    }
  }

  /** Whatever is registered later, a table packed now and an identifier cached now keep giving the answer of
      the list. */
  lemma CachedStaysValid(table: Option<seq<Option<VTable>>>, ids: Ids, specs: seq<Spec>, names: seq<string>,
                         name: string)
    requires Numbered(ids) && Packed(table, ids, specs) && name in ids.of
    requires forall i :: 0 <= i < |specs| ==> specs[i].0 in ids.of
    ensures var later := RegisterAll(ids, names);
            && name in later.of && later.of[name] == ids.of[name]
            && Packed(table, later, specs) && At(table, later.of[name]) == LastVtable(specs, name)
            && (forall n :: n in names && n !in ids.of ==>
                  n in later.of && At(table, later.of[n]) == None && LastVtable(specs, n) == None)
  {
    hide RegisterAll, LastVtable;
    RegisterAllNumbers(ids, names);
    PackedLater(table, ids, specs, RegisterAll(ids, names));
    forall n | n in names && n !in ids.of
      ensures LastVtable(specs, n) == None
    {
      LastVtableUnnamed(specs, n);
    }
  }
}
