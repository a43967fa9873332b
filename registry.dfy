/**
 * The part of the GraphQL document the generator reads: type references of three
 * shapes and the top-level type definitions, in document order.
 */
module Schema {

  /** A field's declared type: a named type, a non-null wrapper or a list wrapper. */
  datatype TypeNode = Named(name: string) | NonNull(inner: TypeNode) | ListOf(element: TypeNode)

  /** A field (or input field) of an object, interface or input object type. */
  datatype FieldDefinition = FieldDefinition(name: string, fieldType: TypeNode)

  /** A top-level type definition of the printed schema. */
  datatype Definition =
    | ObjectTypeDefinition(name: string, interfaces: seq<string>, fields: seq<FieldDefinition>)
    | InterfaceTypeDefinition(name: string, fields: seq<FieldDefinition>)
    | InputObjectTypeDefinition(name: string, fields: seq<FieldDefinition>)
    | EnumTypeDefinition(name: string, values: seq<string>)
    | UnionTypeDefinition(name: string, members: seq<string>)
    | ScalarTypeDefinition(name: string)
}

/**
 * The type registry: the `types` array that the first pass of `plugin` (its
 * `typeVisitor`) fills with enums, unions, scalars and, when implementing types
 * are used, object types that implement interfaces. A name is registered at most
 * once: every visitor looks the name up first and pushes only when it is new.
 */
module Registry {
  import opened Results
  import opened Schema

  /** `TypeItem`, one variant per `type` tag, each with only the data that tag carries. */
  datatype TypeItem =
    | EnumItem(name: string, values: seq<string>)
    | UnionItem(name: string, members: seq<string>)
    | ScalarItem(name: string)
    | ImplementItem(name: string, interfaces: seq<string>)

  /** `types.find((t) => t.name === name)` finds something. */
  predicate HasName(types: seq<TypeItem>, name: string) {
    exists i | 0 <= i < |types| :: types[i].name == name
  }

  predicate NamesDistinct(types: seq<TypeItem>) {
    forall i, j | 0 <= i < j < |types| :: types[i].name != types[j].name
  }

  /** The entry a definition would register, if any. */
  function ItemOf(def: Definition, useImplementingTypes: bool): (r: Option<TypeItem>)
    ensures r.Some? ==> r.value.name == def.name
  {
    match def
    case EnumTypeDefinition(name, values) => Some(EnumItem(name, values))
    case UnionTypeDefinition(name, members) => Some(UnionItem(name, members))
    case ScalarTypeDefinition(name) => Some(ScalarItem(name))
    case ObjectTypeDefinition(name, interfaces, _) =>
      if useImplementingTypes && |interfaces| > 0 then Some(ImplementItem(name, interfaces)) else None
    case _ => None
  }

  /** The registry after the visitor has seen one more definition. */
  function Visit(types: seq<TypeItem>, def: Definition, useImplementingTypes: bool): seq<TypeItem> {
    var item := ItemOf(def, useImplementingTypes);
    if item.Some? && !HasName(types, def.name) then types + [item.value] else types
  }

  /** The registry after the first pass over the definitions in document order. */
  function RegistryOf(defs: seq<Definition>, useImplementingTypes: bool): seq<TypeItem> {
    if |defs| == 0 then []
    else Visit(RegistryOf(defs[..|defs| - 1], useImplementingTypes), defs[|defs| - 1], useImplementingTypes)
  }

  /** The `types` array with the four visitor callbacks that fill it. */
  class TypeRegistry {
    var types: seq<TypeItem>

    ghost predicate Valid()
      reads this
    {
      NamesDistinct(types)
    }

    constructor ()
      ensures Valid() && types == []
    {
      types := [];
    }

    /** `types.find(...)` by name. */
    method Find(name: string) returns (found: bool)
      ensures found <==> HasName(types, name)
    {
      found := false;
      var i := 0;
      while i < |types|
        invariant 0 <= i <= |types|
        invariant !found ==> forall j | 0 <= j < i :: types[j].name != name
        invariant found ==> HasName(types, name)
      {
        if types[i].name == name {
          found := true;
        }
        i := i + 1;
      }
    }

    method Push(item: TypeItem)
      requires Valid() && !HasName(types, item.name)
      modifies this
      ensures Valid() && types == old(types) + [item]
    {
      types := types + [item];
    }

    /** `EnumTypeDefinition`: registers the enum with its members in declaration order. */
    method VisitEnum(name: string, values: seq<string>)
      requires Valid()
      modifies this
      ensures Valid()
      ensures types == if HasName(old(types), name) then old(types) else old(types) + [EnumItem(name, values)]
    {
      var found := Find(name);
      if !found {
        Push(EnumItem(name, values));
      }
    }

    /** `UnionTypeDefinition`: registers the union with its member types in order. */
    method VisitUnion(name: string, members: seq<string>)
      requires Valid()
      modifies this
      ensures Valid()
      ensures types == if HasName(old(types), name) then old(types) else old(types) + [UnionItem(name, members)]
    {
      var found := Find(name);
      if !found {
        Push(UnionItem(name, members));
      }
    }

    /** `ObjectTypeDefinition`: registers an implementor only when implementing types are
        used and the object declares at least one interface. */
    method VisitObject(name: string, interfaces: seq<string>, useImplementingTypes: bool)
      requires Valid()
      modifies this
      ensures Valid()
      ensures types == if useImplementingTypes && !HasName(old(types), name) && |interfaces| > 0
                       then old(types) + [ImplementItem(name, interfaces)] else old(types)
    {
      if useImplementingTypes {
        var found := Find(name);
        if !found && |interfaces| > 0 {
          Push(ImplementItem(name, interfaces));
        }
      }
    }

    /** `ScalarTypeDefinition`: registers the custom scalar by name. */
    method VisitScalar(name: string)
      requires Valid()
      modifies this
      ensures Valid()
      ensures types == if HasName(old(types), name) then old(types) else old(types) + [ScalarItem(name)]
    {
      var found := Find(name);
      if !found {
        Push(ScalarItem(name));
      }
    }
  }

  /** The first pass, `oldVisit(astNode, { leave: typeVisitor })`, over the definitions in
      document order. */
  method CollectTypes(defs: seq<Definition>, useImplementingTypes: bool) returns (types: seq<TypeItem>)
    ensures types == RegistryOf(defs, useImplementingTypes)
    ensures NamesDistinct(types)
  {
    var registry := new TypeRegistry();
    var i := 0;
    while i < |defs|
      invariant 0 <= i <= |defs|
      invariant registry.Valid()
      invariant registry.types == RegistryOf(defs[..i], useImplementingTypes)
    {
      assert defs[..i + 1][..i] == defs[..i];
      match defs[i] {
        case EnumTypeDefinition(name, values) => registry.VisitEnum(name, values);
        case UnionTypeDefinition(name, members) => registry.VisitUnion(name, members);
        case ObjectTypeDefinition(name, interfaces, _) => registry.VisitObject(name, interfaces, useImplementingTypes);
        case ScalarTypeDefinition(name) => registry.VisitScalar(name);
        case InterfaceTypeDefinition(_, _) =>
        case InputObjectTypeDefinition(_, _) =>
      }
      i := i + 1;
    }
    assert defs[..|defs|] == defs;
    types := registry.types;
  }

  /** A name is registered at most once. */
  lemma {:induction false} RegistryNamesDistinct(defs: seq<Definition>, useImplementingTypes: bool)
    ensures NamesDistinct(RegistryOf(defs, useImplementingTypes))
  {
    if |defs| > 0 {
      var prev := RegistryOf(defs[..|defs| - 1], useImplementingTypes);
      RegistryNamesDistinct(defs[..|defs| - 1], useImplementingTypes);
      var def := defs[|defs| - 1];
      if ItemOf(def, useImplementingTypes).Some? && !HasName(prev, def.name) {
        var next := prev + [ItemOf(def, useImplementingTypes).value];
        forall i, j | 0 <= i < j < |next| ensures next[i].name != next[j].name {
          if j == |prev| {
            assert next[i] == prev[i];
          }
        }
      }
    }
  }

  /** Every definition that registers something leaves its name in the registry. */
  lemma {:induction false} RegistryComplete(defs: seq<Definition>, useImplementingTypes: bool, k: nat)
    requires k < |defs|
    requires ItemOf(defs[k], useImplementingTypes).Some?
    ensures HasName(RegistryOf(defs, useImplementingTypes), defs[k].name)
  {
    var init := defs[..|defs| - 1];
    var prev := RegistryOf(init, useImplementingTypes);
    var next := RegistryOf(defs, useImplementingTypes);
    if k < |defs| - 1 {
      assert init[k] == defs[k];
      RegistryComplete(init, useImplementingTypes, k);
      var i :| 0 <= i < |prev| && prev[i].name == defs[k].name;
      assert next[i] == prev[i];
    } else if !HasName(prev, defs[k].name) {
      assert next[|prev|].name == defs[k].name;
    } else {
      var i :| 0 <= i < |prev| && prev[i].name == defs[k].name;
      assert next[i] == prev[i];
    }
  }

  /** The entry for a name comes from the first definition of that name that registers
      anything; later definitions of the same name are ignored. */
  lemma {:induction false} FirstDefinitionWins(defs: seq<Definition>, useImplementingTypes: bool, k: nat)
    requires k < |defs|
    requires ItemOf(defs[k], useImplementingTypes).Some?
    requires forall j | 0 <= j < k :: ItemOf(defs[j], useImplementingTypes).None? || defs[j].name != defs[k].name
    ensures ItemOf(defs[k], useImplementingTypes).value in RegistryOf(defs, useImplementingTypes)
  {
    var init := defs[..|defs| - 1];
    var prev := RegistryOf(init, useImplementingTypes);
    if k < |defs| - 1 {
      assert init[k] == defs[k];
      FirstDefinitionWins(init, useImplementingTypes, k);
    } else {
      assert init == defs[..k];
      assert !HasName(prev, defs[k].name) by {
        if HasName(prev, defs[k].name) {
          RegistryHasOnlyDefinedNames(init, useImplementingTypes, defs[k].name);
        }
      }
    }
  }

  /** A name in the registry belongs to some registering definition. */
  lemma {:induction false} RegistryHasOnlyDefinedNames(defs: seq<Definition>, useImplementingTypes: bool, name: string)
    requires HasName(RegistryOf(defs, useImplementingTypes), name)
    ensures exists j | 0 <= j < |defs| :: ItemOf(defs[j], useImplementingTypes).Some? && defs[j].name == name
  {
    var init := defs[..|defs| - 1];
    var prev := RegistryOf(init, useImplementingTypes);
    var last := defs[|defs| - 1];
    if HasName(prev, name) {
      RegistryHasOnlyDefinedNames(init, useImplementingTypes, name);
      var j :| 0 <= j < |init| && ItemOf(init[j], useImplementingTypes).Some? && init[j].name == name;
      assert defs[j] == init[j];
    } else {
      assert ItemOf(last, useImplementingTypes).Some? && last.name == name;
    }
  }

  // ---------------------------------------------------------------------------
  // Lookup by the resolver

  /** The filter in `getNamedType`: an implementor matches the interfaces it implements,
      every other entry matches its own name. */
  predicate Matches(item: TypeItem, name: string) {
    if item.ImplementItem? then name in item.interfaces else item.name == name
  }

  /** `opts.types.filter(...)`: the matching entries, in registry order. */
  function Found(types: seq<TypeItem>, name: string): (r: seq<TypeItem>)
    ensures forall x | x in r :: x in types && Matches(x, name)
    ensures forall x | x in types && Matches(x, name) :: x in r
  {
    if |types| == 0 then []
    else
      var rest := Found(types[..|types| - 1], name);
      assert forall x | x in types[..|types| - 1] :: x in types;
      if Matches(types[|types| - 1], name) then rest + [types[|types| - 1]] else rest
  }

  /** The filter keeps registry order: filtering a concatenation filters each part and
      concatenates the results. */
  lemma {:induction false} FoundKeepsOrder(a: seq<TypeItem>, b: seq<TypeItem>, name: string)
    ensures Found(a + b, name) == Found(a, name) + Found(b, name)
    decreases |b|
  {
    if |b| == 0 {
      assert a + b == a;
    } else {
      var b' := b[..|b| - 1];
      var last := b[|b| - 1];
      var tail := if Matches(last, name) then [last] else [];
      assert (a + b)[..|a + b| - 1] == a + b';
      assert (a + b)[|a + b| - 1] == last;
      assert Found(a + b, name) == Found(a + b', name) + tail;
      assert Found(b, name) == Found(b', name) + tail;
      FoundKeepsOrder(a, b', name);
      assert Found(a, name) + Found(b', name) + tail == Found(a, name) + (Found(b', name) + tail);
    }
  }

  /** A single entry is kept exactly when it matches. */
  lemma FoundOfOne(x: TypeItem, name: string)
    ensures Found([x], name) == if Matches(x, name) then [x] else []
  {
    assert [x][..0] == [];
  }
}
