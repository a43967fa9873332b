/**
 * The type resolver: the recursive descent that turns a field's declared type
 * into the source text of a mock value (`generateMockValue`, `getNamedType`,
 * `getNamedImplementType`) and the override precedence every leaf goes through
 * (`handleValueGeneration`).
 */
module Resolver {
  import opened Results
  import opened Strings
  import opened Hashing
  import opened Naming
  import opened Generators
  import opened Schema
  import opened Registry

  /** `ScalarMap`: custom scalar name to generator options. */
  type ScalarMap = map<string, GeneratorOptions>

  /** `TypeFieldMap`: type name (or `_all`) to field name to generator options. */
  type TypeFieldMap = map<string, map<string, GeneratorOptions>>

  /** The six primitive generators of the mock value generator. */
  datatype BaseGenerator = Word | Uuid | BooleanValue | Integer | FloatValue | DateValue

  /** The external libraries behind the resolver. */
  datatype Env = Env(
    cases: CaseLibrary,
    backend: Backend,
    /** The text a primitive generator of the configured library produces: after seeding
        with the given seed in static mode, a library call expression (seed `None`) in
        dynamic mode. */
    baseValue: (Library, BaseGenerator, Option<int>) -> string)

  /** The `Options` bundle passed down the recursion; the current type node is a separate
      parameter. */
  datatype Options = Options(
    typeName: string,
    fieldName: string,
    types: seq<TypeItem>,
    typeNamesConvention: string,
    enumValuesConvention: string,
    terminateCircularRelationships: bool,
    prefix: Option<string>,
    enumsPrefix: Option<string>,
    customScalars: Option<ScalarMap>,
    transformUnderscore: bool,
    listElementCount: nat,
    dynamicValues: bool,
    generateLibrary: Library,
    fieldGeneration: Option<TypeFieldMap>,
    enumsAsTypes: bool,
    defaultNullableToNull: bool,
    nonNull: bool)

  /** What the resolver returns: JavaScript `null`, or source text (a literal or an expression). */
  datatype MockValue = Null | Code(text: string)

  /** The per-field seed `hashedString(typeName + fieldName)`. */
  function Seed(opts: Options): int {
    Hash(opts.typeName + opts.fieldName)
  }

  function GenCtx(env: Env, opts: Options): GenContext {
    GenContext(env.backend, opts.generateLibrary, opts.dynamicValues, Seed(opts))
  }

  /** The seed the primitive generators see: `None` in dynamic mode, where nothing is seeded. */
  function BaseSeed(opts: Options): Option<int> {
    if opts.dynamicValues then None else Some(Seed(opts))
  }

  // ---------------------------------------------------------------------------
  // Overrides

  /** `typeName in fieldGeneration && fieldName in fieldGeneration[typeName]`. */
  predicate HasExactOverride(opts: Options) {
    opts.fieldGeneration.Some? && opts.typeName in opts.fieldGeneration.value
    && opts.fieldName in opts.fieldGeneration.value[opts.typeName]
  }

  /** `'_all' in fieldGeneration && fieldName in fieldGeneration['_all']`. */
  predicate HasAllOverride(opts: Options) {
    opts.fieldGeneration.Some? && "_all" in opts.fieldGeneration.value
    && opts.fieldName in opts.fieldGeneration.value["_all"]
  }

  /** JavaScript truthiness of generator options: only the empty name is falsy. */
  predicate OptionsTruthy(o: GeneratorOptions) {
    o != OneGenerator(ByName(""))
  }

  /** `fieldGeneration?.[typeName]?.[fieldName]` is truthy. */
  predicate HasTruthyExactOverride(opts: Options) {
    HasExactOverride(opts) && OptionsTruthy(opts.fieldGeneration.value[opts.typeName][opts.fieldName])
  }

  function CustomValue(env: Env, opts: Options, defs: seq<GeneratorDefinition>): Result<MockValue> {
    var text :- GetCustomValue(GenCtx(env, opts), defs);
    Ok(Code(text))
  }

  /** `handleValueGeneration`: an exact `typeName`/`fieldName` override, then an `_all`
      override for the field name, then the custom scalar mapping, then `null` for a nullable
      field under `defaultNullableToNull`, then the base generator. */
  function HandleValueGeneration(env: Env, opts: Options, customScalar: Option<seq<GeneratorDefinition>>,
                                 base: string): (r: Result<MockValue>)
    ensures HasExactOverride(opts) ==>
              r == CustomValue(env, opts, Normalize(opts.fieldGeneration.value[opts.typeName][opts.fieldName]))
    ensures !HasExactOverride(opts) && HasAllOverride(opts) ==>
              r == CustomValue(env, opts, Normalize(opts.fieldGeneration.value["_all"][opts.fieldName]))
    ensures !HasExactOverride(opts) && !HasAllOverride(opts) && customScalar.Some? ==>
              r == CustomValue(env, opts, customScalar.value)
    ensures r == Ok(Null) <==>
              !HasExactOverride(opts) && !HasAllOverride(opts) && customScalar.None?
              && opts.defaultNullableToNull && !opts.nonNull
    ensures !HasExactOverride(opts) && !HasAllOverride(opts) && customScalar.None?
            && !(opts.defaultNullableToNull && !opts.nonNull) ==>
              r == Ok(Code(base))
    ensures r.Ok? && r.value.Code? && r.value.text != base ==>
              HasExactOverride(opts) || HasAllOverride(opts) || customScalar.Some?
  {
    if HasExactOverride(opts) then
      CustomValue(env, opts, Normalize(opts.fieldGeneration.value[opts.typeName][opts.fieldName]))
    else if HasAllOverride(opts) then
      CustomValue(env, opts, Normalize(opts.fieldGeneration.value["_all"][opts.fieldName]))
    else if customScalar.Some? then
      CustomValue(env, opts, customScalar.value)
    else if opts.defaultNullableToNull && !opts.nonNull then
      Ok(Null)
    else
      Ok(Code(base))
  }

  /** `getGeneratorDefinition(customScalars[name])`, or nothing when no scalars are configured. */
  function CustomScalar(opts: Options, name: string): Option<seq<GeneratorDefinition>> {
    if opts.customScalars.None? || name !in opts.customScalars.value then None
    else GetGeneratorDefinition(Some(opts.customScalars.value[name]))
  }

  // ---------------------------------------------------------------------------
  // Names

  /** `createNameConverter(typeNamesConvention, transformUnderscore)(name)`. */
  function CasedName(env: Env, opts: Options, name: string): string {
    NameConverter(env.cases, opts.typeNamesConvention, opts.transformUnderscore, name, "")
  }

  /** The factory name `toMockName(name, casedName, prefix)` for a type. */
  function FactoryName(env: Env, opts: Options, name: string): string {
    ToMockName(env.cases, name, CasedName(env, opts, name), opts.prefix)
  }

  /** `getNamedImplementType`: a call of the implementor's factory; entries without an object
      type node give the empty string. */
  function GetNamedImplementType(env: Env, opts: Options, item: TypeItem): (r: string)
    ensures r == "" <==> !item.ImplementItem?
    ensures item.ImplementItem? ==> r == FactoryName(env, opts, item.name) + "()"
  {
    if item.ImplementItem? then FactoryName(env, opts, item.name) + "()" else ""
  }

  /** The primitive generator of a built-in scalar. */
  function BuiltinGenerator(name: string): Option<BaseGenerator> {
    if name == "String" then Some(Word)
    else if name == "Float" then Some(FloatValue)
    else if name == "ID" then Some(Uuid)
    else if name == "Boolean" then Some(BooleanValue)
    else if name == "Int" then Some(Integer)
    else None
  }

  /** The default of an enum field: its first member, either `'RAW'` or `EnumName.Member`
      where the member name is converted as a whole. */
  function EnumDefault(env: Env, opts: Options, enumName: string, values: seq<string>): (r: string)
    // as a string union, the first member quoted
    ensures opts.enumsAsTypes && |values| > 0 ==> r == "'" + values[0] + "'"
    // otherwise a member access on the enum, named with the enums prefix
    ensures !opts.enumsAsTypes ==>
              NameConverter(env.cases, opts.typeNamesConvention, opts.transformUnderscore, enumName,
                            opts.enumsPrefix.GetOr("")) + "." <= r
  {
    var value := if |values| > 0 then values[0] else "undefined";
    if opts.enumsAsTypes then "'" + value + "'"
    else
      NameConverter(env.cases, opts.typeNamesConvention, opts.transformUnderscore, enumName,
                    opts.enumsPrefix.GetOr(""))
      + "." + NameConverter(env.cases, opts.enumValuesConvention, !opts.enumsAsTypes, value, "")
  }

  /** The reference to another type's factory, guarded against cycles in circular mode. */
  function ObjectReference(env: Env, opts: Options, name: string): (r: string)
    ensures !opts.terminateCircularRelationships ==> r == FactoryName(env, opts, name) + "()"
    // in circular mode: first the omission test on the cased name, last the factory call
    // passing the omission set on
    ensures opts.terminateCircularRelationships ==>
              "relationshipsToOmit.has('" + CasedName(env, opts, name) + "')" <= r
    ensures opts.terminateCircularRelationships ==>
              var call := FactoryName(env, opts, name) + "({}, relationshipsToOmit)";
              |call| <= |r| && r[|r| - |call|..] == call
  {
    var casedName := CasedName(env, opts, name);
    var factory := FactoryName(env, opts, name);
    if opts.terminateCircularRelationships then
      "relationshipsToOmit.has('" + casedName + "') ? {} as " + casedName + " : " + factory
      + "({}, relationshipsToOmit)"
    else factory + "()"
  }

  // ---------------------------------------------------------------------------
  // getNamedType

  /** The first registry entry for `name` is a union. */
  predicate StartsWithUnion(types: seq<TypeItem>, name: string) {
    var found := Found(types, name);
    |found| > 0 && found[0].UnionItem?
  }

  /** No union's first member resolves to a union again. GraphQL requires the members of a
      union to be object types, so a registry built from a valid schema satisfies this. */
  predicate UnionMembersAreNotUnions(types: seq<TypeItem>) {
    forall u | u in types && u.UnionItem? && |u.members| > 0 :: !StartsWithUnion(types, u.members[0])
  }

  /** `getNamedType`. */
  function GetNamedType(env: Env, opts: Options, name: string): (r: Result<MockValue>)
    requires UnionMembersAreNotUnions(opts.types)
    ensures r == Ok(Null) ==> opts.defaultNullableToNull && !opts.nonNull
    decreases if StartsWithUnion(opts.types, name) then 1 else 0
  {
    var generator := BuiltinGenerator(name);
    if generator.Some? then
      HandleValueGeneration(env, opts, CustomScalar(opts, name),
                            env.baseValue(opts.generateLibrary, generator.value, BaseSeed(opts)))
    else
      var found := Found(opts.types, name);
      if |found| > 0 && found[0].EnumItem? then
        HandleValueGeneration(env, opts, None, EnumDefault(env, opts, found[0].name, found[0].values))
      else if |found| > 0 && found[0].UnionItem? then
        if |found[0].members| > 0 then GetNamedType(env, opts, found[0].members[0]) else Ok(Code(""))
      else if |found| > 0 && found[0].ScalarItem? then
        var base := if found[0].name == "Date" then DateValue else Word;
        HandleValueGeneration(env, opts, CustomScalar(opts, found[0].name),
                              env.baseValue(opts.generateLibrary, base, BaseSeed(opts)))
      else if |found| > 0 && found[0].ImplementItem? && !HasTruthyExactOverride(opts) then
        Ok(Code(Join(" || ", seq(|found|, i requires 0 <= i < |found| => GetNamedImplementType(env, opts, found[i])))))
      else
        HandleValueGeneration(env, opts, None, ObjectReference(env, opts, name))
  }

  // ---------------------------------------------------------------------------
  // generateMockValue

  /** The options of the `index`-th list element: the field name gets the index as a suffix
      unless the list has exactly one element. */
  function ElementOptions(opts: Options, index: nat): (r: Options)
    ensures r == opts.(fieldName := r.fieldName)
    ensures opts.listElementCount == 1 ==> r.fieldName == opts.fieldName
    ensures opts.listElementCount != 1 ==> r.fieldName == opts.fieldName + NatToString(index)
  {
    opts.(fieldName := if opts.listElementCount == 1 then opts.fieldName else opts.fieldName + NatToString(index))
  }

  /** How `Array.prototype.join` writes an element: `null` becomes the empty string. */
  function InList(v: MockValue): string {
    match v
    case Null => ""
    case Code(text) => text
  }

  /** `[e0, e1, ...]` with the elements joined by `", "`. */
  function ListText(values: seq<MockValue>): string {
    "[" + Join(", ", seq(|values|, i requires 0 <= i < |values| => InList(values[i]))) + "]"
  }

  /** `generateMockValue`. */
  function GenerateMockValue(env: Env, opts: Options, node: TypeNode): (r: Result<MockValue>)
    requires UnionMembersAreNotUnions(opts.types)
    // null only comes from the nullable-to-null default, which a non-null wrapper switches off
    ensures r == Ok(Null) ==> opts.defaultNullableToNull && !opts.nonNull
    // a nullable list is null under the default unless the field has its own override
    ensures node.ListOf? && opts.defaultNullableToNull && !opts.nonNull && !HasTruthyExactOverride(opts) ==>
              r == Ok(Null)
    ensures node.ListOf? && opts.listElementCount == 0 && r != Ok(Null) ==> r == Ok(Code("[]"))
    decreases node, 0
  {
    match node
    case Named(name) => GetNamedType(env, opts, name)
    case NonNull(inner) => GenerateMockValue(env, opts.(nonNull := true), inner)
    case ListOf(element) =>
      if !HasTruthyExactOverride(opts) && opts.defaultNullableToNull && !opts.nonNull then Ok(Null)
      else
        var values :- CollectAll(ElementResults(env, opts, element));
        assert opts.listElementCount == 0 ==> ListText(values) == "[]" by {
          if opts.listElementCount == 0 {
            assert values == [];
            assert seq(|values|, i requires 0 <= i < |values| => InList(values[i])) == [];
          }
        }
        Ok(Code(ListText(values)))
  }

  /** `Array.from({ length: listElementCount }, ...)`: the element type resolved once per
      index, with the element's own field name. */
  function ElementResults(env: Env, opts: Options, element: TypeNode): (rs: seq<Result<MockValue>>)
    requires UnionMembersAreNotUnions(opts.types)
    ensures |rs| == opts.listElementCount
    ensures forall i | 0 <= i < |rs| :: rs[i] == GenerateMockValue(env, ElementOptions(opts, i), element)
    decreases element, 1
  {
    var n := opts.listElementCount;
    seq(n, i requires 0 <= i < n => GenerateMockValue(env, ElementOptions(opts, i), element))
  }

  // ---------------------------------------------------------------------------
  // Properties of the resolver

  /** A list of `n` elements: every element is the element type resolved with its own
      options, in index order, and the list text joins exactly `n` of them. */
  lemma ListOfElements(env: Env, opts: Options, element: TypeNode)
    requires UnionMembersAreNotUnions(opts.types)
    requires !(opts.defaultNullableToNull && !opts.nonNull) || HasTruthyExactOverride(opts)
    requires GenerateMockValue(env, opts, ListOf(element)).Ok?
    ensures exists values: seq<MockValue> ::
              |values| == opts.listElementCount
              && (forall i | 0 <= i < |values| ::
                    GenerateMockValue(env, ElementOptions(opts, i), element) == Ok(values[i]))
              && GenerateMockValue(env, opts, ListOf(element)) == Ok(Code(ListText(values)))
  {
    var values := CollectAll(ElementResults(env, opts, element)).value;
    assert GenerateMockValue(env, opts, ListOf(element)) == Ok(Code(ListText(values)));
  }

  /** With more than one element (or none), different elements get different field names,
      hence different seeds. */
  lemma ElementFieldNamesDistinct(opts: Options, i: nat, j: nat)
    requires opts.listElementCount != 1 && i != j
    ensures ElementOptions(opts, i).fieldName != ElementOptions(opts, j).fieldName
  {
    var a := NatToString(i);
    var b := NatToString(j);
    if opts.fieldName + a == opts.fieldName + b {
      assert a == (opts.fieldName + a)[|opts.fieldName|..];
      assert b == (opts.fieldName + b)[|opts.fieldName|..];
      NatToStringRoundTrip(i);
      NatToStringRoundTrip(j);
    }
  }

  /** An enum resolves to its first declared member; the members after it play no part. */
  lemma EnumResolvesToFirstMember(env: Env, opts: Options, name: string)
    requires UnionMembersAreNotUnions(opts.types)
    requires BuiltinGenerator(name).None?
    requires |Found(opts.types, name)| > 0 && Found(opts.types, name)[0].EnumItem?
    requires !HasExactOverride(opts) && !HasAllOverride(opts)
    requires !(opts.defaultNullableToNull && !opts.nonNull)
    ensures var e := Found(opts.types, name)[0];
            GetNamedType(env, opts, name) == Ok(Code(EnumDefault(env, opts, e.name, e.values)))
    ensures var e := Found(opts.types, name)[0];
            forall rest: seq<string> | |e.values| > 0 ::
              EnumDefault(env, opts, e.name, e.values) == EnumDefault(env, opts, e.name, [e.values[0]] + rest)
  {
  }

  /** The enum member is converted as a whole: underscores inside it go to the case function
      together with the rest of the member name. */
  lemma EnumMemberConvertedWhole(env: Env, opts: Options, enumName: string, member: string)
    requires !opts.enumsAsTypes && opts.enumValuesConvention != Keep
    ensures EnumDefault(env, opts, enumName, [member]) ==
              NameConverter(env.cases, opts.typeNamesConvention, opts.transformUnderscore, enumName,
                            opts.enumsPrefix.GetOr(""))
              + "." + env.cases.resolve(opts.enumValuesConvention)(member)
  {
  }

  /** The primitive generator of each built-in scalar, as a table. */
  const BuiltinScalars: map<string, BaseGenerator> :=
    map["String" := Word, "Float" := FloatValue, "ID" := Uuid, "Boolean" := BooleanValue, "Int" := Integer]

  /** A built-in scalar goes through the override chain with its own custom-scalar mapping
      and the primitive generator the table gives it; without a field override the mapping
      takes precedence over the generator. */
  lemma BuiltinScalarResolves(env: Env, opts: Options, name: string)
    requires UnionMembersAreNotUnions(opts.types)
    requires name in BuiltinScalars
    ensures GetNamedType(env, opts, name) ==
              HandleValueGeneration(env, opts, CustomScalar(opts, name),
                                    env.baseValue(opts.generateLibrary, BuiltinScalars[name], BaseSeed(opts)))
    ensures !HasExactOverride(opts) && !HasAllOverride(opts) && CustomScalar(opts, name).Some? ==>
              GetNamedType(env, opts, name) == CustomValue(env, opts, CustomScalar(opts, name).value)
    ensures !HasExactOverride(opts) && !HasAllOverride(opts) && CustomScalar(opts, name).None?
            && !(opts.defaultNullableToNull && !opts.nonNull) ==>
              GetNamedType(env, opts, name) ==
                Ok(Code(env.baseValue(opts.generateLibrary, BuiltinScalars[name], BaseSeed(opts))))
  {
    assert BuiltinGenerator(name) == Some(BuiltinScalars[name]);
  }

  /** A registered custom scalar goes through the override chain with its own mapping; its
      primitive fallback is a date for `Date` and a word for any other name. */
  lemma CustomScalarResolves(env: Env, opts: Options, name: string)
    requires UnionMembersAreNotUnions(opts.types)
    requires BuiltinGenerator(name).None?
    requires |Found(opts.types, name)| > 0 && Found(opts.types, name)[0].ScalarItem?
    ensures var base := if name == "Date" then DateValue else Word;
            GetNamedType(env, opts, name) ==
              HandleValueGeneration(env, opts, CustomScalar(opts, name),
                                    env.baseValue(opts.generateLibrary, base, BaseSeed(opts)))
    ensures !HasExactOverride(opts) && !HasAllOverride(opts) && CustomScalar(opts, name).Some? ==>
              GetNamedType(env, opts, name) == CustomValue(env, opts, CustomScalar(opts, name).value)
    ensures !HasExactOverride(opts) && !HasAllOverride(opts) && CustomScalar(opts, name).None?
            && !(opts.defaultNullableToNull && !opts.nonNull) ==>
              GetNamedType(env, opts, name) ==
                Ok(Code(env.baseValue(opts.generateLibrary, if name == "Date" then DateValue else Word, BaseSeed(opts))))
  {
    assert Found(opts.types, name)[0] in Found(opts.types, name);
  }

  /** A union resolves as its first member type does, with the same options. */
  lemma UnionResolvesToFirstMember(env: Env, opts: Options, name: string)
    requires UnionMembersAreNotUnions(opts.types)
    requires BuiltinGenerator(name).None?
    requires |Found(opts.types, name)| > 0 && Found(opts.types, name)[0].UnionItem?
    ensures var u := Found(opts.types, name)[0];
            GetNamedType(env, opts, name) ==
              if |u.members| > 0 then GetNamedType(env, opts, u.members[0]) else Ok(Code(""))
  {
  }

  /** An interface with registered implementors resolves to all of their factory calls joined
      by `||`, in registry order, unless the field has its own override. */
  lemma InterfaceResolvesToImplementors(env: Env, opts: Options, name: string)
    requires UnionMembersAreNotUnions(opts.types)
    requires BuiltinGenerator(name).None?
    requires |Found(opts.types, name)| > 0 && Found(opts.types, name)[0].ImplementItem?
    requires !HasTruthyExactOverride(opts)
    ensures var found := Found(opts.types, name);
            GetNamedType(env, opts, name) ==
              Ok(Code(Join(" || ", seq(|found|, i requires 0 <= i < |found| => GetNamedImplementType(env, opts, found[i])))))
    ensures var found := Found(opts.types, name);
            (forall x | x in found :: x.ImplementItem?) ==>
              GetNamedType(env, opts, name) ==
                Ok(Code(Join(" || ", seq(|found|, i requires 0 <= i < |found| => FactoryName(env, opts, found[i].name) + "()"))))
  {
    var found := Found(opts.types, name);
    if forall x | x in found :: x.ImplementItem? {
      forall i | 0 <= i < |found| ensures GetNamedImplementType(env, opts, found[i]) == FactoryName(env, opts, found[i].name) + "()" {
        assert found[i] in found;
      }
      assert seq(|found|, i requires 0 <= i < |found| => GetNamedImplementType(env, opts, found[i]))
          == seq(|found|, i requires 0 <= i < |found| => FactoryName(env, opts, found[i].name) + "()");
    }
  }

  /** A type name with no registry entry is a reference to that type's factory; in circular
      mode the call is guarded by the omission set and passes it on. */
  lemma UnknownNameIsFactoryReference(env: Env, opts: Options, name: string)
    requires UnionMembersAreNotUnions(opts.types)
    requires BuiltinGenerator(name).None?
    requires |Found(opts.types, name)| == 0
    requires !HasExactOverride(opts) && !HasAllOverride(opts)
    requires !(opts.defaultNullableToNull && !opts.nonNull)
    ensures !opts.terminateCircularRelationships ==>
              GetNamedType(env, opts, name) == Ok(Code(FactoryName(env, opts, name) + "()"))
    ensures opts.terminateCircularRelationships ==>
              GetNamedType(env, opts, name) ==
                Ok(Code("relationshipsToOmit.has('" + CasedName(env, opts, name) + "') ? {} as "
                        + CasedName(env, opts, name) + " : " + FactoryName(env, opts, name)
                        + "({}, relationshipsToOmit)"))
  {
  }

  /** An exact override is taken whatever the custom scalar mapping, the base generator and
      the nullable default say. */
  lemma ExactOverrideWins(env: Env, opts: Options, cs1: Option<seq<GeneratorDefinition>>,
                          cs2: Option<seq<GeneratorDefinition>>, base1: string, base2: string,
                          nullDefault: bool, nonNull: bool)
    requires HasExactOverride(opts)
    ensures HandleValueGeneration(env, opts, cs1, base1) ==
            HandleValueGeneration(env, opts.(defaultNullableToNull := nullDefault, nonNull := nonNull), cs2, base2)
  {
  }
}
