/**
 * The text the plugin emits: one factory per object, interface and input object
 * type (`getMockString` and the field lines), the import line for the generated
 * types (`getImportTypes`), and the assembly of the output file in `plugin`.
 */
module Emitter {
  import opened Results
  import opened Strings
  import opened Naming
  import opened Generators
  import opened Schema
  import opened Registry
  import opened Resolver

  /** The plugin configuration; a key that is not set is `None`. */
  datatype Config = Config(
    typesFile: Option<string>,
    enumValues: Option<string>,
    typeNames: Option<string>,
    addTypename: bool,
    prefix: Option<string>,
    scalars: Option<ScalarMap>,
    terminateCircularRelationships: bool,
    typesPrefix: Option<string>,
    enumsPrefix: Option<string>,
    transformUnderscore: Option<bool>,
    listElementCount: Option<int>,
    dynamicValues: bool,
    generateLibrary: Option<Library>,
    fieldGeneration: Option<TypeFieldMap>,
    enumsAsTypes: Option<bool>,
    useImplementingTypes: Option<bool>,
    defaultNullableToNull: Option<bool>,
    defineWeightedChoice: bool,
    /** The configuration has the renamed key `typenames`. */
    hasLegacyTypenames: bool)

  // ---------------------------------------------------------------------------
  // Configuration defaults

  /** `config.typeNames || 'change-case-all#pascalCase'`. */
  function TypeNamesConvention(config: Config): string {
    if config.typeNames.Some? && config.typeNames.value != "" then config.typeNames.value else PascalCase
  }

  /** `config.enumValues || 'change-case-all#pascalCase'`. */
  function EnumValuesConvention(config: Config): string {
    if config.enumValues.Some? && config.enumValues.value != "" then config.enumValues.value else PascalCase
  }

  /** `config.transformUnderscore ?? true`. */
  function TransformUnderscore(config: Config): bool {
    config.transformUnderscore.GetOr(true)
  }

  /** `Math.max(0, config.listElementCount ?? 1)`. */
  function ListElementCount(config: Config): (n: nat)
    ensures config.listElementCount.None? ==> n == 1
    ensures config.listElementCount.Some? && config.listElementCount.value >= 0 ==> n == config.listElementCount.value
    ensures config.listElementCount.Some? && config.listElementCount.value < 0 ==> n == 0
  {
    var n := config.listElementCount.GetOr(1);
    if n < 0 then 0 else n
  }

  /** `config.generateLibrary || 'casual'`. */
  function GenerateLibrary(config: Config): Library {
    if config.generateLibrary.Some? && config.generateLibrary.value != UnknownLibrary("")
    then config.generateLibrary.value else Casual
  }

  function UseImplementingTypes(config: Config): bool {
    config.useImplementingTypes.GetOr(false)
  }

  /** The options `plugin` passes to `generateMockValue` for one field. */
  function FieldOptions(config: Config, types: seq<TypeItem>, typeName: string, fieldName: string): Options {
    Options(typeName, fieldName, types, TypeNamesConvention(config), EnumValuesConvention(config),
            config.terminateCircularRelationships, config.prefix, config.enumsPrefix, config.scalars,
            TransformUnderscore(config), ListElementCount(config), config.dynamicValues,
            GenerateLibrary(config), config.fieldGeneration, config.enumsAsTypes.GetOr(false),
            config.defaultNullableToNull.GetOr(false), false)
  }

  // ---------------------------------------------------------------------------
  // Factories

  /** `s` occurs in `text` at position `i`. */
  predicate OccursAt(text: string, s: string, i: int) {
    0 <= i && i + |s| <= |text| && text[i..i + |s|] == s
  }

  /** `s` occurs in `text` at some position. */
  ghost predicate Contains(text: string, s: string) {
    exists i :: OccursAt(text, s, i)
  }

  lemma ContainsMiddle(a: string, s: string, b: string)
    ensures Contains(a + s + b, s)
  {
    assert OccursAt(a + s + b, s, |a|);
  }

  /** How the field template writes a value: `null` is written out. */
  function ValueText(v: MockValue): string {
    match v
    case Null => "null"
    case Code(text) => text
  }

  /** One property of the returned object: the override when the caller passed one, the
      generated value otherwise. */
  function FieldLine(fieldName: string, value: MockValue): (r: string)
    // the property is named after the field
    ensures "        " + fieldName + ": " <= r
    // the caller's own value for the field is taken when the override object has it
    ensures Contains(r, OverrideTest(fieldName))
    // and the generated value otherwise
    ensures EndsWithText(r, " : " + ValueText(value) + ",")
  {
    var r := "        " + fieldName + ": " + OverrideTest(fieldName) + (" : " + ValueText(value) + ",");
    ThreeParts("        " + fieldName + ": ", OverrideTest(fieldName), " : " + ValueText(value) + ",");
    r
  }

  /** The test and the override of a field: `overrides && overrides.hasOwnProperty('f') ? overrides.f!`. */
  function OverrideTest(fieldName: string): string {
    "overrides && overrides.hasOwnProperty('" + fieldName + "') ? overrides." + fieldName + "!"
  }

  lemma ThreeParts(a: string, b: string, c: string)
    ensures a <= a + b + c
    ensures Contains(a + b + c, b)
    ensures EndsWithText(a + b + c, c)
  {
    assert (a + b + c)[..|a|] == a;
    assert OccursAt(a + b + c, b, |a|);
    assert (a + b + c)[|a + b|..] == c;
  }

  /** The property line of one field of `typeName`. */
  function FieldResult(env: Env, config: Config, types: seq<TypeItem>, typeName: string,
                       field: FieldDefinition): (r: Result<string>)
    requires UnionMembersAreNotUnions(types)
    ensures r.Ok? <==> FieldValue(env, config, types, typeName, field).Ok?
    ensures r.Ok? ==> r.value == FieldLine(field.name, FieldValue(env, config, types, typeName, field).value)
  {
    var value :- FieldValue(env, config, types, typeName, field);
    Ok(FieldLine(field.name, value))
  }

  /** The value `generateMockValue` produces for one field of `typeName`. */
  function FieldValue(env: Env, config: Config, types: seq<TypeItem>, typeName: string,
                      field: FieldDefinition): Result<MockValue>
    requires UnionMembersAreNotUnions(types)
  {
    GenerateMockValue(env, FieldOptions(config, types, typeName, field.name), field.fieldType)
  }

  /** The property lines of all fields, in declaration order, one per line. */
  function FieldLines(env: Env, config: Config, types: seq<TypeItem>, typeName: string,
                      fields: seq<FieldDefinition>): (r: Result<string>)
    requires UnionMembersAreNotUnions(types)
    ensures r.Ok? <==> forall i | 0 <= i < |fields| :: FieldResult(env, config, types, typeName, fields[i]).Ok?
    ensures |fields| == 0 ==> r == Ok("")
  {
    var results := seq(|fields|, i requires 0 <= i < |fields| => FieldResult(env, config, types, typeName, fields[i]));
    assert forall i | 0 <= i < |fields| :: results[i] == FieldResult(env, config, types, typeName, fields[i]);
    var lines :- CollectAll(results);
    Ok(Join("\n", lines))
  }

  /** Every field gives its property line, in declaration order: the line of the field's
      generated value, the lines joined by newlines. */
  lemma FieldLinesInOrder(env: Env, config: Config, types: seq<TypeItem>, typeName: string,
                          fields: seq<FieldDefinition>)
    requires UnionMembersAreNotUnions(types)
    requires FieldLines(env, config, types, typeName, fields).Ok?
    ensures exists values: seq<MockValue> :: FieldValuesGiveText(env, config, types, typeName, fields, values)
  {
    var results := seq(|fields|, i requires 0 <= i < |fields| => FieldResult(env, config, types, typeName, fields[i]));
    var lines := CollectAll(results).value;
    var values := seq(|fields|, i requires 0 <= i < |fields| =>
                    var v := FieldValue(env, config, types, typeName, fields[i]);
                    if v.Ok? then v.value else Null);
    forall i | 0 <= i < |fields|
      ensures FieldValue(env, config, types, typeName, fields[i]) == Ok(values[i])
      ensures lines[i] == FieldLine(fields[i].name, values[i])
    {
      assert results[i] == Ok(lines[i]);
    }
    assert FieldLines(env, config, types, typeName, fields).value == Join("\n", lines);
    assert lines == seq(|fields|, i requires 0 <= i < |fields| => FieldLine(fields[i].name, values[i]));
    assert FieldValuesGiveText(env, config, types, typeName, fields, values);
  }

  /** `values` are the generated values of the fields, in declaration order, and the field
      lines are the property lines of those values joined by newlines. */
  ghost predicate FieldValuesGiveText(env: Env, config: Config, types: seq<TypeItem>, typeName: string,
                                      fields: seq<FieldDefinition>, values: seq<MockValue>)
    requires UnionMembersAreNotUnions(types)
    requires FieldLines(env, config, types, typeName, fields).Ok?
  {
    |values| == |fields|
    && (forall i | 0 <= i < |fields| :: FieldValue(env, config, types, typeName, fields[i]) == Ok(values[i]))
    && FieldLines(env, config, types, typeName, fields).value
       == Join("\n", seq(|fields|, i requires 0 <= i < |fields| => FieldLine(fields[i].name, values[i])))
  }

  /** `t` is a suffix of `text`. */
  predicate EndsWithText(text: string, t: string) {
    |t| <= |text| && text[|text| - |t|..] == t
  }

  lemma ContainsWithin(a: string, x: string, b: string, s: string)
    requires Contains(x, s)
    ensures Contains(a + x + b, s)
  {
    var i :| OccursAt(x, s, i);
    assert (a + x + b)[|a| + i..|a| + i + |s|] == x[i..i + |s|];
    assert OccursAt(a + x + b, s, |a| + i);
  }

  lemma ContainsAfter(a: string, x: string, s: string)
    requires Contains(x, s)
    ensures Contains(a + x, s)
  {
    var i :| OccursAt(x, s, i);
    assert (a + x)[|a| + i..|a| + i + |s|] == x[i..i + |s|];
    assert OccursAt(a + x, s, |a| + i);
  }

  lemma PrefixOfConcat(a: string, b: string)
    ensures a <= a + b
  {
    assert (a + b)[..|a|] == a;
  }

  lemma EndsWithConcat(a: string, x: string, t: string)
    requires EndsWithText(x, t)
    ensures EndsWithText(a + x, t)
  {
    assert (a + x)[|a + x| - |t|..] == x[|x| - |t|..];
  }

  /** The property `__typename: 'T',` of a factory's object. */
  function TypenameMark(typeName: string): string {
    "__typename: '" + typeName + "',"
  }

  /** The statement that records a factory's own type in the omission set. */
  function AddToOmit(casedName: string): string {
    "relationshipsToOmit.add('" + casedName + "');"
  }

  /** The end of every factory: the returned object literal with its field lines. */
  function ObjectLiteral(typeName: string, addTypename: bool, fields: string): (r: string)
    ensures EndsWithText(r, "\n" + fields + "\n    };\n};")
    ensures addTypename ==> Contains(r, TypenameMark(typeName))
  {
    var tail := "\n" + fields + "\n    };\n};";
    var typename := if addTypename then "\n        " + TypenameMark(typeName) else "";
    var r := "\n    return {" + typename + tail;
    EndsWithConcat("\n    return {" + typename, tail, tail);
    if addTypename then
      assert r == "\n    return {\n        " + TypenameMark(typeName) + tail;
      ContainsMiddle("\n    return {\n        ", TypenameMark(typeName), tail);
      r
    else r
  }

  /** The start of every factory: `export const <factory> = `. */
  function ExportStart(factory: string): string {
    "\nexport const " + factory + " = "
  }

  /** The parameter `overrides`, typed by the cased type name with the types prefix. */
  function OverridesParam(casedNameWithPrefix: string): string {
    "(overrides?: Partial<" + casedNameWithPrefix + ">"
  }

  /** The second parameter of a factory in circular mode: the omission set, empty by default. */
  const OmitParam: string := ", _relationshipsToOmit: Set<string> = new Set()"

  /** `{ __typename: 'T' } & ` in front of the result type when `__typename` is added. */
  function TypenameReturnType(addTypename: bool, typeName: string): string {
    if addTypename then "{ __typename: '" + typeName + "' } & " else ""
  }

  /** The result type, the cased type name with the types prefix, and the opening brace. */
  function ReturnType(addTypename: bool, typeName: string, casedNameWithPrefix: string): string {
    "): " + TypenameReturnType(addTypename, typeName) + casedNameWithPrefix + " => {"
  }

  /** The copy of the caller's omission set, so that adding to it leaves the caller's alone. */
  const CopyOmissions: string := "\n    const relationshipsToOmit: Set<string> = new Set(_relationshipsToOmit);\n    "

  /** `getMockString`: the exported factory of one type, with the omission set in circular
      mode and the `__typename` property when asked for. */
  function MockString(lib: CaseLibrary, typeName: string, fields: string, typeNamesConvention: string,
                      terminateCircularRelationships: bool, addTypename: bool, prefix: Option<string>,
                      typesPrefix: Option<string>, transformUnderscore: bool): (r: string)
    // the export is named by `toMockName`
    ensures ExportStart(ToMockName(lib, typeName, NameConverter(lib, typeNamesConvention, transformUnderscore,
                                                                typeName, ""), prefix)) <= r
    // the object literal holds exactly the field lines
    ensures EndsWithText(r, "\n" + fields + "\n    };\n};")
    // the parameter and result types are the cased name with the types prefix
    ensures var casedNameWithPrefix := NameConverter(lib, typeNamesConvention, transformUnderscore, typeName,
                                                     typesPrefix.GetOr(""));
            Contains(r, OverridesParam(casedNameWithPrefix))
            && Contains(r, ReturnType(addTypename, typeName, casedNameWithPrefix))
    // in circular mode the factory takes the omission set, copies it and records its own cased
    // name in the copy before building fields
    ensures terminateCircularRelationships ==> Contains(r, OmitParam)
    ensures terminateCircularRelationships ==>
              Contains(r, CopyOmissions
                          + AddToOmit(NameConverter(lib, typeNamesConvention, transformUnderscore, typeName, "")))
    ensures terminateCircularRelationships ==>
              Contains(r, AddToOmit(NameConverter(lib, typeNamesConvention, transformUnderscore, typeName, "")))
    ensures addTypename ==> Contains(r, TypenameMark(typeName))
  {
    var casedName := NameConverter(lib, typeNamesConvention, transformUnderscore, typeName, "");
    var casedNameWithPrefix := NameConverter(lib, typeNamesConvention, transformUnderscore, typeName, typesPrefix.GetOr(""));
    var head := ExportStart(ToMockName(lib, typeName, casedName, prefix));
    var params := OverridesParam(casedNameWithPrefix);
    var resultType := ReturnType(addTypename, typeName, casedNameWithPrefix);
    var literal := ObjectLiteral(typeName, addTypename, fields);
    var omit := if terminateCircularRelationships then OmitParam else "";
    var add := if terminateCircularRelationships then CopyOmissions + AddToOmit(casedName) else "";
    var r := head + params + omit + resultType + add + literal;
    FactoryTextParts(head, params, omit, resultType, add, literal, AddToOmit(casedName), TypenameMark(typeName));
    EndsWithConcat(head + params + omit + resultType + add, literal, "\n" + fields + "\n    };\n};");
    ContainsSuffix(CopyOmissions, AddToOmit(casedName));
    r
  }

  /** Where the pieces of a factory end up in its text: the head in front and every other
      piece somewhere in it. */
  lemma FactoryTextParts(head: string, params: string, omit: string, resultType: string, add: string, literal: string,
                          addStatement: string, mark: string)
    ensures var r := head + params + omit + resultType + add + literal;
            head <= r && Contains(r, params) && Contains(r, omit) && Contains(r, resultType) && Contains(r, add)
            && Contains(r, literal)
    ensures var r := head + params + omit + resultType + add + literal;
            (Contains(add, addStatement) ==> Contains(r, addStatement)) && (Contains(literal, mark) ==> Contains(r, mark))
  {
    var r := head + params + omit + resultType + add + literal;
    assert r[..|head|] == head;
    var i := |head|;
    assert OccursAt(r, params, i);
    i := i + |params|;
    assert OccursAt(r, omit, i);
    i := i + |omit|;
    assert OccursAt(r, resultType, i);
    i := i + |resultType|;
    assert OccursAt(r, add, i);
    i := i + |add|;
    assert OccursAt(r, literal, i);
    if Contains(add, addStatement) {
      ContainsTransitive(r, add, addStatement);
    }
    if Contains(literal, mark) {
      ContainsTransitive(r, literal, mark);
    }
  }

  lemma ContainsSuffix(a: string, b: string)
    ensures Contains(a + b, b)
  {
    assert (a + b)[|a|..|a| + |b|] == b;
    assert OccursAt(a + b, b, |a|);
  }

  lemma ContainsTransitive(text: string, part: string, s: string)
    requires Contains(text, part) && Contains(part, s)
    ensures Contains(text, s)
  {
    var i :| OccursAt(text, part, i);
    var j :| OccursAt(part, s, j);
    assert text[i..i + |part|] == part;
    forall k | 0 <= k < |s| ensures text[i + j + k] == s[k] {
      assert text[i + j + k] == text[i..i + |part|][j + k];
      assert part[j + k] == part[j..j + |s|][k];
    }
    assert text[i + j..i + j + |s|] == s;
    assert OccursAt(text, s, i + j);
  }

  /** The factory a resolver reference calls is the one `getMockString` exports for that
      type, and in circular mode the name a reference checks in the omission set is the
      name that factory adds to it. */
  lemma ReferenceCallsExportedFactory(env: Env, config: Config, types: seq<TypeItem>, typeName: string,
                                      fieldName: string, target: string, fields: string, addTypename: bool)
    ensures var opts := FieldOptions(config, types, typeName, fieldName);
            var exported := MockString(env.cases, target, fields, TypeNamesConvention(config),
                                       config.terminateCircularRelationships, addTypename, config.prefix,
                                       config.typesPrefix, TransformUnderscore(config));
            ExportStart(FactoryName(env, opts, target)) <= exported
            && (config.terminateCircularRelationships ==> Contains(exported, AddToOmit(CasedName(env, opts, target))))
  {
  }

  // ---------------------------------------------------------------------------
  // Mock functions of the definitions

  /** The definitions that produce a factory: object, interface and input object types. */
  predicate HasMockFunction(def: Definition) {
    def.ObjectTypeDefinition? || def.InterfaceTypeDefinition? || def.InputObjectTypeDefinition?
  }

  /** The factory of one definition. Input object types never get a `__typename`. */
  function MockFunction(env: Env, config: Config, types: seq<TypeItem>, def: Definition): Result<string>
    requires UnionMembersAreNotUnions(types)
    requires HasMockFunction(def)
  {
    var fields :- FieldLines(env, config, types, def.name, def.fields);
    var addTypename := if def.InputObjectTypeDefinition? then false else config.addTypename;
    Ok(MockString(env.cases, def.name, fields, TypeNamesConvention(config), config.terminateCircularRelationships,
                  addTypename, config.prefix, config.typesPrefix, TransformUnderscore(config)))
  }

  /** The factory of a definition exists exactly when all its fields resolve; it is the
      factory `getMockString` writes for that name and those field lines, and only object and
      interface types get a `__typename`, input object types never. */
  lemma MockFunctionText(env: Env, config: Config, types: seq<TypeItem>, def: Definition)
    requires UnionMembersAreNotUnions(types)
    requires HasMockFunction(def)
    ensures MockFunction(env, config, types, def).Ok? <==> FieldLines(env, config, types, def.name, def.fields).Ok?
    ensures MockFunction(env, config, types, def).Ok? ==>
              var fields := FieldLines(env, config, types, def.name, def.fields).value;
              var text := MockFunction(env, config, types, def).value;
              text == MockString(env.cases, def.name, fields, TypeNamesConvention(config),
                                 config.terminateCircularRelationships,
                                 !def.InputObjectTypeDefinition? && config.addTypename, config.prefix,
                                 config.typesPrefix, TransformUnderscore(config))
              && EndsWithText(text, "\n" + fields + "\n    };\n};")
              && (!def.InputObjectTypeDefinition? && config.addTypename ==> Contains(text, TypenameMark(def.name)))
  {
  }

  /** The definitions with a factory, in document order. */
  function MockDefinitions(defs: seq<Definition>): (r: seq<Definition>)
    ensures forall d | d in r :: HasMockFunction(d) && d in defs
    ensures forall d | d in defs && HasMockFunction(d) :: d in r
  {
    if |defs| == 0 then []
    else
      var rest := MockDefinitions(defs[1..]);
      if HasMockFunction(defs[0]) then [defs[0]] + rest else rest
  }

  /** The factories follow document order: the definitions of a concatenation are those of
      each part in turn. */
  lemma {:induction false} MockDefinitionsKeepOrder(a: seq<Definition>, b: seq<Definition>)
    ensures MockDefinitions(a + b) == MockDefinitions(a) + MockDefinitions(b)
    decreases |a|
  {
    if |a| > 0 {
      assert (a + b)[0] == a[0];
      assert (a + b)[1..] == a[1..] + b;
      MockDefinitionsKeepOrder(a[1..], b);
    } else {
      assert a + b == b;
    }
  }

  /** A single definition is kept exactly when it has a factory. */
  lemma MockDefinitionsOfOne(d: Definition)
    ensures MockDefinitions([d]) == if HasMockFunction(d) then [d] else []
  {
    assert [d][1..] == [];
  }

  /** The factory of every definition that has one, in document order. */
  function MockResults(env: Env, config: Config, types: seq<TypeItem>, defs: seq<Definition>): (rs: seq<Result<string>>)
    requires UnionMembersAreNotUnions(types)
    ensures |rs| == |MockDefinitions(defs)|
    ensures forall i | 0 <= i < |rs| :: rs[i] == MockFunction(env, config, types, MockDefinitions(defs)[i])
  {
    var mockDefs := MockDefinitions(defs);
    seq(|mockDefs|, i requires 0 <= i < |mockDefs| => MockFunction(env, config, types, mockDefs[i]))
  }

  lemma MockResultsOk(env: Env, config: Config, types: seq<TypeItem>, defs: seq<Definition>)
    requires UnionMembersAreNotUnions(types)
    ensures (forall i | 0 <= i < |MockResults(env, config, types, defs)| :: MockResults(env, config, types, defs)[i].Ok?)
            <==> forall d | d in defs && HasMockFunction(d) :: MockFunction(env, config, types, d).Ok?
  {
    var rs := MockResults(env, config, types, defs);
    var ok := (d: Definition) => HasMockFunction(d) && MockFunction(env, config, types, d).Ok?;
    var flags := seq(|rs|, i requires 0 <= i < |rs| => rs[i].Ok?);
    EachMockDefinition(defs, ok, flags);
  }

  /** A property holds of every definition with a factory exactly when it holds at every
      position of the list of such definitions. */
  lemma EachMockDefinition(defs: seq<Definition>, ok: Definition -> bool, flags: seq<bool>)
    requires |flags| == |MockDefinitions(defs)|
    requires forall i | 0 <= i < |flags| :: flags[i] == ok(MockDefinitions(defs)[i])
    ensures (forall i | 0 <= i < |flags| :: flags[i]) <==> forall d | d in defs && HasMockFunction(d) :: ok(d)
  {
    var mockDefs := MockDefinitions(defs);
    if forall i | 0 <= i < |flags| :: flags[i] {
      forall d | d in defs && HasMockFunction(d) ensures ok(d) {
        var i :| 0 <= i < |mockDefs| && mockDefs[i] == d;
        assert flags[i];
      }
    } else {
      var i :| 0 <= i < |flags| && !flags[i];
      assert mockDefs[i] in mockDefs;
    }
  }

  /** All factories, in document order, separated by newlines; the first failing field
      fails the whole output. */
  function MockFunctions(env: Env, config: Config, types: seq<TypeItem>, defs: seq<Definition>): (r: Result<string>)
    requires UnionMembersAreNotUnions(types)
    ensures r.Ok? <==> forall d | d in defs && HasMockFunction(d) :: MockFunction(env, config, types, d).Ok?
  {
    MockResultsOk(env, config, types, defs);
    var texts :- CollectAll(MockResults(env, config, types, defs));
    Ok(Join("\n", texts))
  }

  // ---------------------------------------------------------------------------
  // Imports

  /** `\w`: an ASCII letter, digit or underscore. */
  predicate IsWordChar(c: char) {
    ('a' <= c <= 'z') || ('A' <= c <= 'Z') || ('0' <= c <= '9') || c == '_'
  }

  /** Where the longest run of word characters at the end of `s` begins. */
  function WordSuffixStart(s: string): (k: nat)
    ensures k <= |s|
    ensures forall j | k <= j < |s| :: IsWordChar(s[j])
    ensures k > 0 ==> !IsWordChar(s[k - 1])
  {
    if |s| == 0 || !IsWordChar(s[|s| - 1]) then |s| else WordSuffixStart(s[..|s| - 1])
  }

  /** `s.replace(/\.[\w]+$/, '')`: drops a final `.` followed by one or more word
      characters, and changes nothing when `s` does not end that way. */
  function StripExtension(s: string): (r: string)
    ensures r <= s
    ensures r != s ==> |r| + 1 < |s| && s[|r|] == '.' && forall j | |r| < j < |s| :: IsWordChar(s[j])
    ensures (exists p | 0 <= p < |s| - 1 :: s[p] == '.' && forall j | p < j < |s| :: IsWordChar(s[j])) ==> r != s
  {
    var k := WordSuffixStart(s);
    if 0 < k < |s| && s[k - 1] == '.' then s[..k - 1] else s
  }

  /** Stripping recovers the base name of a file with an extension of word characters. */
  lemma StripExtensionRoundTrip(base: string, ext: string)
    requires |ext| > 0 && forall j | 0 <= j < |ext| :: IsWordChar(ext[j])
    ensures StripExtension(base + "." + ext) == base
  {
    var s := base + "." + ext;
    var k := WordSuffixStart(s);
    assert s[|base|] == '.';
    assert forall j | |base| < j < |s| :: IsWordChar(s[j]) by {
      forall j | |base| < j < |s| ensures IsWordChar(s[j]) {
        assert s[j] == ext[j - |base| - 1];
      }
    }
    assert k == |base| + 1;
    assert s[..k - 1] == base;
  }

  /** The type names to import: the bare prefix when the prefix ends in `.`, otherwise each
      name converted with the prefix. */
  function PrefixedNames(lib: CaseLibrary, typeNamesConvention: string, transformUnderscore: bool,
                         names: seq<string>, prefix: Option<string>): (r: seq<string>)
    ensures prefix.Some? && EndsWith(prefix.value, '.') ==> r == [prefix.value[..|prefix.value| - 1]]
    ensures !(prefix.Some? && EndsWith(prefix.value, '.')) ==>
              |r| == |names|
              && forall i | 0 <= i < |names| ::
                   r[i] == NameConverter(lib, typeNamesConvention, transformUnderscore, names[i], prefix.GetOr(""))
  {
    if prefix.Some? && EndsWith(prefix.value, '.') then [prefix.value[..|prefix.value| - 1]]
    else seq(|names|, i requires 0 <= i < |names| =>
               NameConverter(lib, typeNamesConvention, transformUnderscore, names[i], prefix.GetOr("")))
  }

  /** The names of the registered enums, in registry order. */
  function EnumNames(types: seq<TypeItem>): (r: seq<string>)
    ensures forall x :: x in r <==> exists t | t in types :: t.EnumItem? && t.name == x
  {
    if |types| == 0 then []
    else
      var rest := EnumNames(types[..|types| - 1]);
      var last := types[|types| - 1];
      assert forall t | t in types :: t in types[..|types| - 1] || t == last;
      if last.EnumItem? then rest + [last.name] else rest
  }

  /** The enum names follow registry order: the names of a concatenation are those of each
      part in turn. */
  lemma {:induction false} EnumNamesKeepOrder(a: seq<TypeItem>, b: seq<TypeItem>)
    ensures EnumNames(a + b) == EnumNames(a) + EnumNames(b)
    decreases |b|
  {
    if |b| == 0 {
      assert a + b == a;
    } else {
      var b' := b[..|b| - 1];
      var last := b[|b| - 1];
      var tail := if last.EnumItem? then [last.name] else [];
      assert (a + b)[..|a + b| - 1] == a + b';
      assert (a + b)[|a + b| - 1] == last;
      assert EnumNames(a + b) == EnumNames(a + b') + tail;
      assert EnumNames(b) == EnumNames(b') + tail;
      EnumNamesKeepOrder(a, b');
      assert EnumNames(a) + EnumNames(b') + tail == EnumNames(a) + (EnumNames(b') + tail);
    }
  }

  /** A single entry gives its name exactly when it is an enum. */
  lemma EnumNamesOfOne(t: TypeItem)
    ensures EnumNames([t]) == if t.EnumItem? then [t.name] else []
  {
    assert [t][..0] == [];
  }

  /** `config.typesFile` is set to a non-empty string. */
  predicate IsSet(file: Option<string>) {
    file.Some? && file.value != ""
  }

  /** The names offered for import before de-duplication: the type imports followed, unless
      enums are emitted as string unions, by the enum imports. */
  function ImportCandidates(typeImports: seq<string>, enumTypes: seq<string>, enumsAsTypes: bool): seq<string> {
    if enumsAsTypes then typeImports else typeImports + enumTypes
  }

  /** `import { A, B } from 'file';` followed by a newline. */
  function ImportStatement(names: seq<string>, file: string): string {
    "import { " + Join(", ", names) + " } from '" + file + "';\n"
  }

  /** The import line: the candidates without repeats, in first-occurrence order, or nothing
      when no types file is configured. */
  function ImportLine(lib: CaseLibrary, typeNamesConvention: string, transformUnderscore: bool,
                      definitionNames: seq<string>, types: seq<TypeItem>, typesFile: Option<string>,
                      typesPrefix: Option<string>, enumsPrefix: Option<string>, enumsAsTypes: bool): string
  {
    if !IsSet(typesFile) then ""
    else
      var typeImports := PrefixedNames(lib, typeNamesConvention, transformUnderscore, definitionNames, typesPrefix);
      var enumTypes := PrefixedNames(lib, typeNamesConvention, transformUnderscore, EnumNames(types), enumsPrefix);
      ImportStatement(AppendIfNew(ImportCandidates(typeImports, enumTypes, enumsAsTypes)), typesFile.value)
  }

  /** `getImportTypes`: pushes the enum imports onto the type imports unless enums are
      emitted as string unions, then keeps the first occurrence of every name. */
  method GetImportTypes(lib: CaseLibrary, typeNamesConvention: string, transformUnderscore: bool,
                        definitionNames: seq<string>, types: seq<TypeItem>, typesFile: Option<string>,
                        typesPrefix: Option<string>, enumsPrefix: Option<string>, enumsAsTypes: bool)
    returns (r: string)
    ensures r == ImportLine(lib, typeNamesConvention, transformUnderscore, definitionNames, types, typesFile,
                            typesPrefix, enumsPrefix, enumsAsTypes)
  {
    var typeImports := PrefixedNames(lib, typeNamesConvention, transformUnderscore, definitionNames, typesPrefix);
    var enumTypes := PrefixedNames(lib, typeNamesConvention, transformUnderscore, EnumNames(types), enumsPrefix);
    ghost var candidates := ImportCandidates(typeImports, enumTypes, enumsAsTypes);
    if !enumsAsTypes {
      typeImports := typeImports + enumTypes;
    }
    if !IsSet(typesFile) {
      return "";
    }
    OnlyUniqueKeepsFirstOccurrences(typeImports);
    assert OnlyUnique(typeImports) == AppendIfNew(candidates);
    r := ImportStatement(OnlyUnique(typeImports), typesFile.value);
  }

  /** The imported names have no repeats, and a name is imported exactly when it is a type
      import or, unless enums are emitted as string unions, an enum import. */
  lemma ImportNamesDistinctAndComplete(typeImports: seq<string>, enumTypes: seq<string>, enumsAsTypes: bool)
    ensures NoDuplicates(AppendIfNew(ImportCandidates(typeImports, enumTypes, enumsAsTypes)))
    ensures forall x :: x in AppendIfNew(ImportCandidates(typeImports, enumTypes, enumsAsTypes)) <==>
                          x in typeImports || (!enumsAsTypes && x in enumTypes)
  {
    AppendIfNewProperties(ImportCandidates(typeImports, enumTypes, enumsAsTypes));
  }

  /** With both prefixes `Api.`, the whole import line is `import { Api } from ...`. */
  lemma SharedNamespaceImport(lib: CaseLibrary, typeNamesConvention: string, transformUnderscore: bool,
                              definitionNames: seq<string>, types: seq<TypeItem>)
    ensures ImportLine(lib, typeNamesConvention, transformUnderscore, definitionNames, types,
                       Some(StripExtension("./types/graphql.ts")), Some("Api."), Some("Api."), false)
            == "import { Api } from './types/graphql';\n"
  {
    StripExtensionRoundTrip("./types/graphql", "ts");
    assert "./types/graphql" + "." + "ts" == "./types/graphql.ts";
    assert EndsWith("Api.", '.') && "Api."[..3] == "Api";
    var typeImports := PrefixedNames(lib, typeNamesConvention, transformUnderscore, definitionNames, Some("Api."));
    var enumTypes := PrefixedNames(lib, typeNamesConvention, transformUnderscore, EnumNames(types), Some("Api."));
    assert typeImports == ["Api"] && enumTypes == ["Api"];
    var both := ImportCandidates(typeImports, enumTypes, false);
    assert both == ["Api", "Api"];
    assert both[..1] == ["Api"];
    assert AppendIfNew(both[..1]) == ["Api"];
    assert AppendIfNew(both) == ["Api"];
    assert Join(", ", ["Api"]) == "Api";
    var file := StripExtension("./types/graphql.ts");
    assert file == "./types/graphql";
    assert IsSet(Some(file));
    calc {
      ImportLine(lib, typeNamesConvention, transformUnderscore, definitionNames, types, Some(file),
                 Some("Api."), Some("Api."), false);
      ImportStatement(AppendIfNew(both), file);
      ImportStatement(["Api"], "./types/graphql");
      { ApiImportText(); }
      "import { Api } from './types/graphql';\n";
    }
  }

  lemma ApiImportText()
    ensures ImportStatement(["Api"], "./types/graphql") == "import { Api } from './types/graphql';\n"
  {
    assert Join(", ", ["Api"]) == "Api";
  }

  // ---------------------------------------------------------------------------
  // The plugin

  /** The three pieces `setupFunctionTokens` returns for a library. */
  datatype FunctionTokens = FunctionTokens(importLine: string, seed: string, seedFunction: string)

  /** `config.typesFile` without its extension. */
  function TypesFile(config: Config): Option<string> {
    if IsSet(config.typesFile) then Some(StripExtension(config.typesFile.value)) else None
  }

  /** The names that go into the import line: the types with a factory, in document order. */
  function DefinitionNames(defs: seq<Definition>): (r: seq<string>)
    ensures |r| == |MockDefinitions(defs)|
  {
    var mockDefs := MockDefinitions(defs);
    seq(|mockDefs|, i requires 0 <= i < |mockDefs| => mockDefs[i].name)
  }

  /** The file `plugin` returns, or the error it throws: the legacy `typenames` option is
      refused, a failing factory fails the whole file, and otherwise the file is laid out by
      `FileText` from the import line and the factories joined by newlines. */
  function PluginOutput(env: Env, tokens: Library -> FunctionTokens, weightedChoiceSource: string,
                        defs: seq<Definition>, config: Config): (r: Result<string>)
    requires UnionMembersAreNotUnions(RegistryOf(defs, UseImplementingTypes(config)))
    ensures config.hasLegacyTypenames ==> r.Err?
    ensures !config.hasLegacyTypenames ==>
              (r.Ok? <==> MockFunctions(env, config, RegistryOf(defs, UseImplementingTypes(config)), defs).Ok?)
  {
    if config.hasLegacyTypenames then Err("Config `typenames` was renamed to `typeNames`. Please update your config")
    else
      var types := RegistryOf(defs, UseImplementingTypes(config));
      var mockFns :- MockFunctions(env, config, types, defs);
      var imports := ImportLine(env.cases, TypeNamesConvention(config), TransformUnderscore(config),
                                DefinitionNames(defs), types, TypesFile(config), config.typesPrefix,
                                config.enumsPrefix, config.enumsAsTypes.GetOr(false));
      Ok(FileText(config.dynamicValues, config.defineWeightedChoice, tokens(GenerateLibrary(config)), imports,
                  weightedChoiceSource, mockFns))
  }

  /** `plugin`: registers the types, then writes the optional dynamic-mode prelude, the
      import line, every factory and the optional seeding epilogue. */
  method Plugin(env: Env, tokens: Library -> FunctionTokens, weightedChoiceSource: string,
                defs: seq<Definition>, config: Config) returns (r: Result<string>)
    requires UnionMembersAreNotUnions(RegistryOf(defs, UseImplementingTypes(config)))
    ensures r == PluginOutput(env, tokens, weightedChoiceSource, defs, config)
  {
    if config.hasLegacyTypenames {
      return Err("Config `typenames` was renamed to `typeNames`. Please update your config");
    }
    var types := CollectTypes(defs, UseImplementingTypes(config));
    var typesFile := TypesFile(config);
    var imports := GetImportTypes(env.cases, TypeNamesConvention(config), TransformUnderscore(config),
                                  DefinitionNames(defs), types, typesFile, config.typesPrefix, config.enumsPrefix,
                                  config.enumsAsTypes.GetOr(false));
    var mockFns := MockFunctions(env, config, types, defs);
    if mockFns.Err? {
      return Err(mockFns.error);
    }
    var functionTokens := tokens(GenerateLibrary(config));
    var mockFile := AssembleFile(config.dynamicValues, config.defineWeightedChoice, functionTokens,
                                 imports, weightedChoiceSource, mockFns.value);
    r := Ok(mockFile);
  }

  /** The generated file: in dynamic mode the library import, the import line, the seeding
      statement, the weighted-choice helper when it is to be defined, the factories and the
      seeding function; otherwise the import line and the factories; always a final newline. */
  function FileText(dynamicValues: bool, defineWeightedChoice: bool, functionTokens: FunctionTokens,
                    imports: string, weightedChoiceSource: string, mockFns: string): string
  {
    if dynamicValues then
      (functionTokens.importLine + "\n") + imports + ("\n" + functionTokens.seed + "\n")
      + (if defineWeightedChoice then "\nconst weightedChoice = " + weightedChoiceSource + "\n" else "")
      + mockFns + ("\n\n" + functionTokens.seedFunction) + "\n"
    else imports + mockFns + "\n"
  }

  /** In dynamic mode the file opens with the library import followed by the import line and
      closes with the factories and the seeding function. */
  lemma DynamicFileLayout(defineWeightedChoice: bool, functionTokens: FunctionTokens, imports: string,
                          weightedChoiceSource: string, mockFns: string)
    ensures var text := FileText(true, defineWeightedChoice, functionTokens, imports, weightedChoiceSource, mockFns);
            (functionTokens.importLine + "\n") + imports <= text
            && EndsWithText(text, mockFns + ("\n\n" + functionTokens.seedFunction) + "\n")
  {
    var head := (functionTokens.importLine + "\n") + imports;
    var seed := "\n" + functionTokens.seed + "\n";
    var helper := if defineWeightedChoice then "\nconst weightedChoice = " + weightedChoiceSource + "\n" else "";
    var tail := mockFns + ("\n\n" + functionTokens.seedFunction) + "\n";
    PrefixOfNested(head, seed, helper, tail);
    SuffixOfNested(head + seed + helper, mockFns, "\n\n" + functionTokens.seedFunction, "\n");
  }

  /** In dynamic mode the weighted-choice helper is defined in the file when asked for. */
  lemma DynamicFileDefinesHelper(functionTokens: FunctionTokens, imports: string, weightedChoiceSource: string,
                                 mockFns: string)
    ensures Contains(FileText(true, true, functionTokens, imports, weightedChoiceSource, mockFns),
                     "\nconst weightedChoice = " + weightedChoiceSource + "\n")
  {
    var before := (functionTokens.importLine + "\n") + imports + ("\n" + functionTokens.seed + "\n");
    var helper := "\nconst weightedChoice = " + weightedChoiceSource + "\n";
    var text := FileText(true, true, functionTokens, imports, weightedChoiceSource, mockFns);
    assert OccursAt(text, helper, |before|) by {
      assert text == before + helper + mockFns + ("\n\n" + functionTokens.seedFunction) + "\n";
      assert text[|before|..|before| + |helper|] == helper;
    }
  }

  /** Otherwise the file is the import line followed by the factories. */
  lemma StaticFileLayout(defineWeightedChoice: bool, functionTokens: FunctionTokens, imports: string,
                         weightedChoiceSource: string, mockFns: string)
    ensures var text := FileText(false, defineWeightedChoice, functionTokens, imports, weightedChoiceSource, mockFns);
            imports + mockFns <= text && EndsWithText(text, mockFns + "\n")
  {
    PrefixOfConcat(imports + mockFns, "\n");
    SuffixOfNested(imports, mockFns, "", "\n");
  }

  lemma PrefixOfNested(a: string, b: string, c: string, d: string)
    ensures a <= a + b + c + d
  {
    assert (a + b + c + d)[..|a|] == a;
  }

  lemma SuffixOfNested(a: string, b: string, c: string, d: string)
    ensures EndsWithText(a + b + c + d, b + c + d)
  {
    assert (a + b + c + d)[|a|..] == b + c + d;
  }

  /** The tail of `plugin`: the prelude of dynamic mode, the import line, the weighted-choice
      helper when it is to be defined, the factories and the seeding epilogue. */
  method AssembleFile(dynamicValues: bool, defineWeightedChoice: bool, functionTokens: FunctionTokens,
                      imports: string, weightedChoiceSource: string, mockFns: string)
    returns (mockFile: string)
    ensures mockFile == FileText(dynamicValues, defineWeightedChoice, functionTokens, imports,
                                 weightedChoiceSource, mockFns)
  {
    mockFile := "";
    if dynamicValues {
      mockFile := mockFile + (functionTokens.importLine + "\n");
    }
    mockFile := mockFile + imports;
    if dynamicValues {
      mockFile := mockFile + ("\n" + functionTokens.seed + "\n");
    }
    if dynamicValues && defineWeightedChoice {
      mockFile := mockFile + ("\nconst weightedChoice = " + weightedChoiceSource + "\n");
    }
    mockFile := mockFile + mockFns;
    if dynamicValues {
      mockFile := mockFile + ("\n\n" + functionTokens.seedFunction);
    }
    mockFile := mockFile + "\n";
  }
}
