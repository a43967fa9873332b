/**
 * The value-generator adapter: normalising generator options
 * (`getGeneratorDefinition`), the weighted draw (`weightedChoice`), resolving a
 * generator against `casual` or `faker` (`getCasualCustomValue`,
 * `getFakerGenerators`, `getFakerCustomValue`) and choosing among several
 * generators (`getCustomValue`).
 *
 * The libraries themselves are external: what `casual` holds under a name, the
 * shape of the `faker` namespace, the values the libraries produce after being
 * seeded, their uniform random draw and the JSON text of a number are fields of
 * a `Backend` value.
 */
module Generators {
  import opened Results
  import opened Strings

  /** A generator argument, given by its JSON text (`JSON.stringify` of the value). */
  datatype Arg = Arg(json: string)

  /** `arguments` of a definition: an array, or a single value that gets wrapped. */
  datatype Arguments = ArgArray(items: seq<Arg>) | ArgValue(item: Arg)

  /** The optional chained call `extra: { function, arguments? }`. */
  datatype Extra = Extra(functionName: string, arguments: Option<Arguments>)

  /** `GeneratorDefinition`. */
  datatype GeneratorDefinition = GeneratorDefinition(
    generator: string,
    arguments: Arguments,
    extra: Option<Extra>,
    weight: Option<real>)

  /** One element of `GeneratorOptions`: a bare generator name or a full definition. */
  datatype GeneratorEntry = ByName(name: string) | ByDefinition(definition: GeneratorDefinition)

  /** `GeneratorOptions`: one entry, or an array of entries. */
  datatype GeneratorOptions = OneGenerator(entry: GeneratorEntry) | GeneratorList(entries: seq<GeneratorEntry>)

  /** The configured `generateLibrary`; anything but the two known names is kept as is. */
  datatype Library = Casual | Faker | UnknownLibrary(name: string)

  /** What `casual[name]` is. */
  datatype CasualMember = Absent | CasualFunction | CasualProperty(truthy: bool)

  /** The `faker` namespace as a tree: nested objects whose leaves are functions or other values. */
  datatype FakerValue = FakerObject(members: map<string, FakerValue>) | FakerFunction | FakerOther

  /** A value produced by calling a library generator in static mode. */
  datatype LibValue = StringValue(s: string) | ObjectValue(json: string) | OtherValue(text: string)

  /** The external libraries as seen by the generator. */
  datatype Backend = Backend(
    casualMember: string -> CasualMember,
    faker: FakerValue,
    /** The static value of a `casual` definition after seeding with the given seed. */
    casualCall: (GeneratorDefinition, int) -> LibValue,
    /** The static value of a `faker` definition after seeding with the given seed. */
    fakerCall: (GeneratorDefinition, int) -> LibValue,
    /** The library's uniform draw in [0, 1] after seeding with the given seed. */
    random: (Library, int) -> real,
    /** `JSON.stringify` of a number. */
    numberText: real -> string)

  /** Everything `getCustomValue` reads from the resolver's options. */
  datatype GenContext = GenContext(backend: Backend, library: Library, dynamicValues: bool, seed: int)

  // ---------------------------------------------------------------------------
  // getGeneratorDefinition

  /** A bare name becomes a definition with an empty argument array. */
  function EntryDefinition(e: GeneratorEntry): GeneratorDefinition {
    match e
    case ByName(name) => GeneratorDefinition(name, ArgArray([]), None, None)
    case ByDefinition(d) => d
  }

  /** `getGeneratorDefinition` on a defined value: always an array, one definition per entry. */
  function Normalize(o: GeneratorOptions): (defs: seq<GeneratorDefinition>)
    ensures o.OneGenerator? ==> defs == [EntryDefinition(o.entry)]
    ensures o.GeneratorList? ==> |defs| == |o.entries|
    ensures o.GeneratorList? ==> forall i | 0 <= i < |defs| :: defs[i] == EntryDefinition(o.entries[i])
  {
    match o
    case OneGenerator(e) => [EntryDefinition(e)]
    case GeneratorList(es) => seq(|es|, i requires 0 <= i < |es| => EntryDefinition(es[i]))
  }

  /** `getGeneratorDefinition`: `undefined` stays `undefined`. */
  function GetGeneratorDefinition(value: Option<GeneratorOptions>): (r: Option<seq<GeneratorDefinition>>)
    ensures r.None? <==> value.None?
  {
    match value
    case None => None
    case Some(o) => Some(Normalize(o))
  }

  /** A bare generator name and the definition it stands for normalise alike. */
  lemma NameIsShorthand(name: string)
    ensures Normalize(OneGenerator(ByName(name)))
         == Normalize(OneGenerator(ByDefinition(GeneratorDefinition(name, ArgArray([]), None, None))))
    ensures Normalize(OneGenerator(ByName(name))) == Normalize(GeneratorList([ByName(name)]))
  {
  }

  // ---------------------------------------------------------------------------
  // weightedChoice

  /** `weights.reduce((acc, w) => acc + w, 0)`. */
  function Sum(ws: seq<real>): real {
    if |ws| == 0 then 0.0 else Sum(ws[..|ws| - 1]) + ws[|ws| - 1]
  }

  lemma {:induction false} SumNonNegative(ws: seq<real>)
    requires forall i | 0 <= i < |ws| :: ws[i] >= 0.0
    ensures Sum(ws) >= 0.0
  {
    if |ws| > 0 {
      SumNonNegative(ws[..|ws| - 1]);
    }
  }

  /** The running total `weights[0] + ... + weights[j]`. */
  function Cumulative(ws: seq<real>, j: nat): real
    requires j < |ws|
  {
    Sum(ws[..j + 1])
  }

  /** The least index `i >= from` whose running total reaches `target`. */
  function SearchFrom(ws: seq<real>, target: real, from: nat): (r: Option<nat>)
    requires from <= |ws|
    ensures r.Some? ==> from <= r.value < |ws| && target <= Cumulative(ws, r.value)
    ensures r.Some? ==> forall j | from <= j < r.value :: Cumulative(ws, j) < target
    ensures r.None? ==> forall j | from <= j < |ws| :: Cumulative(ws, j) < target
    decreases |ws| - from
  {
    if from == |ws| then None
    else if target <= Cumulative(ws, from) then Some(from)
    else SearchFrom(ws, target, from + 1)
  }

  /** The index `weightedChoice(weights, () => random)` returns, or `None` where it throws:
      the least `i` with `random * total <= weights[0] + ... + weights[i]`. */
  function WeightedIndex(weights: seq<real>, random: real): (r: Option<nat>)
    ensures r.Some? ==> r.value < |weights|
    ensures r.Some? ==> random * Sum(weights) <= Cumulative(weights, r.value)
    ensures r.Some? ==> forall j | 0 <= j < r.value :: Cumulative(weights, j) < random * Sum(weights)
    ensures r.None? ==> forall j | 0 <= j < |weights| :: Cumulative(weights, j) < random * Sum(weights)
  {
    SearchFrom(weights, random * Sum(weights), 0)
  }

  /** `weightedChoice`: subtracts each weight from the scaled draw until the remainder
      fits in the current weight; throws when no weight does. */
  method WeightedChoice(weights: seq<real>, random: real) returns (r: Result<nat>)
    ensures r.Ok? <==> WeightedIndex(weights, random).Some?
    ensures r.Ok? ==> r.value < |weights|
    ensures r.Ok? ==> random * Sum(weights) <= Cumulative(weights, r.value)
    ensures r.Ok? ==> forall j | 0 <= j < r.value :: Cumulative(weights, j) < random * Sum(weights)
  {
    var totalWeight := Sum(weights);
    var randomNum := random * totalWeight;
    ghost var target := randomNum;
    var i := 0;
    while i < |weights|
      invariant 0 <= i <= |weights|
      invariant randomNum == target - Sum(weights[..i])
      invariant forall j | 0 <= j < i :: Cumulative(weights, j) < target
    {
      assert weights[..i + 1][..i] == weights[..i];
      assert Cumulative(weights, i) == Sum(weights[..i]) + weights[i];
      if randomNum <= weights[i] {
        return Ok(i);
      }
      randomNum := randomNum - weights[i];
      i := i + 1;
    }
    return Err("Something went wrong in weightedChoice.");
  }

  /** With non-negative weights, at least one weight and a draw in [0, 1], the draw
      always lands on an index. */
  lemma WeightedIndexExists(weights: seq<real>, random: real)
    requires |weights| > 0
    requires forall i | 0 <= i < |weights| :: weights[i] >= 0.0
    requires 0.0 <= random <= 1.0
    ensures WeightedIndex(weights, random).Some?
  {
    SumNonNegative(weights);
    var total := Sum(weights);
    assert random * total <= total by {
      assert (1.0 - random) * total >= 0.0;
    }
    assert Cumulative(weights, |weights| - 1) == total by {
      assert weights[..|weights| - 1 + 1] == weights;
    }
  }

  /** Without any weight there is nothing to land on: `weightedChoice` throws. */
  lemma WeightedIndexEmpty(random: real)
    ensures WeightedIndex([], random).None?
  {
  }

  /** The weights `getCustomValue` passes: each definition's weight, 1 when absent, in order. */
  function Weights(defs: seq<GeneratorDefinition>): (ws: seq<real>)
    ensures |ws| == |defs|
    ensures forall i | 0 <= i < |defs| ::
              ws[i] == (if defs[i].weight.Some? then defs[i].weight.value else 1.0)
  {
    seq(|defs|, i requires 0 <= i < |defs| => defs[i].weight.GetOr(1.0))
  }

  // ---------------------------------------------------------------------------
  // Shared text building

  /** JavaScript truthiness of an argument, read from its JSON text. */
  predicate ArgTruthy(a: Arg) {
    a.json !in {"0", "-0", "\"\"", "null", "false"}
  }

  /** `Array.isArray(a) ? a : [a]`. */
  function ArgList(a: Arguments): seq<Arg> {
    match a
    case ArgArray(items) => items
    case ArgValue(item) => [item]
  }

  /** `extraArguments`: the extra call's arguments when `extra.arguments` is truthy, else `[]`. */
  function ExtraArguments(d: GeneratorDefinition): seq<Arg> {
    if d.extra.None? || d.extra.value.arguments.None? then []
    else
      match d.extra.value.arguments.value
      case ArgArray(items) => items
      case ArgValue(item) => if ArgTruthy(item) then [item] else []
  }

  /** `JSON.stringify` of an array whose elements have the given JSON texts. */
  function JsonArray(texts: seq<string>): string {
    "[" + Join(",", texts) + "]"
  }

  function ArgsJson(args: seq<Arg>): string {
    JsonArray(seq(|args|, i requires 0 <= i < |args| => args[i].json))
  }

  /** `(...[args])` when there are arguments, `()` otherwise. */
  function CallSuffix(args: seq<Arg>): string {
    if |args| > 0 then "(..." + ArgsJson(args) + ")" else "()"
  }

  /** The chained `.fn(...)` of dynamic mode, empty without `extra`. */
  function ExtraCall(d: GeneratorDefinition): string {
    if d.extra.None? then ""
    else "." + d.extra.value.functionName + CallSuffix(ExtraArguments(d))
  }

  /** A call without arguments is `()`; otherwise the arguments are spread from their JSON
      array, in order. */
  lemma CallSuffixText(args: seq<Arg>)
    ensures CallSuffix(args) == "()" <==> |args| == 0
    ensures |args| > 0 ==>
              CallSuffix(args) == "(...[" + Join(",", seq(|args|, i requires 0 <= i < |args| => args[i].json)) + "])"
  {
    if |args| > 0 {
      assert |CallSuffix(args)| > 2;
    }
  }

  /** The extra call is absent exactly without `extra`; a missing or falsy single argument
      gives `.fn()`, and an argument array is passed whole. */
  lemma ExtraCallText(d: GeneratorDefinition)
    ensures ExtraCall(d) == "" <==> d.extra.None?
    ensures d.extra.Some? && (d.extra.value.arguments.None?
                              || (d.extra.value.arguments.value.ArgValue? && !ArgTruthy(d.extra.value.arguments.value.item))) ==>
              ExtraCall(d) == "." + d.extra.value.functionName + "()"
    ensures d.extra.Some? && d.extra.value.arguments.Some? && d.extra.value.arguments.value.ArgArray? ==>
              ExtraCall(d) == "." + d.extra.value.functionName + CallSuffix(d.extra.value.arguments.value.items)
  {
    if d.extra.Some? {
      assert ExtraCall(d)[0] == '.';
    }
  }

  /** How a static library value is written into the source: strings quoted, objects as JSON,
      anything else as its own text. */
  function FormatValue(v: LibValue): string {
    match v
    case StringValue(s) => "'" + s + "'"
    case ObjectValue(json) => json
    case OtherValue(text) => text
  }

  // ---------------------------------------------------------------------------
  // casual

  predicate CasualTruthy(m: CasualMember) {
    m.CasualFunction? || (m.CasualProperty? && m.truthy)
  }

  /** `getCasualCustomValue`. In static mode an empty name that is not a truthy `casual` member
      falls through with no value, and the extra call on it is a TypeError. */
  function CasualCustomValue(b: Backend, d: GeneratorDefinition, dynamicValues: bool, seed: int): (r: Result<string>)
    ensures !CasualTruthy(b.casualMember(d.generator)) && d.generator != "" ==> r == Ok(d.generator)
    ensures r.Err? <==>
              !dynamicValues && d.generator == "" && !CasualTruthy(b.casualMember(d.generator)) && d.extra.Some?
    ensures CasualTruthy(b.casualMember(d.generator)) && dynamicValues ==>
              r.Ok? && "casual['" + d.generator + "']" <= r.value
    // dynamic mode: the member access, called when the member is a function, then the extra call
    ensures (CasualTruthy(b.casualMember(d.generator)) || d.generator == "") && dynamicValues ==>
              r == Ok("casual['" + d.generator + "']"
                      + (if b.casualMember(d.generator).CasualFunction? then CallSuffix(ArgList(d.arguments)) else "")
                      + ExtraCall(d))
    // static mode: the seeded library value, a string quoted
    ensures CasualTruthy(b.casualMember(d.generator)) && !dynamicValues ==>
              r == Ok(FormatValue(b.casualCall(d, seed)))
    ensures d.generator == "" && !dynamicValues && d.extra.None? ==>
              r == Ok(FormatValue(b.casualCall(d, seed)))
    ensures CasualTruthy(b.casualMember(d.generator)) && !dynamicValues && b.casualCall(d, seed).StringValue? ==>
              r == Ok("'" + b.casualCall(d, seed).s + "'")
  {
    var member := b.casualMember(d.generator);
    if !CasualTruthy(member) && d.generator != "" then Ok(d.generator)
    else if dynamicValues then
      var functionCall := if member.CasualFunction? then CallSuffix(ArgList(d.arguments)) else "";
      Ok("casual['" + d.generator + "']" + functionCall + ExtraCall(d))
    else if !CasualTruthy(member) && d.extra.Some? then
      Err("Cannot read properties of undefined (reading '" + d.extra.value.functionName + "')")
    else Ok(FormatValue(b.casualCall(d, seed)))
  }

  // ---------------------------------------------------------------------------
  // faker

  /** One step of the walk in `getFakerGenerators`: descend into `key` when the current value
      is an object that has it (and extend the generated access path); otherwise skip the key. */
  function WalkStep(node: FakerValue, text: string, key: string): (FakerValue, string) {
    if node.FakerObject? && key in node.members then (node.members[key], text + "['" + key + "']")
    else (node, text)
  }

  /** The walk over all remaining keys, from a given value and access path. */
  function Walk(node: FakerValue, text: string, keys: seq<string>): (FakerValue, string)
    decreases |keys|
  {
    if |keys| == 0 then (node, text)
    else
      var (n, t) := WalkStep(node, text, keys[0]);
      Walk(n, t, keys[1..])
  }

  /** The `dynamicGenerator` that `getFakerGenerators(name)` returns, `None` for `null`. */
  function FakerGenerator(root: FakerValue, name: string): Option<string> {
    var (node, text) := Walk(root, "faker", Split(name, '.'));
    if node.FakerFunction? then Some(text) else None
  }

  /** `getFakerGenerators`: walks the dotted path through the `faker` namespace. */
  method GetFakerGenerators(root: FakerValue, generatorName: string) returns (dynamicGenerator: Option<string>)
    ensures dynamicGenerator == FakerGenerator(root, generatorName)
  {
    var embeddedGenerator := root;
    var dynamicText := "faker";
    var generatorPath := Split(generatorName, '.');
    var i := 0;
    while i < |generatorPath|
      invariant 0 <= i <= |generatorPath|
      invariant Walk(embeddedGenerator, dynamicText, generatorPath[i..]) == Walk(root, "faker", generatorPath)
    {
      var key := generatorPath[i];
      assert generatorPath[i..][1..] == generatorPath[i + 1..];
      if embeddedGenerator.FakerObject? && key in embeddedGenerator.members {
        embeddedGenerator := embeddedGenerator.members[key];
        dynamicText := dynamicText + "['" + key + "']";
      }
      i := i + 1;
    }
    if embeddedGenerator.FakerFunction? {
      dynamicGenerator := Some(dynamicText);
    } else {
      dynamicGenerator := None;
    }
  }

  /** Reference lookup of a path in the namespace tree. */
  function Lookup(node: FakerValue, keys: seq<string>): Option<FakerValue>
    decreases |keys|
  {
    if |keys| == 0 then Some(node)
    else if node.FakerObject? && keys[0] in node.members then Lookup(node.members[keys[0]], keys[1..])
    else None
  }

  /** The bracketed access path `['k1']['k2']...`. */
  function Brackets(keys: seq<string>): string
    decreases |keys|
  {
    if |keys| == 0 then "" else "['" + keys[0] + "']" + Brackets(keys[1..])
  }

  /** A path that exists in the namespace is followed to its end, and the emitted access
      expression names every key in order. */
  lemma {:induction false} WalkFollowsExistingPath(node: FakerValue, text: string, keys: seq<string>)
    requires Lookup(node, keys).Some?
    ensures Walk(node, text, keys) == (Lookup(node, keys).value, text + Brackets(keys))
    decreases |keys|
  {
    if |keys| > 0 {
      var t := text + "['" + keys[0] + "']";
      assert Lookup(node, keys) == Lookup(node.members[keys[0]], keys[1..]);
      assert Walk(node, text, keys) == Walk(node.members[keys[0]], t, keys[1..]);
      WalkFollowsExistingPath(node.members[keys[0]], t, keys[1..]);
      assert Brackets(keys) == "['" + keys[0] + "']" + Brackets(keys[1..]);
      assert t + Brackets(keys[1..]) == text + Brackets(keys);
    } else {
      assert text + Brackets(keys) == text;
    }
  }

  /** A dotted name that leads to a function in `faker` yields `faker['k1']...['kn']`. */
  lemma FakerGeneratorOfExistingPath(root: FakerValue, name: string)
    requires Lookup(root, Split(name, '.')) == Some(FakerFunction)
    ensures FakerGenerator(root, name) == Some("faker" + Brackets(Split(name, '.')))
  {
    WalkFollowsExistingPath(root, "faker", Split(name, '.'));
  }

  /** `getFakerCustomValue`. A missing generator with an empty name falls through to a call of
      `null`: its text in dynamic mode, a TypeError in static mode. */
  function FakerCustomValue(b: Backend, d: GeneratorDefinition, dynamicValues: bool, seed: int): (r: Result<string>)
    ensures FakerGenerator(b.faker, d.generator).None? && d.generator != "" ==> r == Ok(d.generator)
    ensures r.Err? <==> !dynamicValues && FakerGenerator(b.faker, d.generator).None? && d.generator == ""
    // dynamic mode: the access path, always called, then the extra call
    ensures dynamicValues && FakerGenerator(b.faker, d.generator).Some? ==>
              r == Ok(FakerGenerator(b.faker, d.generator).value + CallSuffix(ArgList(d.arguments)) + ExtraCall(d))
    ensures dynamicValues && FakerGenerator(b.faker, d.generator).None? && d.generator == "" ==>
              r == Ok("null" + CallSuffix(ArgList(d.arguments)) + ExtraCall(d))
    // static mode: the seeded library value, a string quoted
    ensures !dynamicValues && FakerGenerator(b.faker, d.generator).Some? ==>
              r == Ok(FormatValue(b.fakerCall(d, seed)))
    ensures !dynamicValues && FakerGenerator(b.faker, d.generator).Some? && b.fakerCall(d, seed).StringValue? ==>
              r == Ok("'" + b.fakerCall(d, seed).s + "'")
  {
    var dynamicGenerator := FakerGenerator(b.faker, d.generator);
    if dynamicGenerator.None? && d.generator != "" then Ok(d.generator)
    else if dynamicValues then
      Ok(dynamicGenerator.GetOr("null") + CallSuffix(ArgList(d.arguments)) + ExtraCall(d))
    else if dynamicGenerator.None? then Err("embeddedGenerator is not a function")
    else Ok(FormatValue(b.fakerCall(d, seed)))
  }

  // ---------------------------------------------------------------------------
  // getCustomValue

  /** `getLibraryCustomValue` inside `getCustomValue`. */
  function LibraryCustomValue(ctx: GenContext, d: GeneratorDefinition): (r: Result<string>)
    ensures ctx.library.UnknownLibrary? ==> r.Err?
  {
    match ctx.library
    case Casual => CasualCustomValue(ctx.backend, d, ctx.dynamicValues, ctx.seed)
    case Faker => FakerCustomValue(ctx.backend, d, ctx.dynamicValues, ctx.seed)
    case UnknownLibrary(name) => Err("Unknown generator library: " + name)
  }

  /** `generatorDefinitions.map(getLibraryCustomValue)`, stopping at the first throw. */
  function LibraryCustomValues(ctx: GenContext, defs: seq<GeneratorDefinition>): (r: Result<seq<string>>)
    ensures r.Ok? ==> |r.value| == |defs|
    ensures r.Ok? ==> forall i | 0 <= i < |defs| :: LibraryCustomValue(ctx, defs[i]) == Ok(r.value[i])
    ensures (forall i | 0 <= i < |defs| :: LibraryCustomValue(ctx, defs[i]).Ok?) ==> r.Ok?
    decreases |defs|
  {
    if |defs| == 0 then Ok([])
    else
      var first :- LibraryCustomValue(ctx, defs[0]);
      var rest :- LibraryCustomValues(ctx, defs[1..]);
      Ok([first] + rest)
  }

  /** `getRandomFunctionDynamic`: the source text of the library's uniform draw. */
  function RandomCallText(library: Library): (r: Result<string>)
    ensures r.Err? <==> library.UnknownLibrary?
  {
    match library
    case Casual => Ok("casual.double(0, 1.0)")
    case Faker => Ok("faker.datatype.float({ max: 1.0 })")
    case UnknownLibrary(name) => Err("Unknown generator library: " + name)
  }

  /** The index static mode picks: 0 for a single generator, else the weighted draw. */
  function StaticIndex(ctx: GenContext, defs: seq<GeneratorDefinition>): (r: Result<nat>)
    ensures r.Ok? ==> r.value < |defs|
    ensures |defs| == 1 ==> r == Ok(0)
    // otherwise the index is the weighted draw over the definitions' weights
    ensures |defs| != 1 && ctx.library.UnknownLibrary? ==> r.Err?
    ensures |defs| != 1 && !ctx.library.UnknownLibrary? ==>
              (r.Ok? <==> WeightedIndex(Weights(defs), ctx.backend.random(ctx.library, ctx.seed)).Some?)
    ensures |defs| != 1 && r.Ok? ==> Some(r.value) == WeightedIndex(Weights(defs), ctx.backend.random(ctx.library, ctx.seed))
  {
    if |defs| == 1 then Ok(0)
    else if ctx.library.UnknownLibrary? then Err("Unknown generator library: " + ctx.library.name)
    else
      match WeightedIndex(Weights(defs), ctx.backend.random(ctx.library, ctx.seed))
      case Some(i) => Ok(i)
      case None => Err("Something went wrong in weightedChoice.")
  }

  /** One thunk `() => value` per generator value, in order. */
  function Thunks(values: seq<string>): (r: seq<string>)
    ensures |r| == |values|
  {
    seq(|values|, i requires 0 <= i < |values| => "() => " + values[i])
  }

  /** The JSON text of each weight, in order. */
  function WeightTexts(ctx: GenContext, weights: seq<real>): (r: seq<string>)
    ensures |r| == |weights|
  {
    seq(|weights|, i requires 0 <= i < |weights| => ctx.backend.numberText(weights[i]))
  }

  /** The runtime choice emitted in dynamic mode. */
  function DynamicChoice(ctx: GenContext, values: seq<string>, weights: seq<real>, randomCall: string): string {
    "[" + Join(", ", Thunks(values)) + "][weightedChoice(" + JsonArray(WeightTexts(ctx, weights))
      + ", () => " + randomCall + ")]()"
  }

  /** `getCustomValue`. */
  function GetCustomValue(ctx: GenContext, defs: seq<GeneratorDefinition>): (r: Result<string>)
    // static mode returns the value of one of the generators, the single one without a draw
    ensures !ctx.dynamicValues && r.Ok? ==>
              exists i | 0 <= i < |defs| :: LibraryCustomValue(ctx, defs[i]) == r
    ensures !ctx.dynamicValues && |defs| == 1 ==> r == LibraryCustomValue(ctx, defs[0])
    // static mode with no generator at all throws in weightedChoice
    ensures !ctx.dynamicValues && |defs| == 0 ==> r.Err?
    // dynamic mode with one generator emits its value as is, without a runtime draw
    ensures ctx.dynamicValues && |defs| == 1 && LibraryCustomValue(ctx, defs[0]).Ok? ==>
              r == LibraryCustomValue(ctx, defs[0])
    ensures ctx.library.UnknownLibrary? ==> r.Err?
    // static mode with several generators returns the value of the weighted draw's generator
    ensures !ctx.dynamicValues && |defs| != 1 && !ctx.library.UnknownLibrary? ==>
              var w := WeightedIndex(Weights(defs), ctx.backend.random(ctx.library, ctx.seed));
              (w.None? ==> r.Err?) && (w.Some? ==> r == LibraryCustomValue(ctx, defs[w.value]))
  {
    if !ctx.dynamicValues then
      var index :- StaticIndex(ctx, defs);
      LibraryCustomValue(ctx, defs[index])
    else
      var values :- LibraryCustomValues(ctx, defs);
      if |defs| == 1 then Ok(values[0])
      else
        var randomCall :- RandomCallText(ctx.library);
        Ok(DynamicChoice(ctx, values, Weights(defs), randomCall))
  }

  /** With non-negative weights and a draw in [0, 1], static mode with several generators
      never throws in the draw: it returns the value of the least generator whose running
      weight total reaches the scaled draw. */
  lemma StaticChoiceDraws(ctx: GenContext, defs: seq<GeneratorDefinition>)
    requires !ctx.dynamicValues && |defs| > 1 && !ctx.library.UnknownLibrary?
    requires forall i | 0 <= i < |defs| :: defs[i].weight.GetOr(1.0) >= 0.0
    requires 0.0 <= ctx.backend.random(ctx.library, ctx.seed) <= 1.0
    ensures WeightedIndex(Weights(defs), ctx.backend.random(ctx.library, ctx.seed)).Some?
    ensures GetCustomValue(ctx, defs)
         == LibraryCustomValue(ctx, defs[WeightedIndex(Weights(defs), ctx.backend.random(ctx.library, ctx.seed)).value])
  {
    var ws := Weights(defs);
    forall i | 0 <= i < |ws| ensures ws[i] >= 0.0 {
      assert ws[i] == defs[i].weight.GetOr(1.0);
    }
    WeightedIndexExists(ws, ctx.backend.random(ctx.library, ctx.seed));
  }

  /** In dynamic mode with several generators, the emitted expression lists one thunk per
      generator in the given order and passes every weight, 1 when absent, in the same order. */
  lemma DynamicChoiceShape(ctx: GenContext, defs: seq<GeneratorDefinition>)
    requires ctx.dynamicValues && |defs| != 1
    requires GetCustomValue(ctx, defs).Ok?
    ensures LibraryCustomValues(ctx, defs).Ok? && RandomCallText(ctx.library).Ok?
    ensures var values := LibraryCustomValues(ctx, defs).value;
            |values| == |defs| &&
            GetCustomValue(ctx, defs).value ==
              "[" + Join(", ", Thunks(values)) + "][weightedChoice([" + Join(",", WeightTexts(ctx, Weights(defs)))
              + "], () => " + RandomCallText(ctx.library).value + ")]()"
  {
    DynamicChoiceEmitted(ctx, defs);
    DynamicChoiceText(ctx, LibraryCustomValues(ctx, defs).value, Weights(defs), RandomCallText(ctx.library).value);
  }

  lemma DynamicChoiceEmitted(ctx: GenContext, defs: seq<GeneratorDefinition>)
    requires ctx.dynamicValues && |defs| != 1
    requires GetCustomValue(ctx, defs).Ok?
    ensures LibraryCustomValues(ctx, defs).Ok? && RandomCallText(ctx.library).Ok?
    ensures GetCustomValue(ctx, defs)
         == Ok(DynamicChoice(ctx, LibraryCustomValues(ctx, defs).value, Weights(defs), RandomCallText(ctx.library).value))
  {
  }

  lemma DynamicChoiceText(ctx: GenContext, values: seq<string>, weights: seq<real>, randomCall: string)
    ensures DynamicChoice(ctx, values, weights, randomCall)
         == "[" + Join(", ", Thunks(values)) + "][weightedChoice([" + Join(",", WeightTexts(ctx, weights))
            + "], () => " + randomCall + ")]()"
  {
    assert JsonArray(WeightTexts(ctx, weights)) == "[" + Join(",", WeightTexts(ctx, weights)) + "]";
  }
}
