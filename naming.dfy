/**
 * Naming conventions: `convertName`, `createNameConverter` and `toMockName`.
 * The case-change module that a convention string names, `sentence-case` and
 * the `indefinite` article library are external; they are passed in as plain
 * string functions.
 */
module Naming {
  import opened Strings
  import opened Results

  /** The external string libraries the naming rules call. */
  datatype CaseLibrary = CaseLibrary(
    /** `resolveExternalModuleAndFn(convention)`: the case function a convention names. */
    resolve: string -> (string -> string),
    /** `sentenceCase(value)` of the `sentence-case` package. */
    sentenceCase: string -> string,
    /** `indefinite(word, { articleOnly: true })`: "a" or "an" for a word. */
    article: string -> string)

  /** The convention that leaves a name untouched. */
  const Keep: string := "keep"

  /** The convention used when the configuration names none. */
  const PascalCase: string := "change-case-all#pascalCase"

  /** Applies `fn` to every element of `parts`, in order. */
  function MapParts(fn: string -> string, parts: seq<string>): (r: seq<string>)
    ensures |r| == |parts|
    ensures forall i | 0 <= i < |parts| :: r[i] == fn(parts[i])
  {
    seq(|parts|, i requires 0 <= i < |parts| => fn(parts[i]))
  }

  /** `convertName`: the whole name at once, or segment by segment between underscores. */
  function ConvertName(value: string, fn: string -> string, transformUnderscore: bool): string {
    if transformUnderscore then fn(value)
    else Join("_", MapParts(fn, Split(value, '_')))
  }

  /** With `transformUnderscore` off, each underscore-separated segment is converted on its
      own and the underscores stay: splitting the result at underscores gives the converted
      segments, provided the case function does not itself produce underscores. */
  lemma ConvertNameBySegments(value: string, fn: string -> string)
    requires forall p | p in Split(value, '_') :: '_' !in fn(p)
    ensures Split(ConvertName(value, fn, false), '_') == MapParts(fn, Split(value, '_'))
  {
    var converted := MapParts(fn, Split(value, '_'));
    forall q | q in converted ensures '_' !in q {
      var i :| 0 <= i < |converted| && converted[i] == q;
      assert Split(value, '_')[i] in Split(value, '_');
    }
    SplitJoin(converted, '_');
  }

  /** A case function that changes nothing leaves the name unchanged, underscores included. */
  lemma ConvertNameIdentity(value: string, fn: string -> string)
    requires forall p :: fn(p) == p
    ensures ConvertName(value, fn, false) == value
    ensures ConvertName(value, fn, true) == value
  {
    var parts := Split(value, '_');
    assert MapParts(fn, parts) == parts;
    JoinSplit(value, '_');
  }

  /** The function `createNameConverter(convention, transformUnderscore)` returns, applied
      to `value` and `prefix`. */
  function NameConverter(lib: CaseLibrary, convention: string, transformUnderscore: bool,
                         value: string, prefix: string): (r: string)
    ensures prefix <= r
    ensures convention == Keep ==> r == prefix + value
  {
    if convention == Keep then prefix + value
    else prefix + ConvertName(value, lib.resolve(convention), transformUnderscore)
  }

  /** `toMockName`: the factory name, either the configured prefix or an indefinite
      article taken from the first word of the sentence-cased type name, followed by
      the cased type name. */
  function ToMockName(lib: CaseLibrary, typedName: string, casedName: string,
                      prefix: Option<string>): (r: string)
    ensures |casedName| <= |r| && r[|r| - |casedName|..] == casedName
    ensures prefix.Some? && prefix.value != "" ==> r == prefix.value + casedName
    ensures (prefix.None? || prefix.value == "") ==>
              r == lib.article(Split(lib.sentenceCase(typedName), ' ')[0]) + casedName
  {
    if prefix.Some? && prefix.value != "" then prefix.value + casedName
    else
      var firstWord := Split(lib.sentenceCase(typedName), ' ')[0];
      lib.article(firstWord) + casedName
  }
}
