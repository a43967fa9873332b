# Mock-data generator for GraphQL schemas, modelled in Dafny

This project models the core of `graphql-codegen-typescript-mock-data`, a GraphQL Code Generator
plugin. For every object, interface and input object type of a schema, the plugin writes the
TypeScript source of a factory function that returns a mock value of that type. The model covers:

- **Registry (`registry.dfy`).** The first pass over the schema registers enums, unions, custom
  scalars and, optionally, interface implementors. A name is registered at most once. The `types`
  array is a class whose visitor methods update it in place.
- **Resolver (`resolver.dfy`).** `generateMockValue` descends through non-null and list wrappers
  to a named type. There `getNamedType` chooses between:
  - a primitive generator;
  - an enum member;
  - the first member of a union;
  - the factories of implementing types;
  - a reference to another type's factory, guarded against cycles in circular mode.

  Every leaf goes through `handleValueGeneration`, except an interface's chain of implementor
  factories and a union without members. Those two return their text directly, so `_all`
  overrides, custom scalars and `defaultNullableToNull` do not apply to them. The precedence in
  `handleValueGeneration` is: exact per-type/per-field override, then `_all` override, then
  custom scalar, then `null` under `defaultNullableToNull`, then the primitive generator.
- **Custom generators (`generators.dfy`).**
  - Generator options are normalised, then resolved against `casual` or `faker`.
  - `faker`'s dotted paths are walked step by step.
  - Several generators are chosen by `weightedChoice`: at generation time in static mode, or by
    emitting a runtime choice expression in dynamic mode.
- **Naming and hashing (`naming.dfy`, `hashing.dfy`).**
  - Type names are converted segment by segment between underscores. Factory names get a prefix
    or an indefinite article.
  - The per-field seed is the Java-style 32-bit string hash.
- **Emitter (`emitter.dfy`).**
  - `getMockString` writes one factory.
  - `getImportTypes` writes the import line with repeated names removed.
  - `plugin` resolves the configuration defaults and assembles the whole file.
- **Circular mocks (`circular_mocks.dfy`).** The factories `anA`, `aB`, `aC`, `aD` of the
  circular-relationships example. They are proved to terminate because every nested call adds a
  new name to the omission list. Their values are bounded in depth, and a fresh call gives the
  documented value.

External libraries appear as function-typed parameters:

- the case-changing functions and `sentenceCase`;
- the indefinite article;
- the `casual` and `faker` members and call results;
- the uniform random draw;
- `JSON.stringify` of numbers;
- the primitive generators of `mockValueGenerator`;
- the import, seed and seed-function snippets of each library.

A thrown exception is an `Err` result.

## Model

| member | source | states |
|---|---|---|
| Strings.SplitPartsAreFree | src/index.ts:47-50 | no part produced by `split('_')` contains the separator |
| Strings.JoinSplit | src/index.ts:47-50 | joining the parts of a split with the separator gives back the original string |
| Strings.SplitJoin | src/index.ts:47-50 | splitting a join of separator-free parts gives back exactly those parts |
| Strings.IndexOf | src/index.ts:545-547 | `indexOf` is the first index holding the value, and -1 exactly when the value is absent |
| Strings.OnlyUniqueKeepsFirstOccurrences | src/index.ts:545-549 | `filter(onlyUnique)` equals the reference "append only if new" de-duplication |
| Strings.AppendIfNewProperties | src/index.ts:545-549 | the de-duplicated list has no repeats and holds exactly the elements of the input |
| Strings.AppendIfNewOfDistinct | src/index.ts:545-549 | a list without repeats is left unchanged |
| Strings.NatToString | src/index.ts:458 | the element index is written as a non-empty string of decimal digits |
| Strings.NatToStringRoundTrip | src/index.ts:458 | reading the digits back gives the index, so distinct indices give distinct suffixes |
| Hashing.ToInt32 | src/index.ts:78-80 | the 32-bit conversion yields a signed 32-bit value congruent to its input modulo 2^32, and leaves 32-bit values alone |
| Hashing.ToInt32Congruent | src/index.ts:78-80 | inputs congruent modulo 2^32 convert to the same value |
| Hashing.Utf16 | src/index.ts:76 | every character gives one or two UTF-16 code units; only the empty string gives none |
| Hashing.Hash | src/index.ts:70-83 | the hash is a signed 32-bit value and is 0 for the empty string |
| Hashing.ShiftSubtractIsTimes31 | src/index.ts:78-80 | `(hash << 5) - hash + char` followed by the 32-bit conversion is one wrapped step of `31 * hash + char` |
| Hashing.HashedString | src/index.ts:70-83 | the loop over the code units returns exactly the folded hash of the value |
| Hashing.HashAppend | src/index.ts:75-81 | appending a character of the basic plane adds exactly one hashing step |
| Naming.ConvertNameBySegments | src/index.ts:42-51 | without `transformUnderscore`, the converted name splits at underscores into the converted segments |
| Naming.ConvertNameIdentity | src/index.ts:42-51 | with an identity case function, both modes give back the name |
| Naming.NameConverter | src/index.ts:53-60 | the prefix always leads the result; convention `keep` gives prefix followed by the raw name |
| Naming.ToMockName | src/index.ts:62-68 | the factory name ends with the cased name; a non-empty prefix is prepended, otherwise the article of the first word of the sentence-cased type name |
| Generators.Normalize | src/index.ts:89-97 | one definition per entry, in order; a bare name becomes a definition with no arguments |
| Generators.GetGeneratorDefinition | src/index.ts:85-98 | `undefined` stays `undefined` and anything else gives definitions |
| Generators.NameIsShorthand | src/index.ts:89-97 | a bare name, its single-entry list and its explicit definition normalise alike |
| Generators.WeightedIndex | src/index.ts:214-226 | the chosen index is the least one whose running weight total reaches draw times total; there is none only when no running total does |
| Generators.WeightedChoice | src/index.ts:214-226 | the subtracting loop returns exactly the least index whose running total reaches the scaled draw, and throws exactly when there is none |
| Generators.WeightedIndexExists | src/index.ts:214-226 | with at least one weight, all of them non-negative, and a draw in [0, 1], `weightedChoice` never throws |
| Generators.WeightedIndexEmpty | src/index.ts:225 | with no weights, `weightedChoice` throws |
| Generators.Weights | src/index.ts:251 | one weight per definition in order, 1 when absent |
| Generators.CasualCustomValue | src/index.ts:100-145 | a non-empty name that is not a truthy `casual` member is returned as is; dynamic mode emits `casual['name']`, then the spread arguments or `()` only when the member is a function, then the extra call; static mode writes the seeded value, a string in quotes; the result is an error exactly in static mode, for an empty name that is not a truthy member, with an extra call (the TypeError of calling a method of `undefined`) |
| Generators.CallSuffixText | src/index.ts:121-130 | a call is `()` exactly when there are no arguments; otherwise it spreads the JSON array of the arguments, in order |
| Generators.ExtraCallText | src/index.ts:112-126 | the extra call is absent exactly without `extra`; a missing or falsy single argument gives `.fn()`; an argument array is spread whole |
| Generators.GetFakerGenerators | src/index.ts:147-167 | the walk over the dotted path returns the access text of the reached value when it is a function, else nothing |
| Generators.WalkFollowsExistingPath | src/index.ts:151-159 | along a path that exists, the walk reaches its end and the access text names every key in order |
| Generators.FakerGeneratorOfExistingPath | src/index.ts:147-167 | a dotted name leading to a function yields `faker['k1']...['kn']` |
| Generators.FakerCustomValue | src/index.ts:169-212 | an unknown non-empty name is returned as is; it fails exactly in static mode when no generator is found and the name is empty; dynamic mode emits the access path (or `null`), always called with the spread arguments or `()`, then the extra call; static mode writes the seeded value, a string in quotes |
| Generators.LibraryCustomValue | src/index.ts:253-263 | an unknown library throws |
| Generators.LibraryCustomValues | src/index.ts:272 | one value per definition, in order, and success exactly when every definition succeeds |
| Generators.StaticIndex | src/index.ts:265-268 | index 0 without a draw for a single generator; otherwise an unknown library throws, and the index is the weighted draw over the definitions' weights, failing exactly when that draw throws |
| Generators.GetCustomValue | src/index.ts:250-283 | static mode returns the value of one of the definitions: the only one when single, otherwise the one the weighted draw picks, and throws when the draw does; with none it throws; dynamic mode with one generator emits its value unchanged; an unknown library throws |
| Generators.StaticChoiceDraws | src/index.ts:265-269 | with non-negative weights and a draw in [0, 1], static mode with several generators never throws in the draw and returns the value of the least generator whose running total reaches the scaled draw |
| Generators.RandomCallText | src/index.ts:228-237 | the text of the library's random draw exists exactly for `casual` and `faker` |
| Generators.DynamicChoiceShape | src/index.ts:278-282 | dynamic mode with several generators emits one thunk per generator in order, every weight in order, and the library's random call |
| Registry.ItemOf | src/index.ts:649-694 | the entry a definition registers carries that definition's name |
| Registry.TypeRegistry.constructor | src/index.ts:648 | the registry starts empty |
| Registry.TypeRegistry.Find | src/index.ts:652 | the search reports exactly whether some entry has the name |
| Registry.TypeRegistry.Push | src/index.ts:653-657 | a new name is appended at the end, and names stay distinct |
| Registry.TypeRegistry.VisitEnum | src/index.ts:650-659 | an enum with a new name is appended with its members in order; a known name changes nothing |
| Registry.TypeRegistry.VisitUnion | src/index.ts:660-669 | a union with a new name is appended with its member types in order; a known name changes nothing |
| Registry.TypeRegistry.VisitObject | src/index.ts:670-684 | an object type is appended only when implementing types are used, its name is new and it declares interfaces |
| Registry.TypeRegistry.VisitScalar | src/index.ts:685-693 | a custom scalar with a new name is appended; a known name changes nothing |
| Registry.CollectTypes | src/index.ts:826 | the first pass yields the registry of the definitions in document order, with distinct names |
| Registry.RegistryNamesDistinct | src/index.ts:649-694 | no name is registered twice |
| Registry.RegistryComplete | src/index.ts:649-694 | every definition that registers something leaves its name in the registry |
| Registry.FirstDefinitionWins | src/index.ts:649-694 | the entry for a name is the one built from its first registering definition |
| Registry.RegistryHasOnlyDefinedNames | src/index.ts:649-694 | every registered name comes from some registering definition |
| Registry.Found | src/index.ts:356-360 | the filter keeps exactly the entries that match: implementors by interface name, others by their own name |
| Registry.FoundKeepsOrder | src/index.ts:356-360 | the filter keeps registry order: the matches of a concatenation are the matches of each part in turn |
| Registry.FoundOfOne | src/index.ts:356-360 | a single entry is kept exactly when it matches |
| Resolver.HandleValueGeneration | src/index.ts:285-309 | precedence: exact override, then `_all` override, then custom scalar, then `null`, then the base value. With no override, no custom scalar and no `null` default the result is exactly the base value. The result is `null` exactly when there is no override, no custom scalar, the default is on and the field is nullable. A value other than the base comes from an override or a custom scalar |
| Resolver.ExactOverrideWins | src/index.ts:290-295 | with an exact override, neither the custom scalar, the base value nor the null default affects the result |
| Resolver.GetNamedType | src/index.ts:322-434 | a named type resolves to `null` only under the nullable-to-null default on a nullable field |
| Resolver.BuiltinScalarResolves | src/index.ts:335-355 | `String`, `Float`, `ID`, `Boolean` and `Int` go through the override chain with their own custom-scalar mapping and the word, float, UUID, boolean and integer generators; without a field override a mapping wins over the generator, and with neither the generator's value is returned unless the nullable default applies |
| Resolver.CustomScalarResolves | src/index.ts:385-397 | a registered custom scalar goes through the override chain with its own mapping; its fallback is the date generator for `Date` and the word generator for any other name |
| Resolver.GetNamedImplementType | src/index.ts:311-320 | an implementor entry gives a call of its factory, named as `toMockName` names it; any other entry gives the empty text, and only then |
| Resolver.EnumDefault | src/index.ts:365-377 | with enums as types the first member is quoted; otherwise the default is a member access on the enum name converted with the enums prefix |
| Resolver.ObjectReference | src/index.ts:418-431 | outside circular mode a call of the type's factory; in circular mode it starts with the omission test on the cased name and ends with the factory call that passes the omission set on |
| Resolver.EnumResolvesToFirstMember | src/index.ts:365-378 | without overrides an enum resolves to its default built from the first member only, whatever the other members are |
| Resolver.EnumMemberConvertedWhole | src/index.ts:371-376 | outside `enumsAsTypes`, the enum member is converted as a whole, underscores included, behind the converted enum name |
| Resolver.UnionResolvesToFirstMember | src/index.ts:379-384 | a union resolves as its first member type, and to the empty text when it has none |
| Resolver.InterfaceResolvesToImplementors | src/index.ts:398-413 | when the first entry found for the name is an implementor and there is no truthy exact override, the name resolves to the implementor texts of all entries found joined by ` \|\| `, in registry order; when every entry found is an implementor, these are the calls of their factories |
| Resolver.UnknownNameIsFactoryReference | src/index.ts:418-431 | an unregistered type name resolves to its factory call, guarded by the omission set in circular mode |
| Resolver.ElementOptions | src/index.ts:455-460 | list elements share every option except the field name, which gets the element index unless the list has exactly one element |
| Resolver.ElementFieldNamesDistinct | src/index.ts:458 | distinct elements of a list longer or shorter than one get distinct field names, hence distinct seeds |
| Resolver.ElementResults | src/index.ts:455-461 | one element per index up to `listElementCount`, each resolved with its own options |
| Resolver.GenerateMockValue | src/index.ts:436-467 | `null` only comes from the default on a nullable type; a nullable list is `null` under the default unless the field has a truthy exact override; a list of zero elements is `[]` |
| Resolver.ListOfElements | src/index.ts:449-463 | a list that is generated is written as the resolved elements, in order, inside brackets |
| Emitter.ListElementCount | src/index.ts:636 | the element count defaults to 1 and negative counts become 0 |
| Emitter.FieldLine | src/index.ts:725 | the property is named after the field, takes the caller's override when the override object has that field, and the generated value otherwise |
| Emitter.FieldResult | src/index.ts:701-726 | a field's line exists exactly when its value resolves, and is the property line of that value |
| Emitter.FieldLines | src/index.ts:787 | the field lines succeed exactly when every field resolves, and no fields give the empty text |
| Emitter.FieldLinesInOrder | src/index.ts:787 | the field lines are the property lines of the fields' generated values, in declaration order, joined by newlines |
| Emitter.ObjectLiteral | src/index.ts:494-497 | the returned object ends with the field lines and holds `__typename` when asked for |
| Emitter.MockString | src/index.ts:469-510 | a factory starts with `export const` and the name from `toMockName`, and ends with the object literal around the fields. Its `overrides` parameter and its result type use the cased name with the types prefix. In circular mode it takes `_relationshipsToOmit` with an empty default, copies it into a new set, and adds its own cased name to the copy. It carries `__typename` when asked for |
| Emitter.MockFunctionText | src/index.ts:729-823 | a definition's factory exists exactly when its field lines do; it is the `getMockString` text for its name and field lines, with `__typename` for object and interface types when asked for and never for input object types |
| Emitter.ReferenceCallsExportedFactory | src/index.ts:423-430 | a field's reference calls the factory that `getMockString` exports for that type, and in circular mode checks the very name that factory adds to the omission set |
| Emitter.MockDefinitions | src/index.ts:843-847 | only object, interface and input object definitions have a factory, and all of them do |
| Emitter.MockDefinitionsKeepOrder | src/index.ts:843-847 | the factories follow document order: those of a concatenation are those of each part in turn |
| Emitter.MockDefinitionsOfOne | src/index.ts:843-847 | a single definition gives a factory exactly when it is an object, interface or input object type |
| Emitter.MockResults | src/index.ts:843-847 | one factory per such definition, in document order |
| Emitter.MockFunctions | src/index.ts:843-847 | the factories succeed exactly when every definition with a factory succeeds |
| Emitter.StripExtension | src/index.ts:829 | the result is a prefix of the file name; when it differs, what was removed is a dot followed by word characters; any trailing dot-and-word-characters suffix is removed |
| Emitter.StripExtensionRoundTrip | src/index.ts:829 | stripping `base.ext` gives `base` back |
| Emitter.PrefixedNames | src/index.ts:532-539 | a prefix ending in a dot imports only the namespace; otherwise every name is converted and prefixed, in order |
| Emitter.EnumNames | src/index.ts:539 | exactly the names of the registered enums |
| Emitter.EnumNamesKeepOrder | src/index.ts:539 | the enum names follow registry order: those of a concatenation are those of each part in turn |
| Emitter.EnumNamesOfOne | src/index.ts:539 | a single entry gives its name exactly when it is an enum |
| Emitter.GetImportTypes | src/index.ts:512-550 | the import line lists the type imports and, unless enums are emitted as types, the enum imports, each once in first-occurrence order; it is empty without a types file |
| Emitter.ImportNamesDistinctAndComplete | src/index.ts:541-549 | the imported names have no repeats and are exactly the type imports plus, unless enums are emitted as types, the enum imports |
| Emitter.SharedNamespaceImport | src/index.ts:532-538 | with both prefixes `Api.` and types file `./types/graphql.ts`, the import line is `import { Api } from './types/graphql';` |
| Emitter.PluginOutput | src/index.ts:625-861 | the legacy `typenames` option throws; otherwise the file is produced exactly when every factory is |
| Emitter.Plugin | src/index.ts:625-861 | the registry pass, the import line, the factories and the file assembly return exactly the specified output |
| Emitter.AssembleFile | src/index.ts:850-860 | the step-by-step appends build exactly the layout of the generated file |
| Emitter.DynamicFileLayout | src/index.ts:850-860 | in dynamic mode the file opens with the library import and the import line, and closes with the factories and the seeding function |
| Emitter.DynamicFileDefinesHelper | src/index.ts:854-856 | in dynamic mode with `defineWeightedChoice`, the file defines the `weightedChoice` helper from its source text |
| Emitter.StaticFileLayout | src/index.ts:850-860 | otherwise the file is the import line followed by the factories and a newline |
| CircularMocks.PendingShrinks | tests/terminateCircularRelationships/mocks.ts:4 | adding a not-yet-omitted type name strictly shrinks the set of types still to visit |
| CircularMocks.AnA | tests/terminateCircularRelationships/mocks.ts:3-9 | the object has keys `B` and `C`; an override wins; an omitted relationship is `{}` |
| CircularMocks.AB | tests/terminateCircularRelationships/mocks.ts:11-16 | the object has key `A`; an override wins; an omitted relationship is `{}` |
| CircularMocks.AC | tests/terminateCircularRelationships/mocks.ts:18-23 | the object has key `aCollection`, a one-element list unless overridden, `[{}]` when `A` is omitted |
| CircularMocks.AD | tests/terminateCircularRelationships/mocks.ts:25-31 | the object has keys `A` and `B`; an override wins; an omitted relationship is `{}` |
| CircularMocks.AnADepth | tests/terminateCircularRelationships/mocks.ts:3-9 | the object nests at most two levels more than the number of types still to visit |
| CircularMocks.ABDepth | tests/terminateCircularRelationships/mocks.ts:11-16 | the object nests at most two levels more than the number of types still to visit |
| CircularMocks.ACDepth | tests/terminateCircularRelationships/mocks.ts:18-23 | the object nests at most two levels more than the number of types still to visit |
| CircularMocks.ADDepth | tests/terminateCircularRelationships/mocks.ts:25-31 | the object nests at most two levels more than the number of types still to visit |
| CircularMocks.FreshCallDepth | tests/terminateCircularRelationships/mocks.ts:3-31 | a fresh call of any of the four factories nests at most five objects deep |
| CircularMocks.AnAFresh | tests/terminateCircularRelationships/spec.ts:4-5 | `anA()` is `{ B: { A: {} }, C: { aCollection: [{}] } }` |
| CircularMocks.ABFresh | tests/terminateCircularRelationships/spec.ts:7-8 | `aB()` is `{ A: { B: {}, C: { aCollection: [{}] } } }` |
| CircularMocks.ACFresh | tests/terminateCircularRelationships/spec.ts:10-11 | `aC()` is `{ aCollection: [{ B: { A: {} }, C: {} }] }` |
| CircularMocks.ADFresh | tests/terminateCircularRelationships/spec.ts:13-14 | `aD()` is the nested value of `anA()` under `A` and of `aB()` under `B` |

## Left out

- Parsing and printing the schema, and the second visitor pass that attaches the factories. The
  model starts from the top-level definitions in document order, with each field's type node.
- Floating point. Weights and random draws are reals, and `JSON.stringify` of a number is an
  opaque function.
- Static-mode random state. The values `casual` and `faker` produce after seeding, and the order
  in which they consume random numbers, are functions of the seed rather than a stateful
  generator.
- `faker.setLocale`. It is a side effect on the external library.
- `mockValueGenerator.ts`. Its primitive generators are one opaque function of library, kind and
  seed; that file is not part of this model.
- `setupFunctionTokens` and `weightedChoice.toString()`. They are parameters of the plugin.
- The `throw` for an unknown registry entry kind in `getNamedType`. It cannot happen, because the
  registry's entry type is closed.
- JavaScript `in` walks the prototype chain, so names like `constructor` would be found in a plain
  object. The model treats overrides, scalar maps and the `faker` namespace as plain maps.
- Resolver.GetNamedType: requires that no union's first member is itself a union. A valid GraphQL
  schema guarantees this, and the requirement is what makes the union recursion terminate.
- Generators.CasualCustomValue: in static mode an empty name whose `casual` member is defined
  but falsy (`0`, `false`, `''`, `null`) is treated like `undefined`, so an extra call on it is an
  error. For a primitive that has the extra function as a method, the source would call it
  instead. The model records only whether a member is truthy, not its value.
- Emitter.ListElementCount: only integer counts are modelled; `Math.max` of a fraction is not.
- The `typesPrefix` passed to `generateMockValue` is never read by the resolver, so `Options`
  leaves it out.
- Circular mocks:
  - the caller's overrides map cannot be mutated in the value model;
  - that an overridden field does not call the nested factory at all is not observable on values;
  - the omission list is an `Array` with `includes`, as in that example file, while the generator
    itself emits a `Set` with `has`.
- Emitter.GetImportTypes: JavaScript truthiness of `typeName` in the definitions filter is
  modelled as "has a factory", because only definitions with a factory carry a type name.
