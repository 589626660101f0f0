# norjs/utils core, modelled in Dafny

This project models the core of the JavaScript utility library norjs/utils and
proves properties of that model.

- **TypeUtils.** The runtime type checker appears in both copies: the newer
  src/TypeUtils.js and the older root TypeUtils.js.
  - A registry `TESTS` holds named tests. Two flags sit beside it.
  - `_compileTestFunction` is a compiler from JSDoc-style type strings, such as
    `string|number`, `Array.<T>`, `T[]`, `Object.<K,V>` and `{a:T, b}`, to
    compiled tests.
  - The aggregators run unions, intersections, arrays, maps and object shapes.
  - The public operations are `test`, `assert`, `defineType`,
    `defineDefaults`, `setDefineDefaultsJustInTime` and `resetInitialState`.
- **HttpUtils** (src/HttpUtils.js) covers:
  - telling a listening configuration apart as a port or a socket;
  - the labels printed for it;
  - normalising a request url;
  - `routeRequest`, which picks a route or throws an `HTTPError`.
- **HTTPError** (src/HttpError.js) covers:
  - how the constructor classifies its arguments by type, with the last of
    each kind winning, and its defaults;
  - the `name` getter, the `codes` registry and `create`.
- **NrCache** (src/NrCache.js) is a key/value cache kept in one plain object.
  The methods update it in place.
- **AssertUtils** (src/AssertUtils.js) holds the throwing validators.
- **ObjectUtils** (src/ObjectUtils.js) holds `has` and `remapObjectKeys`.
- **ColorUtils** (src/ColorUtils.js) holds `stripColors` and the `AnsiColorCode` table.
- **StringUtils** (src/StringUtils.js) holds `parseBoolean` and `parseInteger`.

## Representation

- **JavaScript values.** `JsValues.Value` is a datatype:
  - undefined, null, booleans, integral numbers and NaN, strings, symbols,
    functions, dates, promises, arrays, and plain objects;
  - a plain object lists its own enumerable properties in the order `_.keys`
    reports them;
  - a thrown `TypeError` or `ReferenceError` is a `JsError` value in a
    `Result` or an `Outcome`.
- **State.** State that the source changes in place is a class:
  - `NrCaches.NrCache` holds the `_cache` object;
  - `TypeRegistry.Registry` holds `TESTS` and the two flags.

  Each method's contract ties the new state to a pure function of the old state:
  - the `Store*` functions in `NrCaches`;
  - the functions in `RegistrySpec`.

  The properties are proved about those functions.
- **Loops.** The aggregators of TypeUtils fill arrays with `forEach` and
  `push`; they are loop methods in `TypeAggregators`. Each is proved equal to
  the recursive definition that `TypeEvaluator` uses, and the lemmas in
  `TypeEvaluatorLemmas` state what each aggregator decides.
- **The two TypeUtils copies.** One compiler (`TypeCompiler`) serves both
  copies, because their compilers behave the same. The evaluator takes a
  `Copy` argument (`SrcCopy` or `RootCopy`) where the two differ:
  - how `_everyArrayItemResult` calls its item test;
  - whether `defineType` accepts a test function.
- **Call-stack depth.** A compiled test may call other tests without bound,
  because an alias can point at itself. Every call therefore uses one frame
  of a `stack`/`fuel` budget. A call with none left throws a RangeError,
  which the nearest `_callTestFunction` catches, as the host's stack
  overflow would be caught.

## Model

| member | source | states |
|---|---|---|
| TypeModel.Normalize | src/TypeUtils.js:377-387 | the normalised result's `value` is the raw result's truth value; `true`/`false` become bare `{value}` records, a returned record passes through unchanged, a thrown error becomes `{value:false, description: Test function failed with …}` |
| TypeCompiler.TrimmedParts | src/TypeUtils.js:296 | the trimmed parts of a split are as many as the split's parts, each the trimmed part, none longer than the input |
| TypeCompiler.CompileIgnoresEdgeWhitespace | src/TypeUtils.js:216 | compiling a type string and compiling it trimmed give the same result |
| TypeCompiler.CompileUnion | src/TypeUtils.js:219-222 | a trimmed type containing a vertical bar compiles iff every part of the naive split on every vertical bar compiles, and then to a union of exactly those parts' tests in order |
| TypeCompiler.CompileIntersection | src/TypeUtils.js:225-228 | a type with no vertical bar but an `&` compiles iff every `&`-part compiles, and then to an intersection of those tests in order |
| TypeCompiler.CompileAllSpec | src/TypeUtils.js:220 | compiling a list of parts succeeds iff each part compiles, and gives each part's compiled test at its position |
| TypeCompiler.CompileAllFirstError | src/TypeUtils.js:220 | when a list of parts fails, the error is the one of the first part that fails, all earlier parts compiling |
| TypeCompiler.FirstErrorOrAllOk | src/TypeUtils.js:220 | collecting results gives all values iff every result is a value, keeping positions |
| TypeCompiler.FirstErrorOrAllErr | src/TypeUtils.js:220 | a failed collection carries the error of the first failing result |
| TypeCompiler.CompileAllParts | src/TypeUtils.js:220 | compiling the parts one by one equals collecting the per-part compile results |
| TypeCompiler.CompiledParts | src/TypeUtils.js:220 | the `map` over the parts: one compile result per part, in order |
| TypeCompiler.CompileArrayGeneric | src/TypeUtils.js:236-247 | `array<T>`, `Array.<T>` compile iff T compiles, to an array test of T's test |
| TypeCompiler.CompileArraySuffix | src/TypeUtils.js:250-255 | `T[]` that is not an `array<…>` form compiles iff T compiles, to an array test of T's test |
| TypeCompiler.GenericArgument | src/TypeUtils.js:237-243 | the argument between `<` and `>` after a keyword is at least two characters shorter than what follows the keyword |
| TypeCompiler.AfterKeyword | src/TypeUtils.js:237-240 | what follows a keyword and an optional `.` is no longer than the rest of the type |
| TypeCompiler.GenericArgumentOpens | src/TypeUtils.js:242 | a generic argument exists only when the type contains `<` |
| TypeCompiler.GenericArgumentCloses | src/TypeUtils.js:242 | a trimmed type with a generic argument ends in `>` |
| TypeCompiler.AfterKeywordInside | src/TypeUtils.js:237-240 | every character after the keyword occurs in the type |
| TypeCompiler.AfterKeywordLast | src/TypeUtils.js:237-240 | the text after the keyword of a type whose last character is not white space is empty or ends in that character |
| TypeCompiler.PropertyPart | src/TypeUtils.js:300-310 | a `key:type` part splits at its first `:`; without one the type is `*`; the type part is no longer than the part |
| TypeCompiler.CompilePromiseGeneric | src/TypeUtils.js:316-327 | `promise<T>` in any of its spellings compiles exactly as `Promise` does; T is ignored |
| TypeCompiler.PromiseReachesNamed | src/TypeUtils.js:219-327 | a trimmed `promise<…>` type matches none of the earlier forms, so the promise branch is reached |
| TypeCompiler.CompileEmptyShape | src/TypeUtils.js:288-291 | `{}` compiles to an empty property map |
| TypeCompiler.CompileObjectLiteralReached | src/TypeUtils.js:219-294 | a trimmed `{…}` other than `{}`, without a vertical bar or `&`, reaches the object literal case |
| TypeCompiler.CompileObjectGenericReached | src/TypeUtils.js:219-264 | a trimmed `object<K,V>` form without a vertical bar or `&` reaches the map case, as no earlier case applies |
| TypeCompiler.CompileObjectGeneric | src/TypeUtils.js:257-282 | `object<K,V>` splits its argument at the first comma; the key type's error escapes first, then the value type's, else the test is the map of the two |
| TypeCompiler.LiteralParts | src/TypeUtils.js:295-296 | each trimmed part between the braces is shorter than the literal |
| TypeCompiler.PartKeys | src/TypeUtils.js:300-309 | one key per part, in order, the key `PropertyPart` gives |
| TypeCompiler.PartResults | src/TypeUtils.js:310 | one compilation per part, of that part's type, in order |
| TypeCompiler.CompilePropertiesAssign | src/TypeUtils.js:300-311 | the `forEach` over the parts is the assignments of their keys and compiled types |
| TypeCompiler.AssignOk | src/TypeUtils.js:310 | without an error the keys are the earlier ones and the parts' ones; each part key holds the result of the last part declaring it; other keys keep their test |
| TypeCompiler.AssignErr | src/TypeUtils.js:310 | the first error among the compiled types is the one raised |
| TypeCompiler.CompileObjectLiteralAssign | src/TypeUtils.js:294-313 | an object literal compiles to the shape its parts' assignments build, or to their error |
| TypeCompiler.CompileObjectLiteralOk | src/TypeUtils.js:294-313 | a literal whose every type compiles is the shape declaring exactly the parts' keys, each with the type of the last part declaring it |
| TypeCompiler.CompileObjectLiteralFirstError | src/TypeUtils.js:294-313 | a literal with a type that does not compile raises the first such part's error |
| TypeCompiler.BarePartIsWildcard | src/TypeUtils.js:306-309 | a part without `:` is its own key with type `*`, which compiles to the wildcard |
| TypeCompiler.CompileSingleProperty | src/TypeUtils.js:294-313 | an object literal of one `key:type` part compiles to the shape of that one key and the type's test, or raises the type's error |
| TypeCompiler.PropertyPartAt | src/TypeUtils.js:301-305 | a part splits at its first `:` into the trimmed key and the trimmed type |
| TypeCompiler.CompileIntersectionOfTwo | src/TypeUtils.js:225-228 | two `&`-operands that compile give the all-of test of their two tests, in order |
| TypeCompiler.CompilePlainName | src/TypeUtils.js:330-336 | a name with no vertical bar and none of `&*<]{` compiles to its registry entry, or fails with an unknown-type error naming it; the registry is read by own key, see Left out |
| TypeCompiler.PlainNameReachesNamed | src/TypeUtils.js:219-336 | such a name falls through every syntactic form to the registry lookup |
| TypeCompiler.CompileReachesNamed | src/TypeUtils.js:330-336 | a type that matches no syntactic form compiles to the registry lookup, by own key, see Left out |
| TypeEvaluator.FailedOnly | src/TypeUtils.js:436-444 | the collected failures are exactly the failing results, and the list is empty iff every result passed |
| TypeEvaluator.MapFailures | src/TypeUtils.js:466-480 | the accumulated key and value failures are empty iff every key and every value passed |
| TypeEvaluator.PropertyFailures | src/TypeUtils.js:500-531 | the property failures are empty iff every own key has a declared test that passes; each recorded failure is a failure |
| TypeEvaluator.FirstFailure | src/TypeUtils.js:600-608 | the index `_.every` stops at: a failing result with every earlier one passing |
| TypeEvaluator.NonShapes | src/TypeUtils.js:598 | the non-shape operands are no more than the operands |
| TypeEvaluator.PropertyResults | src/TypeUtils.js:502-516 | each own property's nested result comes from its declared test, or is absent when the key is undeclared |
| TypeEvaluator.ItemCalls | src/TypeUtils.js:438-439 | one nested call per array item, in order |
| TypeEvaluator.ItemRuns | TypeUtils.js:403-406 | in the root copy, one direct call `test(item)` per array item, in order |
| TypeEvaluator.FirstThrown | TypeUtils.js:403-406 | no error escapes the loop iff no direct item call throws |
| TypeEvaluator.NormalizeAll | TypeUtils.js:404-405 | every raw item result is normalised in place |
| TypeEvaluator.KeyCalls | src/TypeUtils.js:468-469 | one key test per own key, in order |
| TypeEvaluator.ValueCalls | src/TypeUtils.js:473-474 | one value test per own value, in order |
| TypeEvaluator.Calls | src/TypeUtils.js:553 | one nested call per union or intersection operand, in order |
| TypeEvaluatorLemmas.CallShapeStep | src/TypeUtils.js:372-375 | calling a property map checks `_.isObject` first and gives `{value:false}` for a non-object |
| TypeEvaluatorLemmas.CallAnyOfStep | src/TypeUtils.js:221 | a compiled union calls `_testOr` |
| TypeEvaluatorLemmas.CallAllOfStep | src/TypeUtils.js:227 | a compiled intersection calls `_testIntersection` |
| TypeEvaluatorLemmas.CallArrayOfStep | src/TypeUtils.js:246 | a compiled array test is false for a non-array and otherwise runs `_everyArrayItemResult` |
| TypeEvaluatorLemmas.CallMapOfStep | src/TypeUtils.js:276-283 | a compiled map test is false for a non-object and otherwise runs `_everyObjectItemResult` |
| TypeEvaluatorLemmas.CallUserFunction | src/TypeUtils.js:377-387 | a user test function's boolean, record or exception is normalised as `_callTestFunction` does |
| TypeEvaluatorLemmas.CallWithoutStack | src/TypeUtils.js:377-383 | a call with no stack left fails with the caught RangeError |
| TypeEvaluatorLemmas.CallPrimitive | src/TypeUtils.js:153-163 | a default test passes iff its lodash predicate holds; `*` always passes |
| TypeEvaluatorLemmas.UnionSpec | src/TypeUtils.js:551-569 | a union passes iff some branch passes; on failure the description is the mismatch and `failed` holds every branch's result in order |
| TypeEvaluatorLemmas.NonShapesFrom | src/TypeUtils.js:598 | every kept test is a non-shape operand |
| TypeEvaluatorLemmas.NonShapesKeeps | src/TypeUtils.js:598 | every non-shape operand is kept |
| TypeEvaluatorLemmas.MergeShapesLastWins | src/TypeUtils.js:584-594 | the merged map has a key iff some shape operand declares it, and then holds the declaration of the last such operand |
| TypeEvaluatorLemmas.IntersectionAllPass | src/TypeUtils.js:596-617 | an intersection passes iff every test of merged shape plus non-shape operands passes |
| TypeEvaluatorLemmas.IntersectionTestsPass | src/TypeUtils.js:596-598 | those tests all pass iff the merged shape passes and every non-shape operand passes |
| TypeEvaluatorLemmas.IntersectionTestsPassOperands | src/TypeUtils.js:596-598 | all passing implies the merged shape and every non-shape operand pass |
| TypeEvaluatorLemmas.OperandsPassIntersectionTests | src/TypeUtils.js:596-598 | the merged shape and every non-shape operand passing implies all tests pass |
| TypeEvaluatorLemmas.IntersectionSpec | src/TypeUtils.js:578-618 | an intersection passes iff the merged shape of its shape operands passes and every other operand passes |
| TypeEvaluatorLemmas.IntersectionNeedsObject | src/TypeUtils.js:596 | an intersection never accepts a non-object, because the merged shape is always tested |
| TypeEvaluatorLemmas.IntersectionKeepsFirstFailure | src/TypeUtils.js:600-616 | a failed intersection reports the mismatch with exactly one nested result, that of the first failing test |
| TypeEvaluatorLemmas.IntersectionWithoutShapes | src/TypeUtils.js:596 | without shape operands the merged shape is `{}`, so only objects with no own keys pass |
| TypeEvaluatorLemmas.ShapeSpec | src/TypeUtils.js:499-542 | a shape passes iff the value is an object and every own key is declared and its value passes; a non-object gives `{value:false}` |
| TypeEvaluatorLemmas.EmptyShapeSpec | src/TypeUtils.js:288-291 | `{}` accepts exactly the objects with no own keys |
| TypeEvaluatorLemmas.ShapeIgnoresMissingKeys | src/TypeUtils.js:502-529 | a declared key absent from the value is never detected: an empty object passes any shape |
| TypeEvaluatorLemmas.ShapeExtraDeclaration | src/TypeUtils.js:502-529 | declaring a key the value does not have changes nothing |
| TypeEvaluatorLemmas.ShapeUndeclaredKey | src/TypeUtils.js:504-510 | an own key the shape does not declare makes the check fail with a not-defined failure for that key |
| TypeEvaluatorLemmas.PropertyFailuresHas | src/TypeUtils.js:502-529 | each property's failure is among the recorded failures |
| TypeEvaluatorLemmas.ArraySpec | src/TypeUtils.js:435-453 | in the src copy an array test passes iff the value is an array whose every item passes; the failure has a description and no `failed` field |
| TypeEvaluatorLemmas.RootArrayOfShapes | TypeUtils.js:400-418 | in the root copy a non-empty array of shape items fails with the caught TypeError; an empty one passes |
| TypeEvaluatorLemmas.RootArraySpec | TypeUtils.js:400-418 | in the root copy, when no direct item call throws, the array passes iff each item's raw result is true |
| TypeEvaluatorLemmas.MapFailuresHas | src/TypeUtils.js:468-478 | every failing key and every failing value is accumulated |
| TypeEvaluatorLemmas.MapSpec | src/TypeUtils.js:465-489 | a map test passes iff the value is an object whose every own key passes K and value passes V; on failure every failing key and value result is kept |
| TypeEvaluatorLemmas.AliasSpec | src/TypeUtils.js:397-402 | an alias runs its target's current entry; a missing target or a property map fails as a non-function call |
| TypeEvaluatorLemmas.AliasCycle | src/TypeUtils.js:401 | two aliases naming each other exhaust the stack |
| TypeAggregators.EveryArrayItemResult | src/TypeUtils.js:435-453 | the `forEach`/`push` loop computes the array verdict (for the root copy, TypeUtils.js:400-418, with direct calls) |
| TypeAggregators.EveryObjectItemResult | src/TypeUtils.js:465-489 | the loop computes the map verdict over keys and values |
| TypeAggregators.TestEveryObjectPropertyResult | src/TypeUtils.js:499-542 | the loop computes the shape verdict over the own properties |
| TypeAggregators.TestOr | src/TypeUtils.js:551-569 | the loop computes the union verdict |
| TypeAggregators.SplitOperands | src/TypeUtils.js:584-598 | the fold yields the merged property map and the non-shape operands |
| TypeAggregators.TestIntersection | src/TypeUtils.js:578-618 | the method computes the intersection verdict |
| TypeAggregators.FirstThrownAt | TypeUtils.js:403-406 | the first thrown error escapes the loop |
| TypeAggregators.FirstFailureAt | src/TypeUtils.js:601-608 | `_.every` stops at the first failing test |
| TypeAggregators.MapFailuresSnoc | src/TypeUtils.js:468-478 | one more key/value pair appends its failing key result, then its failing value result |
| TypeAggregators.PropertyFailuresSnoc | src/TypeUtils.js:502-529 | one more property appends its own failures |
| TypeAggregators.NonShapesSnoc | src/TypeUtils.js:598 | one more operand is kept iff it is not a shape |
| RegistrySpec.AliasTargetsRegistered | src/TypeUtils.js:166-173 | after the basic types are written, every default alias target is registered, so `defineDefaults` never throws |
| RegistrySpec.DefaultTestsInOrder | src/TypeUtils.js:153-173 | the nineteen writes in source order give the registry plus the default table |
| RegistrySpec.DefineDefaults | src/TypeUtils.js:145-175 | afterwards the defaults are defined, the just-in-time flag is kept, and once defined nothing changes |
| RegistrySpec.JustInTime | src/TypeUtils.js:80-82 | the defaults become defined iff they were or just-in-time is on; otherwise nothing changes |
| RegistrySpec.SetDefineDefaultsJustInTime | src/TypeUtils.js:181-183 | the flag becomes the value's truthiness; nothing else changes |
| RegistrySpec.ResetInitialState | src/TypeUtils.js:190-196 | a no-op unless the defaults are defined; then every entry is deleted and the flag cleared |
| RegistrySpec.DefineTypeTest | src/TypeUtils.js:359-361 | the name maps to the test; every other entry is unchanged |
| RegistrySpec.DefineAlias | src/TypeUtils.js:397-402 | succeeds iff the target is registered, then writes an alias entry; otherwise the missing-target error |
| RegistrySpec.DefineType | src/TypeUtils.js:114-140 | on failure only the just-in-time defaults have been written; on success exactly the one name has changed |
| RegistrySpec.Evaluate | src/TypeUtils.js:348-350 | evaluation fails iff the type string does not compile, since compilation runs outside the try |
| RegistrySpec.Test | src/TypeUtils.js:79-86 | `test` changes the registry only by the just-in-time defaults |
| RegistrySpec.AssertionDescription | src/TypeUtils.js:103 | a non-empty description is used; an empty or missing one gives way to the fallback |
| RegistrySpec.Assert | src/TypeUtils.js:95-106 | `assert` changes the registry only by the just-in-time defaults |
| RegistrySpec.CompileDefinitionsStops | src/TypeUtils.js:127-131 | the first property type that fails to compile ends the definition with its error |
| RegistrySpec.DefineDefaultsIdempotent | src/TypeUtils.js:147-149 | `defineDefaults` twice is `defineDefaults` once |
| RegistrySpec.DefineDefaultsKeepsOthers | src/TypeUtils.js:145-175 | every default name maps to its default test; every other entry is unchanged |
| RegistrySpec.ResetForgetsUserTypes | src/TypeUtils.js:190-196 | after defaults and a user type, a reset leaves an empty registry with the flag cleared |
| RegistrySpec.TestDefinesDefaultsJustInTime | src/TypeUtils.js:79-86 | with just-in-time on, `test` leaves the defaults defined; with it off, the registry is untouched; a second identical `test` repeats the first |
| RegistrySpec.CompileName | src/TypeUtils.js:330-336 | a trimmed plain name compiles to its registry entry or an unknown-type error |
| RegistrySpec.DefaultNamesAreLetters | src/TypeUtils.js:153-173 | every default name is made of letters only |
| RegistrySpec.AliasLateBinding | src/TypeUtils.js:401 | redefining an alias's target after the alias changes what the alias tests |
| RegistrySpec.DefinedNameIsCopied | src/TypeUtils.js:119-122 | `defineType(name, "other")` copies other's current test, so redefining other later does not change name |
| RegistrySpec.AssertThrowsIffTestFails | src/TypeUtils.js:95-106 | `assert` passes iff `test` is true, throws the assertion error iff `test` is false, and rethrows a compile error `test` would throw |
| RegistrySpec.TestDefaultName | src/TypeUtils.js:79-86 | on a fresh registry, testing a default name defines the defaults and runs that name's default test |
| RegistrySpec.TestWithoutJustInTime | src/TypeUtils.js:79-86 | with just-in-time off, a fresh registry knows no default name |
| RegistrySpec.BasicTypeOnFreshRegistry | TypeUtils.spec.js:20-72 | on a fresh registry each basic type tests exactly its lodash predicate |
| RegistrySpec.AliasOnFreshRegistry | TypeUtils.spec.js:20-72 | each capitalised alias tests exactly what its lower-case target does |
| RegistrySpec.DefinedPropertyType | src/TypeUtils.js:126-133 | a type defined from an object of type strings tests as the shape of their compiled tests |
| RegistrySpec.FooCompiles | TypeUtils.spec.js:165-175 | the `Foo` properties `{value:"string", ready:"boolean"}` compile to string and boolean tests |
| RegistrySpec.FooAccepts | TypeUtils.spec.js:177-185 | `{value:"hello", ready:true}` passes the `Foo` shape |
| RegistrySpec.FooRejectsError | TypeUtils.spec.js:187-195 | `{value, ready, error:123}` fails the `Foo` shape: `error` is undeclared |
| RegistrySpec.FooType | TypeUtils.spec.js:165-195 | after `defineType("Foo", …)` the first object tests true and the one with `error:123` tests false |
| RegistrySpec.FooAndErrorCompiles | TypeUtils.spec.js:183-185 | `Foo & {error:string}` compiles to the intersection of the registered `Foo` test and the one-property shape `{error:string}` |
| RegistrySpec.FooAndErrorAccepts | TypeUtils.spec.js:183-205 | the intersection merges the two shapes: `{value, ready, error:"Test error"}` passes it and `{value, ready, error:123}` fails it |
| RegistrySpec.FooIntersection | TypeUtils.spec.js:183-205 | after `defineType("Foo", …)`, `test` of `Foo & {error:string}` is true for a string `error` and false for `error:123` |
| RegistrySpec.DefaultsHoldStringAndBoolean | src/TypeUtils.js:153-155 | the defaults map `string` and `boolean` to their predicates |
| TypeRegistry.Registry.constructor | src/TypeUtils.js:52-65 | the module's initial state: empty registry, defaults undefined, just-in-time on |
| TypeRegistry.Registry.DefineTypeTest | src/TypeUtils.js:359-361 | writes one entry in place |
| TypeRegistry.Registry.DefineAliasType | src/TypeUtils.js:397-402 | writes the alias iff the target is registered, else fails and changes nothing |
| TypeRegistry.Registry.DefineDefaults | src/TypeUtils.js:145-175 | the nineteen writes, in place, equal `RegistrySpec.DefineDefaults` |
| TypeRegistry.Registry.SetDefineDefaultsJustInTime | src/TypeUtils.js:181-183 | sets the flag in place |
| TypeRegistry.Registry.ResetInitialState | src/TypeUtils.js:190-196 | the delete loop equals `RegistrySpec.ResetInitialState` |
| TypeRegistry.Registry.DefineDefaultsJustInTime | src/TypeUtils.js:80-82 | the first statement of `test`, `assert` and `defineType` |
| TypeRegistry.Registry.DefineType | src/TypeUtils.js:114-140 | in place, equals `RegistrySpec.DefineType` |
| TypeRegistry.Registry.CompilePropertyTypes | src/TypeUtils.js:126-131 | the `forEach` over the property keys computes the compiled property map |
| TypeRegistry.Registry.Test | src/TypeUtils.js:79-86 | in place, equals `RegistrySpec.Test` |
| TypeRegistry.Registry.Assert | src/TypeUtils.js:95-106 | in place, equals `RegistrySpec.Assert` |
| JsStrings.Trim | src/TypeUtils.js:216 | `_.trim` never lengthens the string |
| JsStrings.TrimStart | src/TypeUtils.js:216 | the result is no longer than the input and starts at a non-space |
| JsStrings.TrimStartSuffix | src/TypeUtils.js:216 | what is left is a suffix of the input |
| JsStrings.TrimEnd | src/TypeUtils.js:216 | the result is a prefix ending at a non-space |
| JsStrings.TrimIdempotent | src/TypeUtils.js:216 | trimming twice is trimming once |
| JsStrings.TrimShape | src/TypeUtils.js:216 | a trimmed string has no white space at either end |
| JsStrings.Split | src/TypeUtils.js:220 | `split(sep)` gives parts without the separator whose join is the input; no separator gives one part |
| JsStrings.SplitTwo | src/TypeUtils.js:226 | a string with one separator splits into the text before it and the text after it |
| JsStrings.SplitJoin | src/TypeUtils.js:220 | splitting a join of separator-free parts gives those parts back |
| JsStrings.IndexOfAt | src/TypeUtils.js:301 | `indexOf` gives the position where the character occurs with no occurrence before it |
| JsStrings.IndexOf | src/TypeUtils.js:219 | `indexOf` is -1 iff the character is absent, else its first position |
| JsStrings.ToLower | src/StringUtils.js:16 | `_.toLower` lowers each ASCII capital and keeps every other character |
| JsStrings.NatToStringRoundTrip | src/HttpError.js:45 | the decimal text of a code reads back as the code |
| JsValues.KeysOf | src/NrCache.js:42 | `_.keys` lists each property's key in order |
| JsValues.Lookup | src/NrCache.js:84 | a lookup finds a value iff the key is present, and that property is in the object |
| JsValues.SetProp | src/NrCache.js:62 | an assignment keeps the key order and appends a new key at the end |
| JsValues.SetPropLookup | src/NrCache.js:62 | after the assignment the key reads the new value and every other key reads as before |
| JsValues.HasOwn | src/ObjectUtils.js:51 | `hasOwnProperty.call` throws for undefined and null; for a plain object it is key membership |
| JsValues.OwnEntries | src/TypeUtils.js:502 | an object's own entries are its properties; an array's are its items under their index keys |
| JsValues.GetOwn | src/NrCache.js:100 | reading an own property gives its value; a missing one reads as undefined |
| JsValues.ParseIntOfDigits | src/StringUtils.js:31 | `parseInt` of a non-empty digit string is its base-10 value |
| JsValues.ParseIntRoundTrip | src/StringUtils.js:31 | `parseInt(String(i), 10)` is i for every integer |
| AssertUtils.Check | src/AssertUtils.js:22-28 | a validator passes iff its condition holds, and otherwise throws a TypeError with its message |
| AssertUtils.IsString | src/AssertUtils.js:22-28 | passes iff the value is a string; else a TypeError |
| AssertUtils.IsUndefined | src/AssertUtils.js:35-41 | passes iff the value is undefined; else a TypeError |
| AssertUtils.IsDefined | src/AssertUtils.js:48-54 | passes iff the value is not undefined; else a TypeError |
| AssertUtils.IsNumber | src/AssertUtils.js:61-67 | passes iff the value is a number, NaN included; else a TypeError |
| AssertUtils.IsBoolean | src/AssertUtils.js:74-80 | passes iff the value is a boolean; else a TypeError |
| AssertUtils.IsFunction | src/AssertUtils.js:87-93 | passes iff the value is a function; else a TypeError |
| AssertUtils.IsObjectOrArray | src/AssertUtils.js:102-108 | passes iff `_.isObject` holds, arrays included; else a TypeError |
| AssertUtils.IsObject | src/AssertUtils.js:117-123 | passes iff the value is an object that is not an array; else a TypeError |
| AssertUtils.IsArray | src/AssertUtils.js:130-136 | passes iff the value is an array; else a TypeError |
| AssertUtils.IsStringPattern | src/AssertUtils.js:144-150 | passes iff the value is a string and the pattern matches it; else a TypeError |
| AssertUtils.IsCallable | src/AssertUtils.js:157-163 | passes iff the value is a function; else a TypeError |
| AssertUtils.IsEqual | src/AssertUtils.js:170-176 | passes iff `value === testValue`; else a TypeError |
| AssertUtils.DefinedOrUndefined | src/AssertUtils.js:35-54 | exactly one of `isDefined` and `isUndefined` passes |
| AssertUtils.ObjectOrArray | src/AssertUtils.js:102-136 | `isObjectOrArray` passes iff `isObject` or `isArray` does, and never both |
| AssertUtils.CallableIsFunction | src/AssertUtils.js:157-163 | `isCallable` and `isFunction` agree |
| AssertUtils.StrictEqualsProperties | src/AssertUtils.js:170-176 | `===` is reflexive except for NaN and objects, symmetric, and never equates a number with a string |
| AssertUtils.KindsAreDisjoint | src/AssertUtils.js:22-136 | no value passes two of the string, number, boolean, function, array and undefined validators |
| ColorUtils.AnsiColorDigitsAreDigits | src/ColorUtils.js:9-37 | every `AnsiColorCode` entry is ESC `[`, one or more digits, `m` |
| ColorUtils.MatchLength | src/ColorUtils.js:56 | a match of `/\x1b\[[0-9]+m/` at the front is ESC `[` digits `m` |
| ColorUtils.Strip | src/ColorUtils.js:56 | the result is never longer than the input |
| ColorUtils.StripColors | src/ColorUtils.js:50-58 | fails with a TypeError iff the value is not a string; otherwise strips every escape |
| ColorUtils.StripIsSubsequence | src/ColorUtils.js:56 | the output is a subsequence of the input |
| ColorUtils.StripEscFree | src/ColorUtils.js:56 | a string without ESC is returned unchanged |
| ColorUtils.StripColorCodeFirst | src/ColorUtils.js:56 | a leading escape is removed |
| ColorUtils.StripAnsiColorCode | src/ColorUtils.js:9-58 | for ESC-free a and b and any table entry c, `stripColors(a + c + b)` is `a + b` |
| ColorUtils.StripIsOnePass | src/ColorUtils.js:56 | one pass can leave an escape formed by the removal, so stripping is not idempotent |
| HttpUtils.PortOrSocket | src/HttpUtils.js:34-46 | no value is both a port and a socket |
| HttpUtils.GetPort | src/HttpUtils.js:53-64 | numbers come back unchanged, strings are parsed, anything else is a TypeError |
| HttpUtils.GetPortOfString | src/HttpUtils.js:63 | a port string parses to the value of its leading digits, an all-digit string to its value |
| HttpUtils.PrintedPort | src/HttpUtils.js:34-64 | the decimal text of n is a port and parses back to n |
| HttpUtils.GetSocket | src/HttpUtils.js:71-78 | a string comes back unchanged; anything else is a TypeError |
| HttpUtils.GetPortLabel | src/HttpUtils.js:86-88 | `localhost:` followed by the value |
| HttpUtils.GetSocketLabel | src/HttpUtils.js:96-98 | `socket:` followed by the value |
| HttpUtils.GetLabel | src/HttpUtils.js:106-117 | the port label for a port, else the socket label for a socket, else the value itself |
| HttpUtils.TrimTrailingSlashes | src/HttpUtils.js:262 | the longest prefix not ending in `/`, only slashes dropped |
| HttpUtils.GetUrl | src/HttpUtils.js:261-263 | `/\/+$/` matches at the first position from which only slashes follow in url + `/`, and the match becomes one `/` |
| HttpUtils.GetUrlEndsInOneSlash | src/HttpUtils.js:261-263 | the normalised url ends in exactly one `/` |
| HttpUtils.GetUrlAppends | src/HttpUtils.js:261-263 | a url not ending in `/` only gains one |
| HttpUtils.GetUrlIdempotent | src/HttpUtils.js:261-263 | normalising is idempotent, and a trailing slash makes no difference |
| HttpUtils.GetUrlRooted | src/HttpUtils.js:261-263 | the normalised url is rooted iff the url is empty or rooted |
| HttpUtils.GetRequestAction | src/HttpUtils.js:270-284 | the action's method is the request's, and its url ends in one `/` and is rooted iff the request's is |
| HttpUtils.RouteRequest | src/HttpUtils.js:295-339 | 405 iff the method is not one of the nine or has no routes; 404 iff the url is empty, unrooted or not found; otherwise the route, called with the args if it is a function |
| HttpUtils.RouteErrorsAreHttpErrors | src/HttpUtils.js:315-332 | the errors thrown are `new HttpError(code, message)` whatever the status table |
| HttpUtils.NullishTableNotFound | src/HttpUtils.js:330-332 | a method whose routes are null or undefined answers 404 for every url, as lodash `_.has` is false on them |
| HttpUtils.RouteNormalisedUrl | src/HttpUtils.js:295-339 | a route registered under the normalised url is reached for a rooted or empty url |
| HttpErrors.LastOfKind | src/HttpError.js:32-42 | none iff no argument has the kind; otherwise an argument of that kind |
| HttpErrors.LastOfKindWitness | src/HttpError.js:32-42 | the chosen argument is of the kind and no later argument is |
| HttpErrors.LastOfKindAt | src/HttpError.js:32-42 | the last argument of a kind is the one kept |
| HttpErrors.LastOfKindOnly | src/HttpError.js:32-42 | the kept argument is the last of the arguments of that kind |
| HttpErrors.OfKindOnly | src/HttpError.js:32-42 | the arguments of one kind, no more than all arguments |
| HttpErrors.Construct | src/HttpError.js:28-54 | the code is never 0, the message never empty, the headers an object |
| HttpErrors.NewHttpError | src/HttpError.js:28-54 | the constructor's `forEach` loop and defaults compute `Construct` |
| HttpErrors.ArgumentOrder | src/HttpError.js:18-42 | arguments with the same subsequence of each kind give the same error: order matters only within a kind |
| HttpErrors.CodeIsLastNumber | src/HttpError.js:39-44 | the code is the last numeric argument, and 500 when that is 0 or NaN |
| HttpErrors.Defaults | src/HttpError.js:44-46 | no number gives 500; no non-empty string gives `code + " " + STATUS_CODES[code]`; no object gives `{}` |
| HttpErrors.MessageAndHeaders | src/HttpError.js:33-38 | the last non-empty string is the message; the last object is the headers |
| HttpErrors.CodeAlone | src/HttpError.js:39-46 | `new HttpError(404)` has the status text message and empty headers |
| HttpErrors.CodeAndMessage | src/HttpError.js:32-46 | code and message in either order give the same error |
| HttpErrors.MessageThenCode | src/HttpError.js:32-46 | message first, then code |
| HttpErrors.CodeThenMessage | src/HttpError.js:32-46 | code first, then message |
| HttpErrors.CodeKey | src/HttpError.js:84 | `codes[code]` reads the property key of `code`; only functions, dates and arrays keep an uncomputed key |
| HttpErrors.Create | src/HttpError.js:83-85 | the factory under the code's property key when its result is truthy; a TypeError when that entry is a truthy non-function; otherwise `new HTTPError(code, msg, headers)` |
| HttpErrors.NumberAndTextShareKey | src/HttpError.js:84 | a number and its decimal text read the same entry of `codes`, so `create(404)` and `create("404")` reach the same factory |
| HttpErrors.DistinctNumbersDistinctKeys | src/HttpError.js:84 | distinct numbers read distinct entries |
| HttpErrors.CreateReadsOneEntry | src/HttpError.js:83-85 | two tables that agree on the entry under the code's key create alike |
| NrCaches.StoreValue | src/NrCache.js:19-34 | the backing object is a plain object until destroyed, then undefined |
| NrCaches.Keys | src/NrCache.js:41-43 | `getKeys` lists the object's keys; a destroyed cache has none |
| NrCaches.RemoveProp | src/NrCache.js:72 | `delete` removes the key and adds nothing |
| NrCaches.RemovePropLookup | src/NrCache.js:72 | after `delete` the key is absent and every other key reads as before |
| NrCaches.StoreSet | src/NrCache.js:60-63 | passes iff the key is a string and the cache is not destroyed, and then assigns; otherwise a TypeError and no change |
| NrCaches.StoreSetValues | src/NrCache.js:93-103 | an array or a non-object throws a TypeError before anything changes |
| NrCaches.StoreHas | src/NrCache.js:50-53 | (corrected) a TypeError for a non-string key or a destroyed cache, otherwise key membership |
| NrCaches.StoreGet | src/NrCache.js:81-87 | (corrected) the stored value iff the key is present, otherwise a TypeError |
| NrCaches.StoreUnset | src/NrCache.js:69-74 | (corrected) deletes the key when present; a TypeError for a non-string key or a destroyed cache |
| NrCaches.StoreUnsetValues | src/NrCache.js:109-118 | a non-array or a non-string item throws a TypeError before anything changes |
| NrCaches.StoreHasAsWritten | src/NrCache.js:50-53 | always throws: a ReferenceError for every string key |
| NrCaches.StoreGetAsWritten | src/NrCache.js:81-87 | always throws: a ReferenceError for every string key |
| NrCaches.StoreUnsetAsWritten | src/NrCache.js:69-74 | always throws and never deletes: a ReferenceError for every string key |
| NrCaches.StoreUnsetValuesAsWritten | src/NrCache.js:109-118 | passes only for an empty array, never changes the cache, and throws a ReferenceError for any non-empty list of strings |
| NrCaches.StoredValueUnreadableAsWritten | src/NrCache.js:50-87 | after `setValue(k, v)` the source's readers all throw, while the corrected ones find v |
| NrCaches.FreshCacheEmpty | src/NrCache.js:12-43 | a new or cleared cache has no keys, and neither has a destroyed one |
| NrCaches.SetValueLookup | src/NrCache.js:60-63 | after `setValue(k, v)` k maps to v and every other key is unchanged |
| NrCaches.SetThenGet | src/NrCache.js:50-87 | after `setValue(k, v)`, `hasValue(k)` is true and `getValue(k)` is v |
| NrCaches.UnsetValueLookup | src/NrCache.js:69-74 | after `unsetValue(k)` k is absent and every other key unchanged |
| NrCaches.DestroyedRejects | src/NrCache.js:33-63 | after `destroy`, `setValue` throws and changes nothing |
| NrCaches.SetEachLookup | src/NrCache.js:97-101 | setting a list of keys maps each listed key to its value and leaves every other key |
| NrCaches.SetValuesLookup | src/NrCache.js:93-103 | after `setValues(obj)` each key of obj maps to obj's value and every other key is unchanged |
| NrCaches.SetEachStops | src/NrCache.js:99-101 | the first failing `setValue` ends `setValues` |
| NrCaches.UnsetEachStops | src/NrCache.js:114-116 | the first failing `unsetValue` ends `unsetValues` |
| NrCaches.NrCache.constructor | src/NrCache.js:12-21 | the cache starts as an empty object |
| NrCaches.NrCache.Clear | src/NrCache.js:26-28 | the cache becomes an empty object |
| NrCaches.NrCache.Destroy | src/NrCache.js:33-35 | the cache becomes undefined |
| NrCaches.NrCache.GetKeys | src/NrCache.js:41-43 | the keys of the cache |
| NrCaches.NrCache.HasValue | src/NrCache.js:50-53 | the corrected `StoreHas` |
| NrCaches.NrCache.GetValue | src/NrCache.js:81-87 | the corrected `StoreGet` |
| NrCaches.NrCache.SetValue | src/NrCache.js:60-63 | in place, equals `StoreSet` |
| NrCaches.NrCache.UnsetValue | src/NrCache.js:69-74 | in place, equals the corrected `StoreUnset` |
| NrCaches.NrCache.SetValues | src/NrCache.js:93-103 | the `forEach` loop, in place, equals `StoreSetValues` |
| NrCaches.NrCache.UnsetValues | src/NrCache.js:109-118 | the `forEach` loop, in place, equals `StoreUnsetValues` with the corrected `unsetValue` |
| ObjectUtils.Has | src/ObjectUtils.js:50-52 | throws for undefined and null; own-key membership for objects, index keys and `length` for arrays, false for primitives |
| ObjectUtils.EnumLookup | src/ObjectUtils.js:23-25 | an id maps to a key iff the enum has that id |
| ObjectUtils.RemapObjectKeys | src/ObjectUtils.js:16-42 | the `_.reduce` loop computes the remapped object, or the first error |
| ObjectUtils.RemapStopsAtError | src/ObjectUtils.js:18-40 | the first error ends the reduction |
| ObjectUtils.LastContribution | src/ObjectUtils.js:23-29 | a target key is unset iff no id contributes to it; otherwise it holds the source value of the last contributing id |
| ObjectUtils.RemapLookup | src/ObjectUtils.js:18-40 | each output key holds the value of the last id in `fromEnum` order that maps to it and whose source key `value` has |
| ObjectUtils.RemapKeysFromTarget | src/ObjectUtils.js:25-28 | every output key is a value of `toEnum` |
| ObjectUtils.RemapDistinct | src/ObjectUtils.js:18-40 | the output has no repeated key |
| ObjectUtils.RemapErrors | src/ObjectUtils.js:23-33 | for a non-nullish value the remap succeeds iff `toEnum` has every id, and otherwise fails with the ReferenceError of the undeclared `nrLog` |
| ObjectUtils.RemapNullish | src/ObjectUtils.js:27 | for undefined or null with every id present, `has(value, …)` throws a TypeError |
| StringUtils.ParseBoolean | src/StringUtils.js:15-21 | `true` for "true" in any letter case, `false` for "false" in any letter case, the default otherwise |
| StringUtils.LowerIffCaseVariant | src/StringUtils.js:16 | lowering gives a lower-case word iff the input is that word in some letter case |
| StringUtils.ParseBooleanExamples | src/StringUtils.js:15-21 | "TRUE" and "True" are true, "FALSE" is false, "yes" gives the default, which is undefined when omitted |
| StringUtils.ParseBooleanIgnoresCase | src/StringUtils.js:16 | inputs equal up to letter case parse alike |
| StringUtils.ParseInteger | src/StringUtils.js:29-32 | undefined iff the input is undefined; an all-digit string gives its base-10 value |
| StringUtils.ParseIntegerRoundTrip | src/StringUtils.js:31 | `parseInteger(String(i))` is i |

## Left out

- Console output (`console.warn`, `console.error`, `console.log`) and `Error.captureStackTrace` are left out; they change no value the code returns.
- `HttpUtils` I/O is left out: `listen`, `createJsonServer`, `writeJson`, `writeErrorJson` and `getRequestData*` work on servers, streams and promises.
- `LogicUtils.tryCatch` is not part of this model. It is taken to return the handler's result when the call throws.
- TypeUtils `toString`, `classToObjectPropertyTypes` and `classToTestType` are left out. They depend on `JSON.stringify`, `instanceof` and prototype enumeration of host classes.
- Descriptions are a datatype naming the kind of failure and the key. The interpolated text of the value and the type string is left out, because it comes from `JSON.stringify`.
- TypeEvaluator.Call: the host's call-stack depth is an explicit `stack`/`fuel` bound, and a call beyond it is a caught RangeError; the real depth is not modelled.
- Numbers are integers and NaN. Floating point, `-0` and infinities are left out.
- Object identity is left out: `AssertUtils.IsEqual` takes it as a `sameObject` parameter.
- Integer-like keys, which JavaScript enumerates first, are left out. So are `__proto__` and inherited properties; a function's own properties are only `length` and `name`, and read as undefined.
- AssertUtils.IsStringPattern: the pattern is a function of the string, so the `lastIndex` state of a global RegExp is not modelled.
- HttpErrors.Construct: `HTTP.STATUS_CODES` is a parameter mapping a code to its text, or none for "undefined".
- HttpUtils.RouteRequest: lodash `_.has` on a url containing `.` or `[` is read as a path; the `hasPath` parameter answers for it. A route function is the `invoke` parameter and cannot throw here.
- HttpUtils.GetRequestAction: the request is its url and method as strings; `getUrl`'s `${req.url}` of a non-string and `getMethod`'s `${req.method}` are not modelled.
- StringUtils.ParseBoolean takes only strings and lowers ASCII letters only. For these two words that decides the same as full Unicode lowering: the only non-ASCII characters that `toLowerCase` turns into ASCII letters are the Kelvin sign and the dotted capital I, and they become `k` and an `i` with a combining dot, which neither word contains.
- StringUtils.ParseInteger takes an optional string; other argument types are left out.
- ObjectUtils.RemapObjectKeys: the enums are lists of entries in key order; `nrLog.warn` is the ReferenceError it raises.
- RegistrySpec.DefineType: the values of a property object are type strings; other values are left out.
- NrCaches.NrCache.HasValue follows the corrected reading of `key` for `value` (see Findings); the source's behaviour is `NrCaches.StoreHasAsWritten`.
- NrCaches.NrCache.GetValue follows the corrected reading (see Findings); the source's behaviour is `NrCaches.StoreGetAsWritten`.
- NrCaches.NrCache.UnsetValue follows the corrected reading (see Findings); the source's behaviour is `NrCaches.StoreUnsetAsWritten`.
- NrCaches.NrCache.UnsetValues uses the corrected `unsetValue` (see Findings); the source's behaviour is `NrCaches.StoreUnsetValuesAsWritten`.
- TypeCompiler.CompilePlainName: the registry is read by own key. lodash `_.has(TESTS, type)` reads a name holding `.` or `[` as a path, so a name such as `string.length` (the `length` of the registered `string` function) is found there, `TESTS[type]` is undefined, and `test` is false where the model raises the unknown-type error.
- TypeCompiler.CompileReachesNamed: the same own-key lookup; names holding `.` or `[` that lodash resolves as a path are not modelled.
- TypeCompiler.CompileNamed: the same own-key lookup of `_.has(TESTS, type)`.
- RegistrySpec.CompileName: the same own-key lookup of `_.has(TESTS, type)`.
- RegistrySpec.DefineAlias: the target is checked by own key; lodash accepts a path target such as `string.length`, whose alias then throws inside `_callTestFunction` and tests false. The model refuses that target.
- TypeRegistry.Registry.DefineAliasType: the same own-key check as RegistrySpec.DefineAlias.
- TypeEvaluator.PropertyResults: an undeclared value key holding `.` or `[` that lodash resolves as a path (`a.length` beside a declared `a`) fails in the source through a thrown call and here as an undeclared property; the verdict is the same, the description differs.
- HttpErrors.Create: functions, dates and arrays are keys by value, because their text (source text, local time, joined items) is not computed. Inherited `Object.prototype` members (`constructor`, `toString`, …) are not entries, an object's own `toString` is not consulted, and a factory cannot throw.
- HttpErrors.Name: the `name` getter is the constant "HTTP Error"; it has no contract.
- `TypeUtils.isPromise` is the predicate `TypeModel.IsPromise`, used by the `promise` default; it has no contract of its own.

## Findings

| source | as written | input that shows it | evidently intended | confidence | as-written member | corrected member |
|---|---|---|---|---|---|---|
| src/NrCache.js:52 | `ObjectUtils.has(this._cache, value)` reads `value`, which is not declared in `hasValue` (nor in `unsetValue` at line 71 or `getValue` at line 83), so each throws a ReferenceError once its key is a string; `unsetValues` of a non-empty list does too | `setValue("k", 1)` then `hasValue("k")` | `ObjectUtils.has(this._cache, key)` | not executed | NrCaches.StoredValueUnreadableAsWritten | NrCaches.SetThenGet |
