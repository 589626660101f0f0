/**
 * The registry of named types, `TESTS`, and the two flags beside it,
 * `DEFAULTS_DEFINED` and `DEFINE_DEFAULTS_JUST_IN_TIME`, with the public
 * operations that read and change them: `defineDefaults`,
 * `setDefineDefaultsJustInTime`, `resetInitialState`, `defineType`, `test`
 * and `assert`. The module `RegistrySpec` says what each operation does to
 * the registry as a function of the state before it; the class in the
 * module `TypeRegistry` below does it in place.
 */
module RegistrySpec {
  import opened Wrappers
  import opened JsStrings
  import opened JsValues
  import opened TypeModel
  import opened TypeCompiler
  import opened TypeEvaluator
  import opened TypeEvaluatorLemmas

  /** The `TypeError`s the public operations throw. */
  datatype ApiError =
    | CompileFailed(error: CompileError)                 // "Type definition for … was unknown."
    | MissingAliasTarget(name: string, target: string)   // "Could not find a type … to define alias …"
    | UnknownDefinition                                  // "Type definition for … is unknown"
    | AssertionFailed(description: Option<Description>)  // "Assertion failed: …"; `None` is the fallback text

  /** The second argument of `defineType`. */
  datatype Definition =
    | TypeString(text: string)                     // a JSDoc-style type string
    | TestFunction(f: Value -> Raw)                // a test function
    | PropertyTypes(entries: seq<(string, string)>)  // a plain object of type strings, in key order
    | OtherDefinition                              // any other value

  /** `TESTS`, `DEFAULTS_DEFINED` and `DEFINE_DEFAULTS_JUST_IN_TIME`. */
  datatype RegistryState = RegistryState(tests: Tests, defaultsDefined: bool, justInTime: bool)

  /** The state when the module is loaded. */
  const Initial := RegistryState(map[], false, true)

  /** The types `defineDefaults` registers. */
  function DefaultTests(): Tests {
    map[
      "string" := Prim(StringType), "number" := Prim(NumberType), "boolean" := Prim(BooleanType),
      "undefined" := Prim(UndefinedType), "null" := Prim(NullType), "symbol" := Prim(SymbolType),
      "function" := Prim(FunctionType), "Date" := Prim(DateType), "array" := Prim(ArrayType),
      "object" := Prim(ObjectType), "promise" := Prim(PromiseType),
      "String" := AliasOf("string"), "Number" := AliasOf("number"), "Boolean" := AliasOf("boolean"),
      "Symbol" := AliasOf("symbol"), "Function" := AliasOf("function"), "Object" := AliasOf("object"),
      "Array" := AliasOf("array"), "Promise" := AliasOf("promise")
    ]
  }

  /** The first eleven writes of `defineDefaults`: the basic types. */
  function WithBasicTypes(m: Tests): Tests {
    m["string" := Prim(StringType)]["number" := Prim(NumberType)]["boolean" := Prim(BooleanType)]
     ["undefined" := Prim(UndefinedType)]["null" := Prim(NullType)]["symbol" := Prim(SymbolType)]
     ["function" := Prim(FunctionType)]["Date" := Prim(DateType)]["array" := Prim(ArrayType)]
     ["object" := Prim(ObjectType)]["promise" := Prim(PromiseType)]
  }

  /** All nineteen, in the source's order: the aliases follow. */
  function WithDefaults(m: Tests): Tests {
    WithBasicTypes(m)
     ["String" := AliasOf("string")]["Number" := AliasOf("number")]["Boolean" := AliasOf("boolean")]
     ["Symbol" := AliasOf("symbol")]["Function" := AliasOf("function")]["Object" := AliasOf("object")]
     ["Array" := AliasOf("array")]["Promise" := AliasOf("promise")]
  }

  /** Every alias target is among the basic types, written before the
      aliases, so no `_defineAliasType` call of `defineDefaults` throws. */
  lemma AliasTargetsRegistered(s: RegistryState)
    ensures var s1 := s.(tests := WithBasicTypes(s.tests));
      && DefineAlias(s1, "String", "string").Ok?
      && DefineAlias(s1, "Number", "number").Ok?
      && DefineAlias(s1, "Boolean", "boolean").Ok?
      && DefineAlias(s1, "Symbol", "symbol").Ok?
      && DefineAlias(s1, "Function", "function").Ok?
      && DefineAlias(s1, "Object", "object").Ok?
      && DefineAlias(s1, "Array", "array").Ok?
      && DefineAlias(s1, "Promise", "promise").Ok?
  {
  }

  /** Written in that order, the defaults end up over the registry's other
      entries. */
  lemma DefaultTestsInOrder(m: Tests)
    ensures WithDefaults(m) == m + DefaultTests()
  {
  }

  /** `defineDefaults()`: nothing once the defaults are defined; otherwise the
      default types are written over whatever the registry holds under their
      names, and every other entry stays. */
  function DefineDefaults(s: RegistryState): (r: RegistryState)
    ensures r.defaultsDefined && r.justInTime == s.justInTime
    ensures s.defaultsDefined ==> r == s
  {
    if s.defaultsDefined then s
    else s.(tests := s.tests + DefaultTests(), defaultsDefined := true)
  }

  /** The first statement of `test`, `assert` and `defineType`. */
  function JustInTime(s: RegistryState): (r: RegistryState)
    ensures r.justInTime == s.justInTime
    ensures r.defaultsDefined <==> s.defaultsDefined || s.justInTime
    ensures s.defaultsDefined || !s.justInTime ==> r == s
  {
    if s.justInTime && !s.defaultsDefined then DefineDefaults(s) else s
  }

  /** `setDefineDefaultsJustInTime(value)`: the flag becomes `!!value`. */
  function SetDefineDefaultsJustInTime(s: RegistryState, value: Value): (r: RegistryState)
    ensures r.justInTime <==> Truthy(value)
    ensures r.tests == s.tests && r.defaultsDefined == s.defaultsDefined
  {
    s.(justInTime := Truthy(value))
  }

  /** `resetInitialState()`: nothing unless the defaults are defined; then
      every entry goes, the user's own types with the defaults. */
  function ResetInitialState(s: RegistryState): (r: RegistryState)
    ensures !r.defaultsDefined && r.justInTime == s.justInTime
    ensures s.defaultsDefined ==> r.tests == map[]
    ensures !s.defaultsDefined ==> r == s
  {
    if !s.defaultsDefined then s else s.(tests := map[], defaultsDefined := false)
  }

  /** `_defineTypeTest(name, test)`. */
  function DefineTypeTest(s: RegistryState, name: string, t: CompiledTest): (r: RegistryState)
    ensures name in r.tests && r.tests[name] == t
    ensures forall k :: k != name ==> (k in r.tests <==> k in s.tests)
    ensures forall k :: k in s.tests && k != name ==> r.tests[k] == s.tests[k]
    ensures r.defaultsDefined == s.defaultsDefined && r.justInTime == s.justInTime
  {
    s.(tests := s.tests[name := t])
  }

  /** `_defineAliasType(name, target)`: the new entry looks the target up
      each time it runs; the target must be registered now. */
  function DefineAlias(s: RegistryState, name: string, target: string): (r: Result<RegistryState, ApiError>)
    ensures r.Ok? <==> target in s.tests
    ensures r.Ok? ==> r.value == DefineTypeTest(s, name, AliasOf(target))
    ensures r.Err? ==> r.error == MissingAliasTarget(name, target)
  {
    if target in s.tests then Ok(DefineTypeTest(s, name, AliasOf(target)))
    else Err(MissingAliasTarget(name, target))
  }

  /** The property map `defineType` compiles from a plain object, one key
      after the other; the first type string that does not compile ends it. */
  function CompileDefinitions(entries: seq<(string, string)>, tests: Tests): (r: Result<map<string, CompiledTest>, CompileError>)
  {
    if entries == [] then Ok(map[])
    else
      var last := entries[|entries| - 1];
      match CompileDefinitions(entries[..|entries| - 1], tests)
      case Err(e) => Err(e)
      case Ok(props) =>
        match Compile(last.1, tests)
        case Err(e) => Err(e)
        case Ok(t) => Ok(props[last.0 := t])
  }

  /** `defineType(name, type)`. The defaults are defined first when that is
      due, and stay defined when the definition then throws. The root copy
      accepts no test function. */
  function DefineType(copy: Copy, s: RegistryState, name: string, def: Definition): (r: (RegistryState, Outcome<ApiError>))
    ensures r.1.Fail? ==> r.0 == JustInTime(s)
    ensures r.1.Pass? ==> name in r.0.tests && r.0 == DefineTypeTest(JustInTime(s), name, r.0.tests[name])
  {
    var s1 := JustInTime(s);
    match def
    case TypeString(text) =>
      (match Compile(text, s1.tests)
       case Err(e) => (s1, Fail(CompileFailed(e)))
       case Ok(t) => (DefineTypeTest(s1, name, t), Pass))
    case TestFunction(f) =>
      if copy == RootCopy then (s1, Fail(UnknownDefinition))
      else (DefineTypeTest(s1, name, UserFn(f)), Pass)
    case PropertyTypes(entries) =>
      (match CompileDefinitions(entries, s1.tests)
       case Err(e) => (s1, Fail(CompileFailed(e)))
       case Ok(props) => (DefineTypeTest(s1, name, Shape(props)), Pass))
    case OtherDefinition => (s1, Fail(UnknownDefinition))
  }

  /** `_test(value, type)`: the compiled test called through
      `_callTestFunction` with `stack` frames of the host's call stack left;
      a type string that does not compile throws out of it. */
  function Evaluate(copy: Copy, s: RegistryState, v: Value, typeString: string, stack: nat): (r: Result<TestResult, ApiError>)
    ensures r.Err? <==> Compile(typeString, s.tests).Err?
  {
    match Compile(typeString, s.tests)
    case Err(e) => Err(CompileFailed(e))
    case Ok(t) => Ok(Call(copy, s.tests, t, v, stack))
  }

  /** `test(value, type)`: `_getResultValue` of the result. */
  function Test(copy: Copy, s: RegistryState, v: Value, typeString: string, stack: nat): (r: (RegistryState, Result<bool, ApiError>))
    ensures r.0 == JustInTime(s)
  {
    var s1 := JustInTime(s);
    match Evaluate(copy, s1, v, typeString, stack)
    case Err(e) => (s1, Err(e))
    case Ok(result) => (s1, Ok(result.value))
  }

  /** The description of a failed assertion; an empty text is falsy and gives
      way to the fallback. */
  function AssertionDescription(result: TestResult): (d: Option<Description>)
    ensures d.Some? ==> d == result.description && d.value != Text("")
  {
    if result.description.Some? && result.description.value != Text("") then result.description else None
  }

  /** `assert(value, type)`. */
  function Assert(copy: Copy, s: RegistryState, v: Value, typeString: string, stack: nat): (r: (RegistryState, Outcome<ApiError>))
    ensures r.0 == JustInTime(s)
  {
    var s1 := JustInTime(s);
    match Evaluate(copy, s1, v, typeString, stack)
    case Err(e) => (s1, Fail(e))
    case Ok(result) =>
      if result.value then (s1, Pass) else (s1, Fail(AssertionFailed(AssertionDescription(result))))
  }

  /** Once one property type fails to compile, the whole definition fails
      with that error. */
  lemma {:induction false} CompileDefinitionsStops(entries: seq<(string, string)>, tests: Tests, n: nat)
    requires 0 < n <= |entries|
    requires CompileDefinitions(entries[..n], tests).Err?
    ensures CompileDefinitions(entries, tests) == CompileDefinitions(entries[..n], tests)
    decreases |entries|
  {
    if n < |entries| {
      var init := entries[..|entries| - 1];
      assert init[..n] == entries[..n];
      CompileDefinitionsStops(init, tests, n);
    } else {
      assert entries[..n] == entries;
    }
  }

  // ---------------------------------------------------------------------
  // The registry's lifecycle.
  // ---------------------------------------------------------------------

  /** `defineDefaults` a second time changes nothing. */
  lemma DefineDefaultsIdempotent(s: RegistryState)
    ensures DefineDefaults(DefineDefaults(s)) == DefineDefaults(s)
  {
  }

  /** The first `defineDefaults` writes each default type over an entry of
      the same name and keeps every other entry as it was. */
  lemma DefineDefaultsKeepsOthers(s: RegistryState, k: string)
    requires !s.defaultsDefined
    ensures k in DefaultTests() ==> k in DefineDefaults(s).tests && DefineDefaults(s).tests[k] == DefaultTests()[k]
    ensures k !in DefaultTests() ==> (k in DefineDefaults(s).tests <==> k in s.tests)
    ensures k in s.tests && k !in DefaultTests() ==> DefineDefaults(s).tests[k] == s.tests[k]
  {
  }

  /** `resetInitialState` after the defaults and a type of the user's own
      leaves an empty registry and the defaults undefined. */
  lemma ResetForgetsUserTypes(copy: Copy, s: RegistryState, name: string, def: Definition)
    ensures var s1 := DefineType(copy, DefineDefaults(s), name, def).0;
      ResetInitialState(s1).tests == map[] && !ResetInitialState(s1).defaultsDefined
  {
  }

  /** With the just-in-time flag set, `test` defines the defaults once and
      leaves them defined; with it cleared, the registry stays as it is. */
  lemma TestDefinesDefaultsJustInTime(copy: Copy, s: RegistryState, v: Value, typeString: string, stack: nat)
    ensures s.justInTime ==> Test(copy, s, v, typeString, stack).0.defaultsDefined
    ensures !s.justInTime ==> Test(copy, s, v, typeString, stack).0 == s
    ensures Test(copy, Test(copy, s, v, typeString, stack).0, v, typeString, stack) == Test(copy, s, v, typeString, stack)
  {
  }

  // ---------------------------------------------------------------------
  // Names and aliases.
  // ---------------------------------------------------------------------

  /** A name free of edge whitespace and of `|&*<]{` compiles to what the
      registry holds under it, or to the unknown-type error. */
  lemma CompileName(name: string, tests: Tests)
    requires NoEdgeWhitespace(name) && PlainName(name)
    ensures Compile(name, tests) == if name in tests then Ok(tests[name]) else Err(UnknownType(name))
  {
    TrimOfTrimmed(name);
    CompilePlainName(name, tests);
  }

  /** A name made of ASCII letters only. */
  predicate Letters(name: string) {
    forall i :: 0 <= i < |name| ==> 'a' <= name[i] <= 'z' || 'A' <= name[i] <= 'Z'
  }

  /** Letters are neither whitespace nor one of `|&*<]{`. */
  lemma LettersArePlain(name: string)
    requires Letters(name)
    ensures NoEdgeWhitespace(name) && PlainName(name)
  {
    forall i | 0 <= i < |name|
      ensures name[i] !in "|&*<]{"
    {
      var special := "|&*<]{";
      assert forall j :: 0 <= j < |special| ==> special[j] != name[i];
    }
  }

  /** The default names are made of letters. */
  lemma DefaultNamesAreLetters(name: string)
    requires name in DefaultTests()
    ensures Letters(name)
  {
    if name in ["string", "number", "boolean", "undefined", "null", "symbol", "function", "Date", "array", "object"] {
      BasicNamesAreLetters(name);
    } else {
      OtherNamesAreLetters(name);
    }
  }

  /** The first ten default names are made of letters. */
  lemma BasicNamesAreLetters(name: string)
    requires name in ["string", "number", "boolean", "undefined", "null", "symbol", "function", "Date", "array", "object"]
    ensures Letters(name)
  {
  }

  /** The other nine default names are made of letters. */
  lemma OtherNamesAreLetters(name: string)
    requires name in ["promise", "String", "Number", "Boolean", "Symbol", "Function", "Object", "Array", "Promise"]
    ensures Letters(name)
  {
  }

  /** An alias looks its target up each time it runs: after the target is
      redefined, the alias tests with the new definition. */
  lemma AliasLateBinding(copy: Copy, s: RegistryState, name: string, target: string, t: CompiledTest, v: Value, fuel: nat)
    requires fuel > 0 && target in s.tests && name != target && !t.Shape?
    ensures var s2 := DefineTypeTest(DefineAlias(s, name, target).value, target, t);
      Call(copy, s2.tests, s2.tests[name], v, fuel) == Call(copy, s2.tests, t, v, fuel - 1)
  {
    var s2 := DefineTypeTest(DefineAlias(s, name, target).value, target, t);
    assert s2.tests[name] == AliasOf(target);
    AliasSpec(copy, s2.tests, target, v, fuel);
  }

  /** A type defined as another type's name copies that type's test when it
      is defined: redefining the other name later does not change it. */
  lemma DefinedNameIsCopied(copy: Copy, s: RegistryState, name: string, other: string, t: CompiledTest)
    requires NoEdgeWhitespace(other) && PlainName(other)
    requires other in JustInTime(s).tests && other != name
    ensures var r := DefineType(copy, s, name, TypeString(other));
      && r.1 == Pass
      && r.0.tests[name] == JustInTime(s).tests[other]
      && DefineTypeTest(r.0, other, t).tests[name] == JustInTime(s).tests[other]
  {
    CompileName(other, JustInTime(s).tests);
  }

  // ---------------------------------------------------------------------
  // `test` and `assert`.
  // ---------------------------------------------------------------------

  /** `assert` throws the assertion error exactly when `test` returns false,
      passes exactly when it returns true, and throws the same compile
      error; both leave the same registry. */
  lemma AssertThrowsIffTestFails(copy: Copy, s: RegistryState, v: Value, typeString: string, stack: nat)
    ensures Assert(copy, s, v, typeString, stack).0 == Test(copy, s, v, typeString, stack).0
    ensures Assert(copy, s, v, typeString, stack).1 == Pass <==> Test(copy, s, v, typeString, stack).1 == Ok(true)
    ensures (Assert(copy, s, v, typeString, stack).1.Fail? && Assert(copy, s, v, typeString, stack).1.error.AssertionFailed?)
      <==> Test(copy, s, v, typeString, stack).1 == Ok(false)
    ensures Test(copy, s, v, typeString, stack).1.Err? ==>
      Assert(copy, s, v, typeString, stack).1 == Fail(Test(copy, s, v, typeString, stack).1.error)
  {
  }

  /** On a fresh registry `test` of a default name runs that default test. */
  lemma TestDefaultName(copy: Copy, v: Value, name: string, stack: nat)
    requires name in DefaultTests()
    ensures Test(copy, Initial, v, name, stack)
      == (DefineDefaults(Initial), Ok(Call(copy, DefaultTests(), DefaultTests()[name], v, stack).value))
  {
    var s1 := DefineDefaults(Initial);
    assert s1.tests == DefaultTests();
    DefaultNamesAreLetters(name);
    LettersArePlain(name);
    CompileName(name, s1.tests);
  }

  /** Without the just-in-time flag nothing is registered, and a default
      name is an unknown type. */
  lemma TestWithoutJustInTime(copy: Copy, v: Value, name: string, stack: nat)
    requires name in DefaultTests()
    ensures Test(copy, Initial.(justInTime := false), v, name, stack).1 == Err(CompileFailed(UnknownType(name)))
  {
    DefaultNamesAreLetters(name);
    LettersArePlain(name);
    CompileName(name, map[]);
  }

  /** A basic type on a fresh registry holds exactly for its kind of value,
      given one frame of stack: `test("hello", "string")` and the like. */
  lemma BasicTypeOnFreshRegistry(copy: Copy, v: Value, name: string, kind: Primitive, stack: nat)
    requires name in DefaultTests() && DefaultTests()[name] == Prim(kind) && stack > 0
    ensures Test(copy, Initial, v, name, stack).1 == Ok(PrimHolds(kind, v))
  {
    TestDefaultName(copy, v, name, stack);
    CallPrimitive(copy, DefaultTests(), kind, v, stack);
  }

  /** A capitalised alias on a fresh registry agrees with its target, one
      frame deeper: `test("hello", "String")` and the like. */
  lemma AliasOnFreshRegistry(copy: Copy, v: Value, name: string, target: string, kind: Primitive, stack: nat)
    requires name in DefaultTests() && DefaultTests()[name] == AliasOf(target)
    requires target in DefaultTests() && DefaultTests()[target] == Prim(kind) && stack > 1
    ensures Test(copy, Initial, v, name, stack).1 == Ok(PrimHolds(kind, v))
  {
    TestDefaultName(copy, v, name, stack);
    AliasSpec(copy, DefaultTests(), target, v, stack);
    assert Run(copy, DefaultTests(), Prim(kind), v, stack - 1) == Returned(PrimHolds(kind, v));
  }

  /** A type defined from a plain object of type strings tests a value as
      the object literal of those properties would. */
  lemma DefinedPropertyType(copy: Copy, s: RegistryState, name: string, entries: seq<(string, string)>, v: Value, stack: nat)
    requires NoEdgeWhitespace(name) && PlainName(name)
    requires CompileDefinitions(entries, JustInTime(s).tests).Ok?
    ensures var r := DefineType(copy, s, name, PropertyTypes(entries));
      && r.1 == Pass
      && Test(copy, r.0, v, name, stack).1
         == Ok(Call(copy, r.0.tests, Shape(CompileDefinitions(entries, JustInTime(s).tests).value), v, stack).value)
  {
    var s1 := JustInTime(s);
    var t := Shape(CompileDefinitions(entries, s1.tests).value);
    var s2 := DefineTypeTest(s1, name, t);
    assert DefineType(copy, s, name, PropertyTypes(entries)) == (s2, Pass);
    assert JustInTime(s2) == s2;
    CompileName(name, s2.tests);
    assert Evaluate(copy, s2, v, name, stack) == Ok(Call(copy, s2.tests, t, v, stack));
  }

  /** `{value: "string", ready: "boolean"}`, and what it compiles to. */
  const FooEntries: seq<(string, string)> := [("value", "string"), ("ready", "boolean")]
  const FooProps: map<string, CompiledTest> := map["value" := Prim(StringType), "ready" := Prim(BooleanType)]

  lemma FooCompiles(tests: Tests)
    requires "string" in tests && tests["string"] == Prim(StringType)
    requires "boolean" in tests && tests["boolean"] == Prim(BooleanType)
    ensures CompileDefinitions(FooEntries, tests) == Ok(FooProps)
  {
    LettersArePlain("string");
    LettersArePlain("boolean");
    CompileName("string", tests);
    CompileName("boolean", tests);
    assert FooEntries[..1][..0] == [];
    assert CompileDefinitions(FooEntries[..1], tests) == Ok(map["value" := Prim(StringType)]);
  }

  lemma FooIsPlainName()
    ensures NoEdgeWhitespace("Foo") && PlainName("Foo")
  {
    LettersArePlain("Foo");
  }

  /** `{value: "hello", ready: true}` passes the properties of Foo. */
  lemma FooAccepts(copy: Copy, tests: Tests, stack: nat)
    requires stack > 1
    ensures Call(copy, tests, Shape(FooProps), Obj([Prop("value", Str("hello")), Prop("ready", Bool(true))]), stack).value
  {
    var good := Obj([Prop("value", Str("hello")), Prop("ready", Bool(true))]);
    ShapeSpec(copy, tests, FooProps, good, stack);
    CallPrimitive(copy, tests, StringType, Str("hello"), stack - 1);
    CallPrimitive(copy, tests, BooleanType, Bool(true), stack - 1);
    assert OwnEntries(good)[0].key == "value" && OwnEntries(good)[1].key == "ready";
  }

  /** An `error` property is not declared by Foo. */
  lemma FooRejectsError(copy: Copy, tests: Tests, stack: nat)
    requires stack > 0
    ensures !Call(copy, tests, Shape(FooProps), Obj([Prop("value", Str("hello")), Prop("ready", Bool(false)), Prop("error", Num(123))]), stack).value
  {
    var bad := Obj([Prop("value", Str("hello")), Prop("ready", Bool(false)), Prop("error", Num(123))]);
    assert "error"[0] != "value"[0] && "error"[0] != "ready"[0];
    assert OwnEntries(bad)[2].key !in FooProps;
    ShapeUndeclaredKey(copy, tests, FooProps, bad, stack, 2);
  }

  /** `defineType("Foo", {value: "string", ready: "boolean"})` on a registry
      holding the default `string` and `boolean`: `{value: "hello", ready:
      true}` is a Foo, and the same object with an extra `error` property is
      not. */
  lemma FooType(copy: Copy, s: RegistryState, stack: nat)
    requires stack > 1
    requires "string" in JustInTime(s).tests && JustInTime(s).tests["string"] == Prim(StringType)
    requires "boolean" in JustInTime(s).tests && JustInTime(s).tests["boolean"] == Prim(BooleanType)
    ensures var r := DefineType(copy, s, "Foo", PropertyTypes(FooEntries));
      && r.1 == Pass
      && Test(copy, r.0, Obj([Prop("value", Str("hello")), Prop("ready", Bool(true))]), "Foo", stack).1 == Ok(true)
      && Test(copy, r.0, Obj([Prop("value", Str("hello")), Prop("ready", Bool(false)), Prop("error", Num(123))]), "Foo", stack).1
         == Ok(false)
  {
    FooCompiles(JustInTime(s).tests);
    FooIsPlainName();
    var r := DefineType(copy, s, "Foo", PropertyTypes(FooEntries));
    var good := Obj([Prop("value", Str("hello")), Prop("ready", Bool(true))]);
    var bad := Obj([Prop("value", Str("hello")), Prop("ready", Bool(false)), Prop("error", Num(123))]);
    DefinedPropertyType(copy, s, "Foo", FooEntries, good, stack);
    DefinedPropertyType(copy, s, "Foo", FooEntries, bad, stack);
    FooAccepts(copy, r.0.tests, stack);
    FooRejectsError(copy, r.0.tests, stack);
  }

  /** `{error:string}`, the right operand of `Foo & {error:string}`. */
  const ErrorProps: map<string, CompiledTest> := map["error" := Prim(StringType)]

  /** The characters `{error:string}` lacks, checked apart from any other fact. */
  lemma ErrorLiteralChars()
    ensures var t := "{error:string}";
      '|' !in t && '&' !in t && ',' !in t && t != "{}"
  {
  }

  /** The braces of `{error:string}` and what they enclose. */
  lemma ErrorLiteralSlices()
    ensures var t := "{error:string}";
      && t[..1] == "{" && t[|t| - 1..] == "}" && t[1..|t| - 1] == "error:string"
  {
    var inner := "error:string";
    assert "{error:string}" == "{" + inner + "}";
  }

  /** ` {error:string}` trims to an object literal holding one `key:type` part. */
  lemma ErrorLiteralShape()
    ensures Trim(" {error:string}") == "{error:string}"
    ensures var t := "{error:string}";
      && IsObjectLiteral(t) && '|' !in t && '&' !in t && t != "{}"
      && Trim(t[1..|t| - 1]) == "error:string"
  {
    var s := " {error:string}";
    var t := "{error:string}";
    ErrorLiteralChars();
    ErrorLiteralSlices();
    assert s[1..] == t;
    TrimStartOfTrimmed(t);
    TrimEndOfTrimmed(t);
    TrimOfTrimmed("error:string");
  }

  /** The pieces of `error:string`, checked apart from any other fact. */
  lemma ErrorPartChars()
    ensures var rest := "error:string";
      && ',' !in rest && rest[5] == ':' && ':' !in rest[..5]
      && rest[..5] == "error" && rest[6..] == "string"
      && NoEdgeWhitespace(rest) && NoEdgeWhitespace("error") && NoEdgeWhitespace("string")
  {
  }

  /** `error:string` is one part, the property `error` of type `string`. */
  lemma ErrorPropertyPart()
    ensures TrimmedParts("error:string", ',') == ["error:string"]
    ensures PropertyPart("error:string") == ("error", "string")
  {
    var rest := "error:string";
    ErrorPartChars();
    TrimOfTrimmed(rest);
    TrimOfTrimmed("error");
    TrimOfTrimmed("string");
    var parts := TrimmedParts(rest, ',');
    assert Split(rest, ',') == [rest];
    assert |parts| == 1 && parts[0] == rest;
    PropertyPartAt(rest, 5);
  }

  /** The object literal ` {error:string}` compiles to a one-property shape. */
  lemma ErrorShapeCompiles(tests: Tests)
    requires "string" in tests && tests["string"] == Prim(StringType)
    ensures Compile(" {error:string}", tests) == Ok(Shape(ErrorProps))
  {
    ErrorLiteralShape();
    ErrorPropertyPart();
    StringNameCompiles(tests);
    CompileSingleProperty(" {error:string}", tests, "error:string");
  }

  /** `string` names the registry's `string` entry. */
  lemma StringNameCompiles(tests: Tests)
    requires "string" in tests
    ensures Compile("string", tests) == Ok(tests["string"])
  {
    LettersArePlain("string");
    CompileName("string", tests);
  }

  /** The operand `Foo ` is the registry's entry for `Foo`. */
  lemma FooOperandCompiles(tests: Tests)
    requires "Foo" in tests
    ensures Compile("Foo ", tests) == Ok(tests["Foo"])
  {
    var s := "Foo ";
    TrimStartOfTrimmed(s);
    assert s[..|s| - 1] == "Foo";
    TrimEndOfTrimmed("Foo");
    assert Trim(s) == "Foo";
    FooIsPlainName();
    CompilePlainName(s, tests);
  }

  /** `Foo & {error:string}` is the intersection of Foo's entry and the
      `{error:string}` shape. */
  lemma FooAndErrorCompiles(tests: Tests)
    requires "Foo" in tests
    requires "string" in tests && tests["string"] == Prim(StringType)
    ensures Compile("Foo & {error:string}", tests) == Ok(AllOf([tests["Foo"], Shape(ErrorProps)]))
  {
    FooAndErrorSplit();
    FooOperandCompiles(tests);
    ErrorShapeCompiles(tests);
    CompileIntersectionOfTwo("Foo & {error:string}", tests, "Foo ", " {error:string}");
  }

  /** The characters of `Foo & {error:string}`, checked apart from any other fact. */
  lemma FooAndErrorChars()
    ensures var s := "Foo & {error:string}";
      && s == "Foo " + "&" + " {error:string}"
      && NoEdgeWhitespace(s) && '|' !in s && '&' in s
      && '&' !in "Foo " && '&' !in " {error:string}"
  {
  }

  /** `Foo & {error:string}` is already trimmed and splits into two parts at its `&`. */
  lemma FooAndErrorSplit()
    ensures var s := "Foo & {error:string}";
      && Trim(s) == s && '|' !in s && '&' in s
      && Split(s, '&') == ["Foo ", " {error:string}"]
  {
    FooAndErrorChars();
    TrimOfTrimmed("Foo & {error:string}");
    SplitTwo("Foo ", " {error:string}", '&');
  }

  /** The intersection merges Foo's properties with `error:string`, so
      `{value: "hello", ready: false, error: "Test error"}` passes it and the
      same object with `error: 123` does not. */
  lemma FooAndErrorAccepts(copy: Copy, tests: Tests, stack: nat)
    requires stack > 2
    ensures Call(copy, tests, AllOf([Shape(FooProps), Shape(ErrorProps)]),
                 Obj([Prop("value", Str("hello")), Prop("ready", Bool(false)), Prop("error", Str("Test error"))]), stack).value
    ensures !Call(copy, tests, AllOf([Shape(FooProps), Shape(ErrorProps)]),
                  Obj([Prop("value", Str("hello")), Prop("ready", Bool(false)), Prop("error", Num(123))]), stack).value
  {
    var ts := [Shape(FooProps), Shape(ErrorProps)];
    var merged := FooProps + ErrorProps;
    assert ts[..1][..0] == [];
    assert MergeShapes(ts[..1]) == FooProps;
    assert MergeShapes(ts) == merged;
    var good := Obj([Prop("value", Str("hello")), Prop("ready", Bool(false)), Prop("error", Str("Test error"))]);
    var bad := Obj([Prop("value", Str("hello")), Prop("ready", Bool(false)), Prop("error", Num(123))]);
    IntersectionSpec(copy, tests, ts, good, stack);
    IntersectionSpec(copy, tests, ts, bad, stack);
    ShapeSpec(copy, tests, merged, good, stack - 1);
    ShapeSpec(copy, tests, merged, bad, stack - 1);
    CallPrimitive(copy, tests, StringType, Str("hello"), stack - 2);
    CallPrimitive(copy, tests, BooleanType, Bool(false), stack - 2);
    CallPrimitive(copy, tests, StringType, Str("Test error"), stack - 2);
    CallPrimitive(copy, tests, StringType, Num(123), stack - 2);
    assert OwnEntries(good)[0].key == "value" && OwnEntries(good)[1].key == "ready" && OwnEntries(good)[2].key == "error";
    assert OwnEntries(bad)[2] == Prop("error", Num(123));
  }

  /** After `defineType("Foo", …)`, `test(value, "Foo & {error:string}")`
      accepts Foo's properties with a string `error` and refuses a numeric
      one. */
  lemma FooIntersection(copy: Copy, s: RegistryState, stack: nat)
    requires stack > 2
    requires "string" in JustInTime(s).tests && JustInTime(s).tests["string"] == Prim(StringType)
    requires "boolean" in JustInTime(s).tests && JustInTime(s).tests["boolean"] == Prim(BooleanType)
    ensures var r := DefineType(copy, s, "Foo", PropertyTypes(FooEntries));
      && r.1 == Pass
      && Test(copy, r.0, Obj([Prop("value", Str("hello")), Prop("ready", Bool(false)), Prop("error", Str("Test error"))]),
              "Foo & {error:string}", stack).1 == Ok(true)
      && Test(copy, r.0, Obj([Prop("value", Str("hello")), Prop("ready", Bool(false)), Prop("error", Num(123))]),
              "Foo & {error:string}", stack).1 == Ok(false)
  {
    FooCompiles(JustInTime(s).tests);
    var s2 := DefineTypeTest(JustInTime(s), "Foo", Shape(FooProps));
    assert DefineType(copy, s, "Foo", PropertyTypes(FooEntries)) == (s2, Pass);
    assert JustInTime(s2) == s2;
    assert s2.tests["string"] == Prim(StringType);
    FooAndErrorCompiles(s2.tests);
    FooAndErrorAccepts(copy, s2.tests, stack);
  }

  /** The defaults provide those two entries. */
  lemma DefaultsHoldStringAndBoolean(s: RegistryState)
    requires !s.defaultsDefined
    ensures "string" in DefineDefaults(s).tests && DefineDefaults(s).tests["string"] == Prim(StringType)
    ensures "boolean" in DefineDefaults(s).tests && DefineDefaults(s).tests["boolean"] == Prim(BooleanType)
  {
    DefineDefaultsKeepsOthers(s, "string");
    DefineDefaultsKeepsOthers(s, "boolean");
  }
}

/** `TypeUtils`' registry as the object it is in the source: the map and the
    flags are fields that the operations change in place. */
module TypeRegistry {
  import opened Wrappers
  import opened JsValues
  import opened TypeModel
  import opened TypeCompiler
  import opened TypeEvaluator
  import Spec = RegistrySpec

  class Registry {
    /** Which copy of `TypeUtils` this registry belongs to. */
    const copy: Copy
    var tests: Tests
    var defaultsDefined: bool
    var justInTime: bool

    function State(): Spec.RegistryState
      reads this
    {
      Spec.RegistryState(tests, defaultsDefined, justInTime)
    }

    /** The state when the module is loaded. */
    constructor (copy: Copy)
      ensures this.copy == copy
      ensures State() == Spec.Initial
    {
      this.copy := copy;
      tests := map[];
      defaultsDefined := false;
      justInTime := true;
    }

    /** `_defineTypeTest(name, test)`. */
    method DefineTypeTest(name: string, t: CompiledTest)
      modifies this
      ensures tests == old(tests)[name := t]
      ensures defaultsDefined == old(defaultsDefined) && justInTime == old(justInTime)
    {
      tests := tests[name := t];
    }

    /** `_defineAliasType(name, target)`. */
    method DefineAliasType(name: string, target: string) returns (o: Outcome<Spec.ApiError>)
      modifies this
      ensures Spec.DefineAlias(old(State()), name, target) == if o.Pass? then Ok(State()) else Err(o.error)
      ensures target in old(tests) ==> o == Pass && tests == old(tests)[name := AliasOf(target)]
      ensures target !in old(tests) ==> o.Fail? && tests == old(tests)
      ensures defaultsDefined == old(defaultsDefined) && justInTime == old(justInTime)
    {
      if target !in tests {
        return Fail(Spec.MissingAliasTarget(name, target));
      }
      tests := tests[name := AliasOf(target)];
      o := Pass;
    }

    /** `defineDefaults()`: the basic types, then the aliases of the
        capitalised names, then the flag. */
    method DefineDefaults()
      modifies this
      ensures State() == Spec.DefineDefaults(old(State()))
    {
      if defaultsDefined {
        return;
      }
      tests := Spec.WithDefaults(tests);
      Spec.DefaultTestsInOrder(old(tests));
      defaultsDefined := true;
    }

    /** `setDefineDefaultsJustInTime(value)`. */
    method SetDefineDefaultsJustInTime(value: Value)
      modifies this
      ensures State() == Spec.SetDefineDefaultsJustInTime(old(State()), value)
    {
      justInTime := Truthy(value);
    }

    /** `resetInitialState()`: the keys are listed first and then deleted
        one by one. */
    method ResetInitialState()
      modifies this
      ensures State() == Spec.ResetInitialState(old(State()))
    {
      if !defaultsDefined {
        return;
      }
      var keys := tests.Keys;
      while keys != {}
        invariant tests.Keys == keys
        invariant defaultsDefined && justInTime == old(justInTime)
        decreases |keys|
      {
        var k :| k in keys;
        tests := tests - {k};
        keys := keys - {k};
      }
      assert tests == map[];
      defaultsDefined := false;
    }

    /** The first statement of `test`, `assert` and `defineType`. */
    method DefineDefaultsJustInTime()
      modifies this
      ensures State() == Spec.JustInTime(old(State()))
    {
      if justInTime && !defaultsDefined {
        DefineDefaults();
      }
    }

    /** `defineType(name, type)`; a plain object's property types are
        compiled key by key into a new property map. */
    method DefineType(name: string, def: Spec.Definition) returns (o: Outcome<Spec.ApiError>)
      modifies this
      ensures (State(), o) == Spec.DefineType(copy, old(State()), name, def)
    {
      DefineDefaultsJustInTime();
      match def
      case TypeString(text) =>
        var c := Compile(text, tests);
        if c.Err? {
          return Fail(Spec.CompileFailed(c.error));
        }
        DefineTypeTest(name, c.value);
        o := Pass;
      case TestFunction(f) =>
        if copy == RootCopy {
          return Fail(Spec.UnknownDefinition);
        }
        DefineTypeTest(name, UserFn(f));
        o := Pass;
      case PropertyTypes(entries) =>
        var props := CompilePropertyTypes(entries);
        if props.Err? {
          return Fail(Spec.CompileFailed(props.error));
        }
        DefineTypeTest(name, Shape(props.value));
        o := Pass;
      case OtherDefinition =>
        o := Fail(Spec.UnknownDefinition);
    }

    /** The `forEach` of `defineType` over a plain object: each property's
        type string compiled in key order into a new property map. */
    method CompilePropertyTypes(entries: seq<(string, string)>) returns (r: Result<map<string, CompiledTest>, CompileError>)
      ensures r == Spec.CompileDefinitions(entries, tests)
    {
      var props: map<string, CompiledTest> := map[];
      var i := 0;
      while i < |entries|
        invariant 0 <= i <= |entries|
        invariant Spec.CompileDefinitions(entries[..i], tests) == Ok(props)
      {
        assert entries[..i + 1][..i] == entries[..i];
        var c := Compile(entries[i].1, tests);
        if c.Err? {
          Spec.CompileDefinitionsStops(entries, tests, i + 1);
          return Err(c.error);
        }
        props := props[entries[i].0 := c.value];
        i := i + 1;
      }
      assert entries[..i] == entries;
      r := Ok(props);
    }

    /** `test(value, type)`, with `stack` frames of the host's call stack left. */
    method Test(v: Value, typeString: string, stack: nat) returns (r: Result<bool, Spec.ApiError>)
      modifies this
      ensures (State(), r) == Spec.Test(copy, old(State()), v, typeString, stack)
    {
      DefineDefaultsJustInTime();
      var c := Compile(typeString, tests);
      if c.Err? {
        return Err(Spec.CompileFailed(c.error));
      }
      var result := Call(copy, tests, c.value, v, stack);
      r := Ok(result.value);
    }

    /** `assert(value, type)`. */
    method Assert(v: Value, typeString: string, stack: nat) returns (o: Outcome<Spec.ApiError>)
      modifies this
      ensures (State(), o) == Spec.Assert(copy, old(State()), v, typeString, stack)
    {
      DefineDefaultsJustInTime();
      var c := Compile(typeString, tests);
      if c.Err? {
        return Fail(Spec.CompileFailed(c.error));
      }
      var result := Call(copy, tests, c.value, v, stack);
      if !result.value {
        return Fail(Spec.AssertionFailed(Spec.AssertionDescription(result)));
      }
      o := Pass;
    }
  }

}
