/**
 * The data of the runtime type checker `TypeUtils` (both the copy in
 * src/TypeUtils.js and the older root TypeUtils.js): compiled tests, the raw
 * outcome of calling one, and the `TestResult` records it is normalised to.
 */
module TypeModel {
  import opened Wrappers
  import opened JsValues

  /** The built-in tests that `defineDefaults` registers under a lower-case name. */
  datatype Primitive =
    | StringType | NumberType | BooleanType | UndefinedType | NullType | SymbolType
    | FunctionType | DateType | ArrayType | ObjectType | PromiseType

  /** What a test function can throw while it runs. */
  datatype Thrown =
    | NotAFunction          // calling a plain object or `undefined` (a TypeError)
    | StackExhausted        // the host's call stack ran out (a RangeError)
    | UserError(message: string)  // thrown by a test function handed to `defineType`

  /** Why a test failed. The source renders these as text that embeds the
      tested value and the type string; here only the kind and the key remain. */
  datatype Description =
    | ItemFailed                   // "One in … failed to test as …"
    | ObjectFailed                 // "Object … failed to test as …"
    | PropertyNotDefined(key: string)  // "Property … was not defined in …"
    | PropertyFailed(key: string)      // "Property … failed test in …"
    | DidNotMatch                  // "Value … did not match …"
    | TestFunctionFailed(error: Thrown)  // "Test function failed with: …"
    | Text(text: string)           // a description returned by a user test function

  /** `{value, description?, failed?}`. */
  datatype TestResult = TestResult(value: bool, description: Option<Description>, failed: Option<seq<TestResult>>)

  /** What calling a test function gives before `_callTestFunction` normalises it:
      a boolean, a `TestResult` record, or an exception. */
  datatype Raw = Returned(b: bool) | ReturnedResult(result: TestResult) | Threw(error: Thrown)

  /** A compiled test: the function or plain object that `_compileTestFunction`
      returns and that the registry `TESTS` stores. */
  datatype CompiledTest =
    | Prim(kind: Primitive)                    // `value => _.isString(value)` and the like
    | Wildcard                                 // `() => true`, compiled from `*`
    | UserFn(f: Value -> Raw)                  // a function handed to `defineType`
    | AliasOf(target: string)                  // `value => TESTS[target](value)`
    | AnyOf(tests: seq<CompiledTest>)          // `value => _testOr(value, tests, type)`
    | AllOf(tests: seq<CompiledTest>)          // `value => _testIntersection(value, tests, type)`
    | ArrayOf(item: CompiledTest)              // `value => _.isArray(value) && _everyArrayItemResult(…)`
    | MapOf(key: CompiledTest, val: CompiledTest)  // `value => _.isObject(value) && _everyObjectItemResult(…)`
    | Shape(props: map<string, CompiledTest>)  // a plain object of property tests

  /** The registry `TESTS`: compiled tests by type name. */
  type Tests = map<string, CompiledTest>

  /** `TypeUtils.isPromise`: a truthy value whose `then` is a function. */
  predicate IsPromise(v: Value) {
    && Truthy(v)
    && (v.PromiseV? || (v.Obj? && Lookup(v.props, "then").Some? && Lookup(v.props, "then").value.Func?))
  }

  /** The predicates registered by `defineDefaults`. */
  predicate PrimHolds(kind: Primitive, v: Value) {
    match kind
    case StringType => v.Str?
    case NumberType => IsNumber(v)
    case BooleanType => v.Bool?
    case UndefinedType => v.Undefined?
    case NullType => v.Null?
    case SymbolType => v.Sym?
    case FunctionType => v.Func?
    case DateType => v.DateV?
    case ArrayType => v.Arr?
    case ObjectType => IsObject(v)
    case PromiseType => IsPromise(v)
  }

  /** `_getResultValue` applied to what a test function returned. */
  predicate RawValue(raw: Raw) {
    match raw
    case Returned(b) => b
    case ReturnedResult(r) => r.value
    case Threw(_) => false
  }

  /** The `catch` handler and the boolean normalisation of `_callTestFunction`. */
  function Normalize(raw: Raw): (r: TestResult)
    ensures r.value == RawValue(raw)
    ensures raw.Returned? ==> r.description.None? && r.failed.None?
    ensures raw.ReturnedResult? ==> r == raw.result
    ensures raw.Threw? ==> r.description == Some(TestFunctionFailed(raw.error)) && r.failed.None?
  {
    match raw
    case Returned(b) => TestResult(b, None, None)
    case ReturnedResult(r) => r
    case Threw(e) => TestResult(false, Some(TestFunctionFailed(e)), None)
  }
}
