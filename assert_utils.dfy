/**
 * `AssertUtils` (src/AssertUtils.js): validators that return nothing when
 * their condition holds and throw a TypeError when it fails. None of them
 * changes anything, so each is a function from its arguments to an
 * `Outcome`.
 */
module AssertUtils {
  import opened Wrappers
  import V = JsValues

  type Value = V.Value
  type JsError = V.JsError

  /** Pass when `ok`, else the TypeError with `message`. */
  function Check(ok: bool, message: string): (r: Outcome<JsError>)
    ensures r.Pass? <==> ok
    ensures r.Fail? ==> r.error == V.TypeError(message)
  {
    if ok then Pass else Fail(V.TypeError(message))
  }

  function IsString(value: Value): (r: Outcome<JsError>)
    ensures r.Pass? <==> value.Str?
    ensures r.Fail? ==> r.error.TypeError?
  {
    Check(value.Str?, "AssertUtils.isString(value): value is not a string")
  }

  function IsUndefined(value: Value): (r: Outcome<JsError>)
    ensures r.Pass? <==> value.Undefined?
    ensures r.Fail? ==> r.error.TypeError?
  {
    Check(value.Undefined?, "AssertUtils.isUndefined(value): value is not undefined")
  }

  function IsDefined(value: Value): (r: Outcome<JsError>)
    ensures r.Pass? <==> !value.Undefined?
    ensures r.Fail? ==> r.error.TypeError?
  {
    Check(!value.Undefined?, "AssertUtils.isDefined(value): value was not defined")
  }

  /** lodash `_.isNumber`: NaN passes. */
  function IsNumber(value: Value): (r: Outcome<JsError>)
    ensures r.Pass? <==> value.Num? || value.NaN?
    ensures r.Fail? ==> r.error.TypeError?
  {
    Check(V.IsNumber(value), "AssertUtils.isNumber(value): value is not a number")
  }

  function IsBoolean(value: Value): (r: Outcome<JsError>)
    ensures r.Pass? <==> value.Bool?
    ensures r.Fail? ==> r.error.TypeError?
  {
    Check(value.Bool?, "AssertUtils.isBoolean(value): value is not a boolean")
  }

  function IsFunction(value: Value): (r: Outcome<JsError>)
    ensures r.Pass? <==> value.Func?
    ensures r.Fail? ==> r.error.TypeError?
  {
    Check(value.Func?, "AssertUtils.isFunction(value): value is not a function")
  }

  /** lodash `_.isObject`: arrays, functions, dates and promises pass too. */
  function IsObjectOrArray(value: Value): (r: Outcome<JsError>)
    ensures r.Pass? <==> value.Obj? || value.Arr? || value.Func? || value.DateV? || value.PromiseV?
    ensures r.Fail? ==> r.error.TypeError?
  {
    Check(V.IsObject(value), "AssertUtils.isObjectOrArray(value): value is not a object or array")
  }

  /** `_.isObject` but not `_.isArray`. */
  function IsObject(value: Value): (r: Outcome<JsError>)
    ensures r.Pass? <==> value.Obj? || value.Func? || value.DateV? || value.PromiseV?
    ensures r.Fail? ==> r.error.TypeError?
  {
    Check(V.IsObject(value) && !value.Arr?, "AssertUtils.isObject(value): value is not a object")
  }

  function IsArray(value: Value): (r: Outcome<JsError>)
    ensures r.Pass? <==> value.Arr?
    ensures r.Fail? ==> r.error.TypeError?
  {
    Check(value.Arr?, "AssertUtils.isArray(value): value is not an array")
  }

  /** `isStringPattern(value, pattern)`: `pattern` is `Some(test)` for a
      regular expression whose `test` method is `test`, `None` for anything
      else. */
  function IsStringPattern(value: Value, pattern: Option<string -> bool>): (r: Outcome<JsError>)
    ensures r.Pass? <==> value.Str? && pattern.Some? && pattern.value(value.s)
    ensures r.Fail? ==> r.error.TypeError?
  {
    Check(value.Str? && pattern.Some? && pattern.value(value.s),
      "AssertUtils.isStringPattern(value, pattern): value didn't match the pattern")
  }

  function IsCallable(value: Value): (r: Outcome<JsError>)
    ensures r.Pass? <==> value.Func?
    ensures r.Fail? ==> r.error.TypeError?
  {
    Check(value.Func?, "AssertUtils.isCallable(value): value is not callable")
  }

  /** Plain objects, arrays and dates are compared by identity, which a
      value of the model does not carry. */
  predicate ByIdentity(v: Value) {
    v.Obj? || v.Arr? || v.DateV?
  }

  /** `a === b`. `sameObject(a, b)` says whether two plain objects, arrays or
      dates are one object; functions, promises and symbols carry their
      identity in the model. NaN equals nothing, itself included. */
  predicate StrictEquals(a: Value, b: Value, sameObject: (Value, Value) -> bool) {
    if ByIdentity(a) && ByIdentity(b) then sameObject(a, b)
    else if ByIdentity(a) || ByIdentity(b) then false
    else a == b && !a.NaN?
  }

  /** `isEqual(value, testValue)`: throws iff `value !== testValue`. */
  function IsEqual(value: Value, testValue: Value, sameObject: (Value, Value) -> bool): (r: Outcome<JsError>)
    ensures r.Pass? <==> StrictEquals(value, testValue, sameObject)
    ensures r.Fail? ==> r.error.TypeError?
  {
    Check(StrictEquals(value, testValue, sameObject), "AssertUtils.isEqual(value): value did not equal")
  }

  // ---------------------------------------------------------------------
  // How the validators relate.
  // ---------------------------------------------------------------------

  /** Exactly one of `isDefined` and `isUndefined` passes. */
  lemma DefinedOrUndefined(value: Value)
    ensures IsDefined(value).Pass? != IsUndefined(value).Pass?
  {
  }

  /** `isObjectOrArray` passes exactly when `isObject` or `isArray` does,
      and never both. */
  lemma ObjectOrArray(value: Value)
    ensures IsObjectOrArray(value).Pass? <==> IsObject(value).Pass? || IsArray(value).Pass?
    ensures !(IsObject(value).Pass? && IsArray(value).Pass?)
  {
  }

  /** `isCallable` accepts what `isFunction` accepts; only their messages
      differ. */
  lemma CallableIsFunction(value: Value)
    ensures IsCallable(value).Pass? <==> IsFunction(value).Pass?
  {
  }

  /** Strict equality between primitives is equality of the values, except
      that NaN differs from itself; it is symmetric when object identity is. */
  lemma StrictEqualsProperties(a: Value, b: Value, sameObject: (Value, Value) -> bool)
    ensures !ByIdentity(a) && !a.NaN? ==> IsEqual(a, a, sameObject).Pass?
    ensures IsEqual(V.NaN, V.NaN, sameObject).Fail?
    ensures (forall x, y :: sameObject(x, y) == sameObject(y, x)) ==>
      IsEqual(a, b, sameObject).Pass? == IsEqual(b, a, sameObject).Pass?
    ensures V.IsNumber(a) && b.Str? ==> IsEqual(a, b, sameObject).Fail?
  {
  }

  /** A value passes at most one of `isString`, `isNumber`, `isBoolean`,
      `isFunction`, `isArray` and `isUndefined`. */
  lemma KindsAreDisjoint(value: Value)
    ensures var passes := [IsString(value).Pass?, IsNumber(value).Pass?, IsBoolean(value).Pass?,
                           IsFunction(value).Pass?, IsArray(value).Pass?, IsUndefined(value).Pass?];
      forall i, j :: 0 <= i < j < |passes| && passes[i] ==> !passes[j]
  {
  }
}
