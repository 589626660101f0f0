/**
 * JavaScript values as the utilities see them, and the lodash and
 * built-in queries they apply to values (`_.isObject`, truthiness,
 * `_.keys`, `hasOwnProperty`, `parseInt`).
 */
module JsValues {
  import opened Wrappers
  import opened JsStrings

  /** A JavaScript value. Numbers are integral or NaN; an object lists its own
      enumerable properties in the order `_.keys` reports them. */
  datatype Value =
    | Undefined
    | Null
    | Bool(b: bool)
    | Num(n: int)
    | NaN
    | Str(s: string)
    | Sym(id: nat)
    | Func(id: nat)
    | DateV(time: int)
    | PromiseV(id: nat)
    | Arr(items: seq<Value>)
    | Obj(props: seq<Prop>)

  datatype Prop = Prop(key: string, val: Value)

  /** The built-in errors the utilities throw. */
  datatype JsError = TypeError(message: string) | ReferenceError(message: string)

  /** lodash `_.isObject`: every value whose `typeof` is "object" or
      "function", except null. */
  predicate IsObject(v: Value) {
    v.Func? || v.DateV? || v.PromiseV? || v.Arr? || v.Obj?
  }

  /** lodash `_.isPlainObject`. */
  predicate IsPlainObject(v: Value) {
    v.Obj?
  }

  /** lodash `_.isNumber`: NaN is a number. */
  predicate IsNumber(v: Value) {
    v.Num? || v.NaN?
  }

  /** JavaScript's ToBoolean. */
  predicate Truthy(v: Value) {
    match v
    case Undefined => false
    case Null => false
    case Bool(b) => b
    case Num(n) => n != 0
    case NaN => false
    case Str(s) => s != ""
    case _ => true
  }

  function KeysOf(props: seq<Prop>): (ks: seq<string>)
    ensures |ks| == |props|
    ensures forall i :: 0 <= i < |props| ==> ks[i] == props[i].key
  {
    seq(|props|, i requires 0 <= i < |props| => props[i].key)
  }

  predicate DistinctKeys(props: seq<Prop>) {
    forall i, j :: 0 <= i < j < |props| ==> props[i].key != props[j].key
  }

  /** The array-index text of position `i` (`String(i)`). */
  function IndexKey(i: nat): string {
    NatToString(i)
  }

  /** lodash `_.keys(v)` paired with `v[key]`, for the objects it is applied
      to: a plain object's own properties, an array's indices; functions,
      dates and promises have no own enumerable properties. */
  function OwnEntries(v: Value): (es: seq<Prop>)
    ensures v.Obj? ==> es == v.props
    ensures v.Arr? ==> |es| == |v.items|
    ensures v.Arr? ==> forall i :: 0 <= i < |es| ==> es[i] == Prop(IndexKey(i), v.items[i])
  {
    match v
    case Obj(props) => props
    case Arr(items) => seq(|items|, i requires 0 <= i < |items| => Prop(IndexKey(i), items[i]))
    case _ => []
  }

  /** `obj[k]` for an own property: the value of the first entry named `k`. */
  function Lookup(props: seq<Prop>, k: string): (r: Option<Value>)
    ensures r.None? <==> k !in KeysOf(props)
    ensures r.Some? ==> Prop(k, r.value) in props
  {
    if props == [] then None
    else if props[0].key == k then Some(props[0].val)
    else
      assert KeysOf(props) == [props[0].key] + KeysOf(props[1..]);
      Lookup(props[1..], k)
  }

  /** `obj[k] = v` on a plain object: an existing property keeps its place,
      a new one is appended. */
  function SetProp(props: seq<Prop>, k: string, v: Value): (r: seq<Prop>)
    ensures KeysOf(r) == if k in KeysOf(props) then KeysOf(props) else KeysOf(props) + [k]
  {
    if props == [] then [Prop(k, v)]
    else if props[0].key == k then [Prop(k, v)] + props[1..]
    else
      assert KeysOf(props) == [props[0].key] + KeysOf(props[1..]);
      var tail := SetProp(props[1..], k, v);
      var r := [props[0]] + tail;
      assert KeysOf(r) == [props[0].key] + KeysOf(tail);
      r
  }

  /** After `obj[k] = v`, `obj[k]` is `v` and every other property is as before. */
  lemma {:induction false} SetPropLookup(props: seq<Prop>, k: string, v: Value, k': string)
    ensures Lookup(SetProp(props, k, v), k') == if k' == k then Some(v) else Lookup(props, k')
  {
    if props != [] && props[0].key != k {
      SetPropLookup(props[1..], k, v, k');
    }
  }

  /** Assignment keeps property names distinct. */
  lemma SetPropDistinct(props: seq<Prop>, k: string, v: Value)
    requires DistinctKeys(props)
    ensures DistinctKeys(SetProp(props, k, v))
  {
    var r := SetProp(props, k, v);
    var ks := KeysOf(props);
    forall i, j | 0 <= i < j < |r| ensures r[i].key != r[j].key {
      assert KeysOf(r)[i] == r[i].key && KeysOf(r)[j] == r[j].key;
      if k !in ks && j == |props| {
        assert r[i].key == ks[i];
      } else {
        assert ks[i] == r[i].key && ks[j] == r[j].key;
      }
    }
  }

  /** A canonical array index below `n`: the text `String(i)` of some `i < n`. */
  predicate IsIndexKey(name: string, n: nat) {
    && |name| >= 1 && AllDigits(name)
    && (|name| == 1 || name[0] != '0')
    && DecimalValue(name) < n
  }

  /** `Object.prototype.hasOwnProperty.call(v, name)`. */
  function HasOwn(v: Value, name: string): (r: Result<bool, JsError>)
    ensures r.Err? <==> v.Undefined? || v.Null?
    ensures v.Obj? ==> r == Ok(name in KeysOf(v.props))
  {
    match v
    case Undefined => Err(TypeError("Cannot convert undefined or null to object"))
    case Null => Err(TypeError("Cannot convert undefined or null to object"))
    case Obj(props) => Ok(name in KeysOf(props))
    case Arr(items) => Ok(name == "length" || IsIndexKey(name, |items|))
    case Str(s) => Ok(name == "length" || IsIndexKey(name, |s|))
    case Func(_) => Ok(name == "length" || name == "name")
    case _ => Ok(false)
  }

  /** The longest prefix of decimal digits. */
  function DigitPrefix(s: string): (d: string)
    ensures |d| <= |s| && d == s[..|d|] && AllDigits(d)
    ensures |d| < |s| ==> !IsDigit(s[|d|])
  {
    if |s| > 0 && IsDigit(s[0]) then [s[0]] + DigitPrefix(s[1..]) else []
  }

  /** `parseInt(s, 10)`: leading white space and one sign are skipped, then
      the longest run of decimal digits is read; no digits gives NaN. */
  function ParseInt(s: string): (r: Value)
    ensures r.Num? || r.NaN?
  {
    var t := TrimStart(s);
    var negative := |t| > 0 && t[0] == '-';
    var body := if |t| > 0 && (t[0] == '-' || t[0] == '+') then t[1..] else t;
    var digits := DigitPrefix(body);
    if digits == [] then NaN
    else if negative then Num(0 - DecimalValue(digits))
    else Num(DecimalValue(digits))
  }

  lemma DigitPrefixOfDigits(s: string)
    requires AllDigits(s)
    ensures DigitPrefix(s) == s
  {
  }

  /** A non-empty string of decimal digits parses to its base-10 value. */
  lemma ParseIntOfDigits(s: string)
    requires |s| >= 1 && AllDigits(s)
    ensures ParseInt(s) == Num(DecimalValue(s))
  {
    assert IsDigit(s[0]);
    assert !IsWhitespace(s[0]) && s[0] != '-' && s[0] != '+';
    TrimStartOfTrimmed(s);
    DigitPrefixOfDigits(s);
  }

  /** `parseInt(String(i), 10) == i` for every integral number. */
  lemma ParseIntRoundTrip(i: int)
    ensures ParseInt(IntToString(i)) == Num(i)
  {
    NatToStringRoundTrip(if i < 0 then -i else i);
    var s := IntToString(i);
    TrimStartOfTrimmed(s);
    if i < 0 {
      assert s[1..] == NatToString(-i);
      DigitPrefixOfDigits(NatToString(-i));
    } else {
      ParseIntOfDigits(s);
    }
  }

  /** `v[key]` for an own property `HasOwn` reports: a plain object's entry,
      an array's or a string's element or its length; anything else reads as
      undefined. */
  function GetOwn(v: Value, key: string): (r: Value)
    ensures HasOwn(v, key) == Ok(true) && v.Obj? ==> Some(r) == Lookup(v.props, key)
    ensures HasOwn(v, key) == Ok(false) && (v.Obj? || v.Arr? || v.Str?) ==> r == Undefined
  {
    match v
    case Obj(props) => if key in KeysOf(props) then Lookup(props, key).value else Undefined
    case Arr(items) =>
      if key == "length" then Num(|items|)
      else if IsIndexKey(key, |items|) then items[DecimalValue(key)]
      else Undefined
    case Str(s) =>
      if key == "length" then Num(|s|)
      else if IsIndexKey(key, |s|) then Str([s[DecimalValue(key)]])
      else Undefined
    case _ => Undefined
  }
}
