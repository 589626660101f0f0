/**
 * `HTTPError` (src/HttpError.js): an error whose constructor takes its
 * status code, message and headers in any order, telling them apart by
 * kind, and the user-defined table of factories that `create` consults.
 */
module HttpErrors {
  import opened Wrappers
  import opened JsStrings
  import opened JsValues

  /** `HTTP.STATUS_CODES`: the reason phrase Node knows for a status code. */
  type StatusCodes = int -> Option<string>

  /** A factory registered in `HTTPError.codes`, called with `(code, msg, headers)`. */
  type Factory = (Value, Value, Value) -> Value

  /** An `HTTPError` as its constructor leaves it. */
  datatype HttpError = HttpError(code: int, message: string, headers: Value)

  /** The three kinds of constructor argument. An argument can be of at most
      one kind: objects, strings and numbers are disjoint. */
  datatype ArgKind = HeadersArg | MessageArg | CodeArg

  predicate OfKind(a: Value, k: ArgKind) {
    match k
    case HeadersArg => IsObject(a)
    case MessageArg => a.Str?
    case CodeArg => IsNumber(a)
  }

  /** The value the constructor's `forEach` leaves in the local variable of
      that kind: the last argument of the kind. */
  function LastOfKind(args: seq<Value>, k: ArgKind): (r: Option<Value>)
    ensures r.None? <==> forall i :: 0 <= i < |args| ==> !OfKind(args[i], k)
    ensures r.Some? ==> OfKind(r.value, k) && r.value in args
  {
    if args == [] then None
    else if OfKind(args[|args| - 1], k) then Some(args[|args| - 1])
    else LastOfKind(args[..|args| - 1], k)
  }

  /** An argument of the kind with none of the kind after it. */
  predicate IsLastOfKind(args: seq<Value>, k: ArgKind, i: int) {
    0 <= i < |args| && OfKind(args[i], k) && forall j :: i < j < |args| ==> !OfKind(args[j], k)
  }

  /** What `LastOfKind` finds is the argument at such a position. */
  lemma {:induction false} LastOfKindWitness(args: seq<Value>, k: ArgKind)
    requires LastOfKind(args, k).Some?
    ensures exists i :: IsLastOfKind(args, k, i) && args[i] == LastOfKind(args, k).value
  {
    var n := |args| - 1;
    if OfKind(args[n], k) {
      assert IsLastOfKind(args, k, n);
    } else {
      var front := args[..n];
      assert LastOfKind(args, k) == LastOfKind(front, k);
      LastOfKindWitness(front, k);
      var i :| IsLastOfKind(front, k, i) && front[i] == LastOfKind(front, k).value;
      assert args[i] == front[i];
      forall j | i < j < |args|
        ensures !OfKind(args[j], k)
      {
        if j < n {
          assert args[j] == front[j];
        }
      }
      assert IsLastOfKind(args, k, i);
    }
  }

  /** The arguments of one kind, in order. */
  function OfKindOnly(args: seq<Value>, k: ArgKind): (r: seq<Value>)
    ensures |r| <= |args|
    ensures forall i :: 0 <= i < |r| ==> OfKind(r[i], k)
  {
    if args == [] then []
    else OfKindOnly(args[..|args| - 1], k) + (if OfKind(args[|args| - 1], k) then [args[|args| - 1]] else [])
  }

  /** `HTTP.STATUS_CODES[code]` as text: an unknown code reads "undefined". */
  function StatusText(statusCodes: StatusCodes, code: int): string {
    match statusCodes(code)
    case Some(text) => text
    case None => "undefined"
  }

  /** `new HTTPError(...args)`: `code || 500`, `msg || code + " " +
      STATUS_CODES[code]`, `headers || {}`. Zero and NaN are falsy codes,
      the empty string a falsy message. */
  function Construct(args: seq<Value>, statusCodes: StatusCodes): (e: HttpError)
    ensures e.code != 0
    ensures e.message != ""
    ensures IsObject(e.headers)
  {
    var code := match LastOfKind(args, CodeArg)
      case Some(Num(n)) => if n != 0 then n else 500
      case _ => 500;
    var message := match LastOfKind(args, MessageArg)
      case Some(Str(s)) => if s != "" then s else IntToString(code) + " " + StatusText(statusCodes, code)
      case _ => IntToString(code) + " " + StatusText(statusCodes, code);
    var headers := match LastOfKind(args, HeadersArg)
      case Some(h) => h
      case None => Obj([]);
    HttpError(code, message, headers)
  }

  /** The constructor: one pass over the arguments, each kept in the local
      of its kind, then the defaults. */
  method NewHttpError(args: seq<Value>, statusCodes: StatusCodes) returns (e: HttpError)
    ensures e == Construct(args, statusCodes)
  {
    var headers: Option<Value> := None;
    var msg: Option<Value> := None;
    var code: Option<Value> := None;
    var i := 0;
    while i < |args|
      invariant 0 <= i <= |args|
      invariant headers == LastOfKind(args[..i], HeadersArg)
      invariant msg == LastOfKind(args[..i], MessageArg)
      invariant code == LastOfKind(args[..i], CodeArg)
    {
      var arg := args[i];
      assert args[..i + 1][..i] == args[..i];
      if IsObject(arg) {
        headers := Some(arg);
      }
      if arg.Str? {
        msg := Some(arg);
      }
      if IsNumber(arg) {
        code := Some(arg);
      }
      i := i + 1;
    }
    assert args[..i] == args;
    var c := if code.Some? && code.value.Num? && code.value.n != 0 then code.value.n else 500;
    var m := if msg.Some? && msg.value.Str? && msg.value.s != "" then msg.value.s
      else IntToString(c) + " " + StatusText(statusCodes, c);
    var h := if headers.Some? then headers.value else Obj([]);
    e := HttpError(c, m, h);
  }

  /** The `name` getter. */
  function Name(e: HttpError): string {
    "HTTP Error"
  }

  /** A property key of `HTTPError.codes`: the text a value converts to, a
      symbol, which is its own key, or, for a function, a date or an array,
      whose text this model does not compute, the value itself. */
  datatype PropertyKey = TextKey(text: string) | SymbolKey(id: nat) | OpaqueKey(v: Value)

  /** The key `HTTPError.codes[code]` reads: `code` converted to a property
      key, as JavaScript does for every member access on a plain object. */
  function CodeKey(code: Value): (k: PropertyKey)
    ensures k.OpaqueKey? <==> code.Func? || code.DateV? || code.Arr?
  {
    match code
    case Undefined => TextKey("undefined")
    case Null => TextKey("null")
    case Bool(b) => TextKey(if b then "true" else "false")
    case Num(n) => TextKey(IntToString(n))
    case NaN => TextKey("NaN")
    case Str(s) => TextKey(s)
    case Sym(id) => SymbolKey(id)
    case PromiseV(_) => TextKey("[object Promise]")
    case Obj(_) => TextKey("[object Object]")
    case _ => OpaqueKey(code)
  }

  /** A value that is not a function. */
  type NonFunction = v: Value | !v.Func? witness Undefined

  /** What `HTTPError.codes` holds under a key: a factory, or any other value
      assigned there. */
  datatype CodeEntry = Callable(f: Factory) | Stored(value: NonFunction)

  /** What `create` returns: a registered factory's truthy result, a new
      `HTTPError`, or the TypeError of calling a truthy entry that is not a
      function. */
  datatype Created = Custom(value: Value) | Standard(error: HttpError) | Thrown(thrown: JsError)

  /** `HTTPError.create(code, msg, headers)`, with `codes` the table
      `HTTPError.codes` holds at the time, keyed by property key. */
  function Create(codes: map<PropertyKey, CodeEntry>, statusCodes: StatusCodes, code: Value, msg: Value, headers: Value): (r: Created)
    ensures var k := CodeKey(code);
      && (r.Custom? <==> k in codes && codes[k].Callable? && Truthy(codes[k].f(code, msg, headers)))
      && (r.Custom? ==> r.value == codes[k].f(code, msg, headers))
      && (r.Thrown? <==> k in codes && codes[k].Stored? && Truthy(codes[k].value))
      && (r.Standard? ==> r.error == Construct([code, msg, headers], statusCodes))
  {
    var k := CodeKey(code);
    var standard := Standard(Construct([code, msg, headers], statusCodes));
    if k !in codes then standard
    else
      match codes[k]
      case Callable(f) =>
        var v := f(code, msg, headers);
        if Truthy(v) then Custom(v) else standard
      case Stored(v) =>
        if Truthy(v) then Thrown(TypeError("HTTPError.codes[code] is not a function")) else standard
  }

  /** A number and its decimal text read the same entry of `HTTPError.codes`,
      so `create(404)` and `create("404")` reach the same factory. */
  lemma NumberAndTextShareKey(n: int)
    ensures CodeKey(Num(n)) == CodeKey(Str(IntToString(n)))
  {
  }

  /** Distinct numbers read distinct entries. */
  lemma DistinctNumbersDistinctKeys(m: int, n: int)
    requires m != n
    ensures CodeKey(Num(m)) != CodeKey(Num(n))
  {
    ParseIntRoundTrip(m);
    ParseIntRoundTrip(n);
  }

  /** `create` consults only the entry under the code's key: two tables that
      agree there create alike. */
  lemma CreateReadsOneEntry(codes: map<PropertyKey, CodeEntry>, codes': map<PropertyKey, CodeEntry>,
                            statusCodes: StatusCodes, code: Value, msg: Value, headers: Value)
    requires CodeKey(code) in codes <==> CodeKey(code) in codes'
    requires CodeKey(code) in codes ==> codes[CodeKey(code)] == codes'[CodeKey(code)]
    ensures Create(codes, statusCodes, code, msg, headers) == Create(codes', statusCodes, code, msg, headers)
  {
  }

  // ---------------------------------------------------------------------
  // Properties of the constructor.
  // ---------------------------------------------------------------------

  /** The last argument of a kind is the last of the arguments of that kind. */
  lemma {:induction false} LastOfKindOnly(args: seq<Value>, k: ArgKind)
    ensures var f := OfKindOnly(args, k);
      LastOfKind(args, k) == if f == [] then None else Some(f[|f| - 1])
  {
    if args != [] {
      LastOfKindOnly(args[..|args| - 1], k);
    }
  }

  /** The order of the arguments matters only within a kind: two argument
      lists with the same numbers, the same strings and the same objects, each
      in the same order, construct the same error. */
  lemma ArgumentOrder(args: seq<Value>, args': seq<Value>, statusCodes: StatusCodes)
    requires OfKindOnly(args, HeadersArg) == OfKindOnly(args', HeadersArg)
    requires OfKindOnly(args, MessageArg) == OfKindOnly(args', MessageArg)
    requires OfKindOnly(args, CodeArg) == OfKindOnly(args', CodeArg)
    ensures Construct(args, statusCodes) == Construct(args', statusCodes)
  {
    LastOfKindOnly(args, HeadersArg);
    LastOfKindOnly(args', HeadersArg);
    LastOfKindOnly(args, MessageArg);
    LastOfKindOnly(args', MessageArg);
    LastOfKindOnly(args, CodeArg);
    LastOfKindOnly(args', CodeArg);
  }

  /** The code is the last number argument unless that is 0 or NaN; without
      one it is 500. */
  lemma CodeIsLastNumber(args: seq<Value>, statusCodes: StatusCodes, i: nat)
    requires i < |args| && forall j :: i < j < |args| ==> !IsNumber(args[j])
    ensures args[i].Num? && args[i].n != 0 ==> Construct(args, statusCodes).code == args[i].n
    ensures args[i].Num? && args[i].n == 0 ==> Construct(args, statusCodes).code == 500
    ensures args[i].NaN? ==> Construct(args, statusCodes).code == 500
  {
    if IsNumber(args[i]) {
      assert LastOfKind(args, CodeArg) == Some(args[i]) by {
        LastOfKindAt(args, CodeArg, i);
      }
    }
  }

  /** Without a number argument the code is 500, and without a non-empty
      string argument the message is the code and its reason phrase. */
  lemma Defaults(args: seq<Value>, statusCodes: StatusCodes)
    ensures (forall i :: 0 <= i < |args| ==> !IsNumber(args[i])) ==> Construct(args, statusCodes).code == 500
    ensures (forall i :: 0 <= i < |args| ==> !args[i].Str? || args[i].s == "") ==>
      var e := Construct(args, statusCodes);
      e.message == IntToString(e.code) + " " + StatusText(statusCodes, e.code)
    ensures (forall i :: 0 <= i < |args| ==> !IsObject(args[i])) ==> Construct(args, statusCodes).headers == Obj([])
  {
  }

  /** The message is the last string argument when that is not empty, and the
      headers the last object argument. */
  lemma MessageAndHeaders(args: seq<Value>, statusCodes: StatusCodes, i: nat)
    requires i < |args|
    ensures args[i].Str? && args[i].s != "" && (forall j :: i < j < |args| ==> !args[j].Str?) ==>
      Construct(args, statusCodes).message == args[i].s
    ensures IsObject(args[i]) && (forall j :: i < j < |args| ==> !IsObject(args[j])) ==>
      Construct(args, statusCodes).headers == args[i]
  {
    if args[i].Str? && forall j :: i < j < |args| ==> !args[j].Str? {
      LastOfKindAt(args, MessageArg, i);
    }
    if IsObject(args[i]) && forall j :: i < j < |args| ==> !IsObject(args[j]) {
      LastOfKindAt(args, HeadersArg, i);
    }
  }

  /** An argument of the kind with none of the kind after it is the last. */
  lemma LastOfKindAt(args: seq<Value>, k: ArgKind, i: nat)
    requires i < |args| && OfKind(args[i], k)
    requires forall j :: i < j < |args| ==> !OfKind(args[j], k)
    ensures LastOfKind(args, k) == Some(args[i])
  {
    assert LastOfKind(args, k).Some?;
    LastOfKindWitness(args, k);
    var i' :| IsLastOfKind(args, k, i') && args[i'] == LastOfKind(args, k).value;
    assert i' == i;
  }

  /** `new HTTPError(404)`: a code alone gets its reason phrase. */
  lemma CodeAlone(statusCodes: StatusCodes, n: int)
    requires n != 0
    ensures Construct([Num(n)], statusCodes) == HttpError(n, IntToString(n) + " " + StatusText(statusCodes, n), Obj([]))
  {
    assert LastOfKind([Num(n)], CodeArg) == Some(Num(n));
    assert LastOfKind([Num(n)], MessageArg) == None;
    assert LastOfKind([Num(n)], HeadersArg) == None;
  }

  /** `new HTTPError("Not Found", 404)` and `new HTTPError(404, "Not
      Found")` give the same error. */
  lemma CodeAndMessage(statusCodes: StatusCodes, n: int, s: string)
    requires n != 0 && s != ""
    ensures Construct([Str(s), Num(n)], statusCodes) == HttpError(n, s, Obj([]))
    ensures Construct([Num(n), Str(s)], statusCodes) == HttpError(n, s, Obj([]))
  {
    MessageThenCode(statusCodes, n, s);
    CodeThenMessage(statusCodes, n, s);
  }

  lemma MessageThenCode(statusCodes: StatusCodes, n: int, s: string)
    requires n != 0 && s != ""
    ensures Construct([Str(s), Num(n)], statusCodes) == HttpError(n, s, Obj([]))
  {
    var args := [Str(s), Num(n)];
    assert LastOfKind(args, CodeArg) == Some(Num(n));
    LastOfKindAt(args, MessageArg, 0);
    assert LastOfKind(args, HeadersArg) == None;
  }

  lemma CodeThenMessage(statusCodes: StatusCodes, n: int, s: string)
    requires n != 0 && s != ""
    ensures Construct([Num(n), Str(s)], statusCodes) == HttpError(n, s, Obj([]))
  {
    var args := [Num(n), Str(s)];
    LastOfKindAt(args, CodeArg, 0);
    assert LastOfKind(args, MessageArg) == Some(Str(s));
    assert LastOfKind(args, HeadersArg) == None;
  }
}
