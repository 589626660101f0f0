/**
 * `HttpUtils` (src/HttpUtils.js): how a listening configuration is told
 * apart as a port or a socket, the labels printed for it, how a request url
 * is normalised and how `routeRequest` picks a route or throws an
 * `HTTPError`.
 */
module HttpUtils {
  import opened Wrappers
  import opened JsStrings
  import opened JsValues
  import opened HttpErrors

  // ---------------------------------------------------------------------
  // Ports and sockets.
  // ---------------------------------------------------------------------

  /** `isPort`: every number, and every string that starts with a decimal
      digit. */
  predicate IsPort(v: Value) {
    IsNumber(v) || (v.Str? && |v.s| >= 1 && IsDigit(v.s[0]))
  }

  /** `isSocket`: a string starting with `.`. */
  predicate IsSocket(v: Value) {
    v.Str? && |v.s| >= 1 && v.s[0] == '.'
  }

  /** No configuration is both a port and a socket. */
  lemma PortOrSocket(v: Value)
    ensures !(IsPort(v) && IsSocket(v))
  {
  }

  /** `getPort`: a number as it is, a string through `parseInt(value, 10)`,
      anything else a TypeError. */
  function GetPort(v: Value): (r: Result<Value, JsError>)
    ensures r.Ok? <==> IsNumber(v) || v.Str?
    ensures r.Ok? ==> IsNumber(r.value)
    ensures IsNumber(v) ==> r == Ok(v)
    ensures r.Err? ==> r.error.TypeError?
  {
    if IsNumber(v) then Ok(v)
    else if !v.Str? then Err(TypeError("HttpUtils.getPort(value): Not a string"))
    else Ok(ParseInt(v.s))
  }

  /** A string port is read up to its first non-digit: "8080" is 8080 and
      "3000abc" is 3000; a string port is never NaN. */
  lemma {:induction false} GetPortOfString(s: string)
    requires IsPort(Str(s))
    ensures GetPort(Str(s)) == Ok(Num(DecimalValue(DigitPrefix(s))))
    ensures AllDigits(s) ==> GetPort(Str(s)) == Ok(Num(DecimalValue(s)))
  {
    assert !IsWhitespace(s[0]) && s[0] != '-' && s[0] != '+';
    TrimStartOfTrimmed(s);
    if AllDigits(s) {
      DigitPrefixOfDigits(s);
    }
  }

  /** A number printed as text is a port, and `getPort` reads it back. */
  lemma PrintedPort(n: nat)
    ensures IsPort(Str(NatToString(n)))
    ensures GetPort(Str(NatToString(n))) == Ok(Num(n))
  {
    ParseIntRoundTrip(n);
  }

  /** `getSocket`: a string as it is, anything else a TypeError. */
  function GetSocket(v: Value): (r: Result<string, JsError>)
    ensures r.Ok? <==> v.Str?
    ensures r.Ok? ==> r.value == v.s
    ensures r.Err? ==> r.error.TypeError?
  {
    if !v.Str? then Err(TypeError("HttpUtils.getSocket(value): Not a string")) else Ok(v.s)
  }

  /** `${value}` for a number or a string. */
  function PortText(v: Value): string
    requires IsNumber(v) || v.Str?
  {
    match v
    case Num(n) => IntToString(n)
    case NaN => "NaN"
    case Str(s) => s
  }

  /** `getPortLabel`. */
  function GetPortLabel(value: string): (r: string)
    ensures StartsWith(r, "localhost:") && r[|"localhost:"|..] == value
  {
    "localhost:" + value
  }

  /** `getSocketLabel`. */
  function GetSocketLabel(value: string): (r: string)
    ensures StartsWith(r, "socket:") && r[|"socket:"|..] == value
  {
    "socket:" + value
  }

  /** `getLabel`: the port label for a port, else the socket label for a
      socket, else the value itself. */
  function GetLabel(v: Value): (r: Value)
    ensures IsPort(v) ==> r == Str(GetPortLabel(PortText(v)))
    ensures IsSocket(v) ==> r == Str(GetSocketLabel(v.s))
    ensures !IsPort(v) && !IsSocket(v) ==> r == v
  {
    if IsPort(v) then Str(GetPortLabel(PortText(v)))
    else if IsSocket(v) then Str(GetSocketLabel(v.s))
    else v
  }

  // ---------------------------------------------------------------------
  // Requests.
  // ---------------------------------------------------------------------

  /** A run of `/` from position `p` to the end of `t`: where `/\/+$/` can
      match. */
  predicate SlashRunFrom(t: string, p: int) {
    0 <= p < |t| && forall i :: p <= i < |t| ==> t[i] == '/'
  }

  /** `t` without its trailing run of `/`. */
  function TrimTrailingSlashes(t: string): (r: string)
    ensures |r| <= |t| && r == t[..|r|]
    ensures |r| == 0 || r[|r| - 1] != '/'
    ensures forall i :: |r| <= i < |t| ==> t[i] == '/'
  {
    if t != [] && t[|t| - 1] == '/' then TrimTrailingSlashes(t[..|t| - 1]) else t
  }

  /** `getUrl`: the regex `/\/+$/` replaced by "/" in the url with a "/"
      appended. The regex matches at the first position from which only
      slashes follow, and there always is one. */
  function GetUrl(url: string): (r: string)
    ensures |r| >= 1 && SlashRunFrom(url + "/", |r| - 1)
    ensures forall q :: 0 <= q < |r| - 1 ==> !SlashRunFrom(url + "/", q)
    ensures r == (url + "/")[..|r| - 1] + "/"
  {
    var t := url + "/";
    var kept := TrimTrailingSlashes(t);
    assert |kept| < |t|;
    kept + "/"
  }

  /** The normalised url ends in exactly one `/`. */
  lemma GetUrlEndsInOneSlash(url: string)
    ensures var r := GetUrl(url); r[|r| - 1] == '/' && (|r| == 1 || r[|r| - 2] != '/')
  {
  }

  /** A url that does not end in `/` only gains one. */
  lemma GetUrlAppends(url: string)
    requires url == [] || url[|url| - 1] != '/'
    ensures GetUrl(url) == url + "/"
  {
    assert (url + "/")[..|url|] == url;
  }

  /** Normalising twice is normalising once, and trailing slashes make no
      difference. */
  lemma GetUrlIdempotent(url: string)
    ensures GetUrl(GetUrl(url)) == GetUrl(url)
    ensures GetUrl(url + "/") == GetUrl(url)
  {
    var r := GetUrl(url);
    assert r + "/" == (r[..|r| - 1] + "/") + "/";
    var t := url + "/";
    var t' := url + "/" + "/";
    assert TrimTrailingSlashes(t') == TrimTrailingSlashes(t) by {
      assert t'[..|t'| - 1] == t;
    }
  }

  /** The normalised url starts with `/` exactly when the url is empty or
      starts with `/`. */
  lemma GetUrlRooted(url: string)
    ensures GetUrl(url)[0] == '/' <==> url == [] || url[0] == '/'
  {
    var r := GetUrl(url);
    if url != [] && url[0] != '/' {
      assert !SlashRunFrom(url + "/", 0);
      assert (url + "/")[0] == url[0];
    }
  }

  /** `{url, method}` as `getRequestAction` builds it and `routeRequest`
      takes it apart. */
  datatype RequestAction = RequestAction(url: string, verb: string)

  /** `getRequestAction`: the request's url normalised by `getUrl` and its
      method passed through by `getMethod`. The url of the action ends in
      exactly one `/` and is rooted exactly when the request's url is. */
  function GetRequestAction(url: string, verb: string): (r: RequestAction)
    ensures r.verb == verb
    ensures r.url != [] && r.url[|r.url| - 1] == '/' && (|r.url| == 1 || r.url[|r.url| - 2] != '/')
    ensures r.url[0] == '/' <==> url == [] || url[0] == '/'
  {
    GetUrlEndsInOneSlash(url);
    GetUrlRooted(url);
    RequestAction(GetUrl(url), verb)
  }

  /** The request methods `routeRequest` accepts. */
  const Methods: set<string> := {"GET", "HEAD", "POST", "PUT", "DELETE", "CONNECT", "OPTIONS", "TRACE", "PATCH"}

  /** A key lodash may read as a path of several steps. */
  predicate IsDeepPath(key: string) {
    '.' in key || '[' in key
  }

  /** lodash `_.has(v, key)` for a key that is a single step: false for null
      and undefined, else whether `key` is an own property. */
  predicate HasKey(v: Value, key: string) {
    HasOwn(v, key) == Ok(true)
  }

  /** lodash `_.has(table, url)`. A url that is a property of the table is
      read as one step; one that is not, and contains `.` or `[`, is read as a
      path, and `hasPath` answers for it; a null or undefined table holds no
      path. No inherited property name starts with `/`, so for a rooted url
      "a property" means an own one. */
  predicate Found(table: Value, url: string, hasPath: (Value, string) -> bool) {
    HasKey(table, url) || (IsDeepPath(url) && !table.Null? && !table.Undefined? && hasPath(table, url))
  }

  /** `routeRequest({url, method}, routes, ...args)`. `invoke(f, args)` is
      the route function's result; `hasPath(v, key)` is lodash `_.has` for a
      url it reads as a path of several steps. */
  function RouteRequest(url: string, verb: string, routes: Value, args: seq<Value>,
                        invoke: (Value, seq<Value>) -> Value, hasPath: (Value, string) -> bool): (r: Result<Value, HttpError>)
    ensures r.Err? && r.error.code == 405 <==> verb !in Methods || !HasKey(routes, verb)
    ensures r.Err? && r.error.code == 405 ==> r.error == HttpError(405, "Method not allowed: \"" + verb + "\"", Obj([]))
    ensures r.Err? && r.error.code == 404 <==>
      verb in Methods && HasKey(routes, verb) &&
      (url == [] || url[0] != '/' ||
       !Found(GetOwn(routes, verb), url, hasPath))
    ensures r.Err? && r.error.code == 404 ==> r.error == HttpError(404, "Not Found: \"" + url + "\"", Obj([]))
    ensures r.Err? ==> r.error.code == 405 || r.error.code == 404
    ensures r.Ok? ==> var route := GetOwn(GetOwn(routes, verb), url);
      r.value == if route.Func? then invoke(route, args) else route
  {
    if verb !in Methods || !HasKey(routes, verb) then
      Err(HttpError(405, "Method not allowed: \"" + verb + "\"", Obj([])))
    else if url == [] || url[0] != '/' then
      Err(HttpError(404, "Not Found: \"" + url + "\"", Obj([])))
    else
      var table := GetOwn(routes, verb);
      if !Found(table, url, hasPath) then Err(HttpError(404, "Not Found: \"" + url + "\"", Obj([])))
      else
        var route := GetOwn(table, url);
        if route.Func? then Ok(invoke(route, args)) else Ok(route)
  }

  /** The errors `routeRequest` throws are the ones `new HttpError(code,
      message)` builds, whatever the status code table. */
  lemma RouteErrorsAreHttpErrors(url: string, verb: string, routes: Value, args: seq<Value>,
                                 invoke: (Value, seq<Value>) -> Value, hasPath: (Value, string) -> bool,
                                 statusCodes: StatusCodes)
    ensures var r := RouteRequest(url, verb, routes, args, invoke, hasPath);
      r.Err? ==> r.error == Construct([Num(r.error.code), Str(r.error.message)], statusCodes)
  {
    var r := RouteRequest(url, verb, routes, args, invoke, hasPath);
    if r.Err? {
      CodeThenMessage(statusCodes, r.error.code, r.error.message);
    }
  }

  /** A method whose routes are null or undefined finds no url, whatever
      `hasPath` says: lodash `_.has` is false on them. */
  lemma NullishTableNotFound(url: string, verb: string, routes: Value, args: seq<Value>,
                             invoke: (Value, seq<Value>) -> Value, hasPath: (Value, string) -> bool)
    requires verb in Methods && HasKey(routes, verb)
    requires GetOwn(routes, verb).Null? || GetOwn(routes, verb).Undefined?
    ensures var r := RouteRequest(url, verb, routes, args, invoke, hasPath);
      r.Err? && r.error.code == 404
  {
    assert !Found(GetOwn(routes, verb), url, hasPath);
  }

  /** A route table as a plain object: the method's table holds the route
      under the request's normalised url. Routing a request whose url is
      empty or rooted then reaches that route. */
  lemma RouteNormalisedUrl(url: string, verb: string, table: seq<Prop>, route: Value, args: seq<Value>,
                           invoke: (Value, seq<Value>) -> Value, hasPath: (Value, string) -> bool)
    requires verb in Methods
    requires url == [] || url[0] == '/'
    requires Lookup(table, GetUrl(url)) == Some(route)
    ensures RouteRequest(GetUrl(url), verb, Obj([Prop(verb, Obj(table))]), args, invoke, hasPath)
      == Ok(if route.Func? then invoke(route, args) else route)
  {
    GetUrlRooted(url);
    var routes := Obj([Prop(verb, Obj(table))]);
    assert KeysOf(routes.props) == [verb];
    assert GetOwn(routes, verb) == Obj(table);
    assert Found(Obj(table), GetUrl(url), hasPath);
  }
}
