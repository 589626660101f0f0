/**
 * `_compileTestFunction` of src/TypeUtils.js (the root TypeUtils.js has the
 * same text): recursive descent over a JSDoc-style type string that returns a
 * compiled test or throws a TypeError. It reads the registry and changes nothing.
 */
module TypeCompiler {
  import opened Wrappers
  import opened JsStrings
  import opened TypeModel

  /** `TypeError('Type definition for "…" was unknown.')`. */
  datatype CompileError = UnknownType(typeName: string)

  /** The `<…>` argument of `array<T>`, `object<K,V>` and `promise<T>`: the text
      after the `n`-character keyword, past one optional `.`, when it starts
      with `<` and ends with `>`; the trimmed text between them. */
  function GenericArgument(t: string, n: nat): (r: Option<string>)
    requires n <= |t|
    ensures r.Some? ==> |r.value| + 2 <= |t| - n
  {
    var rest := AfterKeyword(t, n);
    if StartsWith(rest, "<") && EndsWith(rest, ">") then
      DelimitedLength(rest, '<', '>');
      Some(Trim(rest[1..|rest| - 1]))
    else None
  }

  /** The trimmed text after the `n`-character keyword, past one optional `.`. */
  function AfterKeyword(t: string, n: nat): (rest: string)
    requires n <= |t|
    ensures |rest| <= |t| - n
  {
    SkipDot(Trim(t[n..]))
  }

  /** Past one optional leading `.`, trimmed again. */
  function SkipDot(rest: string): (r: string)
    ensures |r| <= |rest|
  {
    if rest != [] && rest[0] == '.' then Trim(rest[1..]) else rest
  }

  /** A string that starts with one character and ends with a different one
      has at least two characters. */
  lemma DelimitedLength(s: string, open: char, close: char)
    requires open != close
    requires StartsWith(s, [open]) && EndsWith(s, [close])
    ensures |s| >= 2
  {
    assert s[0] == s[..1][0] == open;
    assert s[|s| - 1] == s[|s| - 1..][0] == close;
  }

  predicate StartsWithEither(t: string, lower: string, upper: string) {
    StartsWith(t, lower) || StartsWith(t, upper)
  }

  /** One entry of a `{key:type, …}` literal: `key:type`, or a bare key whose
      type is `*`. */
  function PropertyPart(part: string): (kv: (string, string))
    ensures |kv.1| <= |part| || kv.1 == "*"
  {
    var i := IndexOf(part, ':');
    if i >= 0 then (Trim(part[..i]), Trim(part[i + 1..])) else (part, "*")
  }

  /** A part splits at its first `:`. */
  lemma PropertyPartAt(part: string, k: nat)
    requires k < |part| && part[k] == ':' && ':' !in part[..k]
    ensures PropertyPart(part) == (Trim(part[..k]), Trim(part[k + 1..]))
  {
    IndexOfAt(part, ':', k);
  }

  /** `parts.map(i => this._compileTestFunction(i))`: the first error escapes. */
  function CompileAll(parts: seq<string>, tests: Tests, ghost bound: nat): (r: Result<seq<CompiledTest>, CompileError>)
    requires forall i :: 0 <= i < |parts| ==> |parts[i]| < bound
    ensures r.Ok? ==> |r.value| == |parts|
    decreases bound, 0, |parts|
  {
    if parts == [] then Ok([])
    else
      match Compile(parts[0], tests)
      case Err(e) => Err(e)
      case Ok(c) =>
        match CompileAll(parts[1..], tests, bound)
        case Err(e) => Err(e)
        case Ok(cs) => Ok([c] + cs)
  }

  /** The `_.forEach(parts, …)` of the object literal case: each part's type is
      compiled in order into `propertyTestFunctions[key]`, a repeated key
      overwriting the earlier one. */
  function CompileProperties(parts: seq<string>, tests: Tests, acc: map<string, CompiledTest>, ghost bound: nat)
    : (r: Result<map<string, CompiledTest>, CompileError>)
    requires bound > 1
    requires forall i :: 0 <= i < |parts| ==> |parts[i]| < bound
    decreases bound, 0, |parts|
  {
    if parts == [] then Ok(acc)
    else
      var kv := PropertyPart(parts[0]);
      assert |kv.1| < bound by {
        assert |parts[0]| < bound;
        assert |"*"| == 1;
      }
      BoundedTail(parts, bound);
      match Compile(kv.1, tests)
      case Err(e) => Err(e)
      case Ok(c) => CompileProperties(parts[1..], tests, acc[kv.0 := c], bound)
  }

  lemma BoundedTail(parts: seq<string>, bound: nat)
    requires parts != [] && forall i :: 0 <= i < |parts| ==> |parts[i]| < bound
    ensures forall i :: 0 <= i < |parts[1..]| ==> |parts[1..][i]| < bound
  {
    forall i | 0 <= i < |parts[1..]|
      ensures |parts[1..][i]| < bound
    {
      assert parts[1..][i] == parts[i + 1];
    }
  }

  /** The trimmed pieces of `_.split(rest, ",").map(i => _.trim(i))`. */
  function TrimmedParts(s: string, sep: char): (parts: seq<string>)
    ensures |parts| == |Split(s, sep)|
    ensures forall i :: 0 <= i < |parts| ==> parts[i] == Trim(Split(s, sep)[i])
    ensures forall i :: 0 <= i < |parts| ==> |parts[i]| <= |s|
  {
    var raw := Split(s, sep);
    seq(|raw|, i requires 0 <= i < |raw| => Trim(raw[i]))
  }

  /** `_compileTestFunction(type)`: the type string is trimmed first. */
  function Compile(typeString: string, tests: Tests): (r: Result<CompiledTest, CompileError>)
    decreases |typeString|, 5
  {
    CompileTrimmed(Trim(typeString), tests)
  }

  /** The cases of `_compileTestFunction` on the trimmed string, in the
      source's order; the first that applies decides. Unions and
      intersections come first and split on every `|` or `&`, even one
      inside `<…>` or `{…}`. */
  function CompileTrimmed(t: string, tests: Tests): (r: Result<CompiledTest, CompileError>)
    decreases |t|, 4
  {
    if '|' in t then
      match CompileAll(Split(t, '|'), tests, |t|)
      case Err(e) => Err(e)
      case Ok(cs) => Ok(AnyOf(cs))
    else if '&' in t then
      match CompileAll(Split(t, '&'), tests, |t|)
      case Err(e) => Err(e)
      case Ok(cs) => Ok(AllOf(cs))
    else
      CompileOperand(t, tests)
  }

  /** Next: the wildcard and the two array forms. */
  function CompileOperand(t: string, tests: Tests): (r: Result<CompiledTest, CompileError>)
    decreases |t|, 3
  {
    if t == "*" then
      Ok(Wildcard)
    else if IsArrayGeneric(t) then
      match Compile(GenericArgument(t, 5).value, tests)
      case Err(e) => Err(e)
      case Ok(c) => Ok(ArrayOf(c))
    else if EndsWith(t, "[]") then
      match Compile(t[..|t| - 2], tests)
      case Err(e) => Err(e)
      case Ok(c) => Ok(ArrayOf(c))
    else
      CompileObjectForms(t, tests)
  }

  /** Next: `object<K,V>`, `{}` and `{key:type, …}`. */
  function CompileObjectForms(t: string, tests: Tests): (r: Result<CompiledTest, CompileError>)
    decreases |t|, 2
  {
    if IsObjectGeneric(t) then
      CompileMapOf(t, tests)
    else if t == "{}" then
      Ok(Shape(map[]))
    else if IsObjectLiteral(t) then
      CompileObjectLiteral(t, tests)
    else
      CompileNamed(t, tests)
  }

  /** Last: `promise<T>`, whose `T` is not checked (the test is the one
      named `Promise`), then the registry, then the TypeError. */
  function CompileNamed(t: string, tests: Tests): (r: Result<CompiledTest, CompileError>)
    decreases |t|, 1
  {
    if IsPromiseGeneric(t) then
      Compile("Promise", tests)
    else if t in tests then
      Ok(tests[t])
    else
      Err(UnknownType(t))
  }

  /** `array<T>`, `Array<T>`, `array.<T>`, `Array.<T>`. */
  predicate IsArrayGeneric(t: string) {
    StartsWithEither(t, "array", "Array") && GenericArgument(t, 5).Some?
  }

  /** `object<K,V>` and its variants; without a `,` the case does not apply. */
  predicate IsObjectGeneric(t: string) {
    StartsWithEither(t, "object", "Object") && GenericArgument(t, 6).Some?
    && ',' in GenericArgument(t, 6).value
  }

  /** `promise<T>` and its variants. */
  predicate IsPromiseGeneric(t: string) {
    StartsWithEither(t, "promise", "Promise") && GenericArgument(t, 7).Some?
  }

  /** `{key:type, …}`. */
  predicate IsObjectLiteral(t: string) {
    StartsWith(t, "{") && EndsWith(t, "}")
  }

  /** The key type is the text before the first `,` and the value type the
      text after it; the key type is compiled first. */
  function CompileMapOf(t: string, tests: Tests): (r: Result<CompiledTest, CompileError>)
    requires IsObjectGeneric(t)
    decreases |t|, 0
  {
    var rest := GenericArgument(t, 6).value;
    var index := IndexOf(rest, ',');
    match Compile(Trim(rest[..index]), tests)
    case Err(e) => Err(e)
    case Ok(k) =>
      match Compile(Trim(rest[index + 1..]), tests)
      case Err(e) => Err(e)
      case Ok(v) => Ok(MapOf(k, v))
  }

  function CompileObjectLiteral(t: string, tests: Tests): (r: Result<CompiledTest, CompileError>)
    requires IsObjectLiteral(t)
    decreases |t|, 0
  {
    DelimitedLength(t, '{', '}');
    var rest := Trim(t[1..|t| - 1]);
    match CompileProperties(TrimmedParts(rest, ','), tests, map[], |t|)
    case Err(e) => Err(e)
    case Ok(props) => Ok(Shape(props))
  }

  /** Where the `<…>` argument was found, the type string holds a `<`. */
  lemma GenericArgumentOpens(t: string, n: nat)
    ensures n <= |t| && GenericArgument(t, n).Some? ==> '<' in t
  {
    if n <= |t| && GenericArgument(t, n).Some? {
      var rest := AfterKeyword(t, n);
      StartsWithFirst(rest, "<");
      assert rest[0] == '<';
      AfterKeywordInside(t, n, '<');
    }
  }

  /** Every character after the keyword comes from the type string. */
  lemma AfterKeywordInside(t: string, n: nat, c: char)
    requires n <= |t| && c in AfterKeyword(t, n)
    ensures c in t
  {
    var rest := Trim(t[n..]);
    if rest != [] && rest[0] == '.' {
      TrimInside(rest[1..], c);
      InSuffix(rest, 1, c);
    }
    TrimInside(t[n..], c);
    InSuffix(t, n, c);
  }

  /** A character of a suffix is a character of the whole. */
  lemma InSuffix(s: string, k: nat, c: char)
    requires k <= |s| && c in s[k..]
    ensures c in s
  {
    var i :| 0 <= i < |s[k..]| && s[k..][i] == c;
    assert s[k + i] == c;
  }

  /** Where the `<…>` argument was found, a trimmed type string ends with `>`. */
  lemma GenericArgumentCloses(t: string, n: nat)
    ensures n <= |t| && GenericArgument(t, n).Some? && NoEdgeWhitespace(t) ==> t[|t| - 1] == '>'
  {
    if n <= |t| && GenericArgument(t, n).Some? && NoEdgeWhitespace(t) {
      var rest := AfterKeyword(t, n);
      assert EndsWith(rest, ">");
      assert n < |t|;
      EndsWithLast(rest, ">");
      assert rest != [] && rest[|rest| - 1] == '>';
      AfterKeywordLast(t, n);
    }
  }

  /** Trimming keeps a last character that is not white space, so what
      follows the keyword, when anything does, ends where the type string
      ends. */
  lemma {:induction false} AfterKeywordLast(t: string, n: nat)
    requires n < |t| && !IsWhitespace(t[|t| - 1])
    ensures var after := AfterKeyword(t, n);
      after == [] || after[|after| - 1] == t[|t| - 1]
  {
    SkipDotTrimLast(t, n);
  }

  /** Trimming a non-empty suffix, then skipping a `.`, keeps a last
      character that is not white space. */
  lemma SkipDotTrimLast(t: string, n: nat)
    requires n < |t| && !IsWhitespace(t[|t| - 1])
    ensures var r := SkipDot(Trim(t[n..])); r == [] || r[|r| - 1] == t[|t| - 1]
  {
    var s := t[n..];
    assert s[|s| - 1] == t[|t| - 1];
    TrimKeepsLast(s);
    DotTailLast(Trim(s));
  }

  /** Past a leading `.`, trimming again keeps the last character. */
  lemma DotTailLast(rest: string)
    requires rest != [] && !IsWhitespace(rest[|rest| - 1])
    ensures SkipDot(rest) == [] || SkipDot(rest)[|SkipDot(rest)| - 1] == rest[|rest| - 1]
  {
    if |rest| == 1 {
      assert rest[1..] == [];
      TrimEmpty();
    } else {
      TrimSuffixLast(rest, 1);
    }
  }

  /** Trimming a non-empty suffix of a string whose last character is not
      white space keeps that last character. */
  lemma TrimSuffixLast(s: string, k: nat)
    requires k < |s| && !IsWhitespace(s[|s| - 1])
    ensures Trim(s[k..]) != [] && Trim(s[k..])[|Trim(s[k..])| - 1] == s[|s| - 1]
  {
    assert s[k..][|s[k..]| - 1] == s[|s| - 1];
    TrimKeepsLast(s[k..]);
  }

  /** Compiling trims first, so surrounding white space never matters. */
  lemma CompileIgnoresEdgeWhitespace(s: string, tests: Tests)
    ensures Compile(Trim(s), tests) == Compile(s, tests)
  {
    TrimIdempotent(s);
  }

  /** Every part compiles on its own. */
  predicate AllCompile(parts: seq<string>, tests: Tests) {
    forall i :: 0 <= i < |parts| ==> Compile(parts[i], tests).Ok?
  }

  /** The parts compiled one by one, each on its own. */
  function CompiledParts(parts: seq<string>, tests: Tests): (rs: seq<Result<CompiledTest, CompileError>>)
    ensures |rs| == |parts|
    ensures forall i :: 0 <= i < |parts| ==> rs[i] == Compile(parts[i], tests)
  {
    seq(|parts|, i requires 0 <= i < |parts| => Compile(parts[i], tests))
  }

  /** What `map` makes of a list of compilations when a failing one throws:
      the first error, or else every compiled test in order. */
  function FirstErrorOrAll(rs: seq<Result<CompiledTest, CompileError>>): (r: Result<seq<CompiledTest>, CompileError>)
    ensures r.Ok? ==> |r.value| == |rs|
  {
    if rs == [] then Ok([])
    else
      match rs[0]
      case Err(e) => Err(e)
      case Ok(c) =>
        match FirstErrorOrAll(rs[1..])
        case Err(e) => Err(e)
        case Ok(cs) => Ok([c] + cs)
  }

  /** The first error or all values: success iff every element succeeded,
      and then the values in order. */
  lemma {:induction false} FirstErrorOrAllOk(rs: seq<Result<CompiledTest, CompileError>>)
    ensures FirstErrorOrAll(rs).Ok? <==> forall i :: 0 <= i < |rs| ==> rs[i].Ok?
    ensures FirstErrorOrAll(rs).Ok? ==> forall i :: 0 <= i < |rs| ==> FirstErrorOrAll(rs).value[i] == rs[i].value
  {
    if rs != [] {
      FirstErrorOrAllOk(rs[1..]);
      assert forall i :: 1 <= i < |rs| ==> rs[i] == rs[1..][i - 1];
    }
  }

  /** On failure, the error is that of the first element that failed. */
  lemma {:induction false} FirstErrorOrAllErr(rs: seq<Result<CompiledTest, CompileError>>)
    requires FirstErrorOrAll(rs).Err?
    ensures exists i :: (0 <= i < |rs| && rs[i] == Err(FirstErrorOrAll(rs).error)
      && forall j :: 0 <= j < i ==> rs[j].Ok?)
  {
    if rs[0].Ok? {
      FirstErrorOrAllErr(rs[1..]);
      var i :| 0 <= i < |rs[1..]| && rs[1..][i] == Err(FirstErrorOrAll(rs[1..]).error)
        && forall j :: 0 <= j < i ==> rs[1..][j].Ok?;
      assert rs[i + 1] == Err(FirstErrorOrAll(rs).error);
      assert forall j :: 1 <= j < i + 1 ==> rs[j] == rs[1..][j - 1];
    }
  }

  /** Compiling a list of parts is compiling each part and keeping the
      first error. */
  lemma {:induction false} CompileAllParts(parts: seq<string>, tests: Tests, bound: nat)
    requires forall i :: 0 <= i < |parts| ==> |parts[i]| < bound
    ensures CompileAll(parts, tests, bound) == FirstErrorOrAll(CompiledParts(parts, tests))
    decreases |parts|
  {
    if parts != [] {
      CompileAllParts(parts[1..], tests, bound);
      assert CompiledParts(parts, tests)[1..] == CompiledParts(parts[1..], tests);
    }
  }

  /** Compiling a list of parts succeeds iff every part compiles, and then
      gives their tests in order. */
  lemma CompileAllSpec(parts: seq<string>, tests: Tests, bound: nat)
    requires forall i :: 0 <= i < |parts| ==> |parts[i]| < bound
    ensures CompileAll(parts, tests, bound).Ok? <==> AllCompile(parts, tests)
    ensures CompileAll(parts, tests, bound).Ok? ==>
      forall i :: 0 <= i < |parts| ==> CompileAll(parts, tests, bound).value[i] == Compile(parts[i], tests).value
  {
    CompileAllParts(parts, tests, bound);
    FirstErrorOrAllOk(CompiledParts(parts, tests));
  }

  /** When compiling a list of parts fails, the error is that of the first
      part that does not compile. */
  lemma CompileAllFirstError(parts: seq<string>, tests: Tests, bound: nat)
    requires forall i :: 0 <= i < |parts| ==> |parts[i]| < bound
    requires CompileAll(parts, tests, bound).Err?
    ensures exists i :: (0 <= i < |parts| && Compile(parts[i], tests) == Err(CompileAll(parts, tests, bound).error)
      && forall j :: 0 <= j < i ==> Compile(parts[j], tests).Ok?)
  {
    CompileAllParts(parts, tests, bound);
    FirstErrorOrAllErr(CompiledParts(parts, tests));
  }

  /** A type string holding `|` is a union of its `|`-separated pieces, split
      naively on every `|`: it compiles iff every piece does. */
  lemma CompileUnion(s: string, tests: Tests)
    requires '|' in Trim(s)
    ensures var parts := Split(Trim(s), '|');
      && (Compile(s, tests).Ok? <==> AllCompile(parts, tests))
      && (Compile(s, tests).Ok? ==>
            && Compile(s, tests).value.AnyOf?
            && |Compile(s, tests).value.tests| == |parts|
            && forall i :: 0 <= i < |parts| ==> Compile(s, tests).value.tests[i] == Compile(parts[i], tests).value)
  {
    var t := Trim(s);
    var parts := Split(t, '|');
    CompileAllSpec(parts, tests, |t|);
    var r := CompileAll(parts, tests, |t|);
    assert Compile(s, tests) == CompileTrimmed(t, tests);
    assert Compile(s, tests).Ok? <==> r.Ok?;
    assert r.Ok? ==> Compile(s, tests).value == AnyOf(r.value);
  }

  /** A type string holding `&` and no `|` is an intersection of its
      `&`-separated pieces: it compiles iff every piece does. */
  lemma CompileIntersection(s: string, tests: Tests)
    requires '|' !in Trim(s) && '&' in Trim(s)
    ensures var parts := Split(Trim(s), '&');
      && (Compile(s, tests).Ok? <==> AllCompile(parts, tests))
      && (Compile(s, tests).Ok? ==>
            && Compile(s, tests).value.AllOf?
            && |Compile(s, tests).value.tests| == |parts|
            && forall i :: 0 <= i < |parts| ==> Compile(s, tests).value.tests[i] == Compile(parts[i], tests).value)
  {
    var t := Trim(s);
    var parts := Split(t, '&');
    CompileAllSpec(parts, tests, |t|);
    var r := CompileAll(parts, tests, |t|);
    assert Compile(s, tests) == CompileTrimmed(t, tests);
    assert Compile(s, tests).Ok? <==> r.Ok?;
    assert r.Ok? ==> Compile(s, tests).value == AllOf(r.value);
  }

  /** A string without any character of the type syntax. */
  predicate PlainName(t: string) {
    forall i :: 0 <= i < |t| ==> t[i] !in "|&*<]{"
  }

  /** An intersection of two operands that compile is the all-of test of
      their two tests. */
  lemma CompileIntersectionOfTwo(s: string, tests: Tests, a: string, b: string)
    requires '|' !in Trim(s) && '&' in Trim(s) && Split(Trim(s), '&') == [a, b]
    requires Compile(a, tests).Ok? && Compile(b, tests).Ok?
    ensures Compile(s, tests) == Ok(AllOf([Compile(a, tests).value, Compile(b, tests).value]))
  {
    AllCompileTwo(a, b, tests);
    CompileIntersection(s, tests);
    var r := Compile(s, tests).value;
    assert r.tests[0] == Compile(a, tests).value && r.tests[1] == Compile(b, tests).value;
    assert r.tests == [Compile(a, tests).value, Compile(b, tests).value];
  }

  /** Two operands that each compile make a list whose every part compiles. */
  lemma AllCompileTwo(a: string, b: string, tests: Tests)
    requires Compile(a, tests).Ok? && Compile(b, tests).Ok?
    ensures AllCompile([a, b], tests)
  {
    var parts := [a, b];
    forall i | 0 <= i < |parts|
      ensures Compile(parts[i], tests).Ok?
    {
      if i == 0 {
        assert parts[i] == a;
      } else {
        assert parts[i] == b;
      }
    }
  }

  /** A plain name is looked up in the registry, and one that is not
      registered is an unknown type. */
  lemma CompilePlainName(s: string, tests: Tests)
    requires PlainName(Trim(s))
    ensures Compile(s, tests) == if Trim(s) in tests then Ok(tests[Trim(s)]) else Err(UnknownType(Trim(s)))
  {
    PlainNameReachesNamed(Trim(s));
    CompileReachesNamed(s, tests);
  }

  /** No case before the registry lookup applies to a plain name: it holds
      none of `|&*<]{`. */
  lemma PlainNameReachesNamed(t: string)
    requires PlainName(t)
    ensures ReachesNamed(t) && !IsPromiseGeneric(t)
  {
    assert '|' !in t && '&' !in t;
    StartsWithFirst(t, "*");
    StartsWithFirst(t, "{");
    EndsWithLast(t, "[]");
    GenericArgumentOpens(t, 5);
    GenericArgumentOpens(t, 6);
    GenericArgumentOpens(t, 7);
  }

  /** `array<T>` and its variants compile to an array test of `T`. */
  lemma CompileArrayGeneric(s: string, tests: Tests)
    requires '|' !in Trim(s) && '&' !in Trim(s) && IsArrayGeneric(Trim(s))
    ensures var item := Compile(GenericArgument(Trim(s), 5).value, tests);
      && (Compile(s, tests).Ok? <==> item.Ok?)
      && (item.Ok? ==> Compile(s, tests).value == ArrayOf(item.value))
  {
    var t := Trim(s);
    StartsWithFirst(t, "array");
    StartsWithFirst(t, "Array");
    assert t != "*";
    assert Compile(s, tests) == CompileTrimmed(t, tests) == CompileOperand(t, tests);
  }

  /** `T[]` compiles to an array test of `T` when the `array<…>` form does
      not apply. */
  lemma CompileArraySuffix(s: string, tests: Tests)
    requires '|' !in Trim(s) && '&' !in Trim(s) && !IsArrayGeneric(Trim(s)) && EndsWith(Trim(s), "[]")
    ensures var item := Compile(Trim(s)[..|Trim(s)| - 2], tests);
      && (Compile(s, tests).Ok? <==> item.Ok?)
      && (item.Ok? ==> Compile(s, tests).value == ArrayOf(item.value))
  {
    var t := Trim(s);
    EndsWithLast(t, "[]");
    assert t != "*";
    assert Compile(s, tests) == CompileTrimmed(t, tests) == CompileOperand(t, tests);
  }

  /** `promise<T>` and its variants compile to whatever `Promise` compiles
      to; `T` is not looked at. */
  lemma CompilePromiseGeneric(s: string, tests: Tests)
    requires '|' !in Trim(s) && '&' !in Trim(s) && IsPromiseGeneric(Trim(s))
    ensures Compile(s, tests) == Compile("Promise", tests)
  {
    TrimShape(s);
    PromiseReachesNamed(Trim(s));
    CompileReachesNamed(s, tests);
  }

  /** No case before `promise<T>` applies to a trimmed `promise<T>`: it
      starts with `p` or `P` and ends with `>`. */
  lemma PromiseReachesNamed(t: string)
    requires '|' !in t && '&' !in t && IsPromiseGeneric(t) && NoEdgeWhitespace(t)
    ensures ReachesNamed(t)
  {
    GenericArgumentCloses(t, 7);
    StartsWithFirst(t, "promise");
    StartsWithFirst(t, "Promise");
    StartsWithFirst(t, "array");
    StartsWithFirst(t, "Array");
    StartsWithFirst(t, "object");
    StartsWithFirst(t, "Object");
    StartsWithFirst(t, "{");
    EndsWithLast(t, "[]");
  }

  /** A trimmed type string that none of the cases before `promise<T>`
      takes. */
  predicate ReachesNamed(t: string) {
    && '|' !in t && '&' !in t && t != "*"
    && !IsArrayGeneric(t) && !EndsWith(t, "[]")
    && !IsObjectGeneric(t) && t != "{}" && !IsObjectLiteral(t)
  }

  /** Such a string reaches the last cases: `promise<T>`, the registry,
      the TypeError. */
  lemma CompileReachesNamed(s: string, tests: Tests)
    requires ReachesNamed(Trim(s))
    ensures Compile(s, tests) == CompileNamed(Trim(s), tests)
  {
    var t := Trim(s);
    assert Compile(s, tests) == CompileTrimmed(t, tests);
    assert CompileOperand(t, tests) == CompileObjectForms(t, tests);
  }

  /** A trimmed `{…}` other than `{}`, with no `|` or `&`, reaches the object
      literal case: it starts with `{`, so no keyword form applies, and ends
      with `}`, so it is not a `T[]`. */
  lemma CompileObjectLiteralReached(s: string, tests: Tests)
    requires IsObjectLiteral(Trim(s)) && '|' !in Trim(s) && '&' !in Trim(s) && Trim(s) != "{}"
    ensures Compile(s, tests) == CompileObjectLiteral(Trim(s), tests)
  {
    var t := Trim(s);
    StartsWithFirst(t, "{");
    assert t[0] == '{';
    StartsWithFirst(t, "array");
    StartsWithFirst(t, "Array");
    StartsWithFirst(t, "object");
    StartsWithFirst(t, "Object");
    assert !StartsWithEither(t, "array", "Array");
    assert !StartsWithEither(t, "object", "Object");
    EndsWithLast(t, "}");
    EndsWithLast(t, "[]");
    assert !EndsWith(t, "[]");
    assert t != "*";
    assert CompileTrimmed(t, tests) == CompileOperand(t, tests);
    assert CompileOperand(t, tests) == CompileObjectForms(t, tests);
  }

  /** An object literal of one `key:type` part compiles to the one-property
      shape of that key, or raises the error of its type. */
  lemma CompileSingleProperty(s: string, tests: Tests, part: string)
    requires IsObjectLiteral(Trim(s)) && '|' !in Trim(s) && '&' !in Trim(s) && Trim(s) != "{}"
    requires TrimmedParts(Trim(Trim(s)[1..|Trim(s)| - 1]), ',') == [part]
    ensures var kv := PropertyPart(part);
      Compile(s, tests) == match Compile(kv.1, tests)
                           case Ok(c) => Ok(Shape(map[kv.0 := c]))
                           case Err(e) => Err(e)
  {
    var t := Trim(s);
    CompileObjectLiteralReached(s, tests);
    var kv := PropertyPart(part);
    var parts := [part];
    StartsWithFirst(t, "{");
    EndsWithLast(t, "}");
    var inner := Trim(t[1..|t| - 1]);
    assert |TrimmedParts(inner, ',')[0]| <= |inner| <= |t| - 2;
    assert forall i :: 0 <= i < |parts| ==> |parts[i]| < |t|;
    assert parts[1..] == [];
    match Compile(kv.1, tests)
    case Ok(c) =>
      assert CompileProperties(parts, tests, map[], |t|) == Ok(map[kv.0 := c]);
    case Err(e) =>
      assert CompileProperties(parts, tests, map[], |t|) == Err(e);
  }

  /** A trimmed `object<K,V>` form, with no `|` or `&`, reaches the map case:
      it starts with `o` or `O`, so neither `*` nor an array form applies, and
      it ends with `>`, so it is not a `T[]`. */
  lemma CompileObjectGenericReached(s: string, tests: Tests)
    requires '|' !in Trim(s) && '&' !in Trim(s) && IsObjectGeneric(Trim(s))
    ensures Compile(s, tests) == CompileMapOf(Trim(s), tests)
  {
    var t := Trim(s);
    TrimShape(s);
    GenericArgumentCloses(t, 6);
    StartsWithFirst(t, "array");
    StartsWithFirst(t, "Array");
    StartsWithFirst(t, "object");
    StartsWithFirst(t, "Object");
    assert t[0] == 'o' || t[0] == 'O';
    assert !StartsWithEither(t, "array", "Array");
    EndsWithLast(t, "[]");
    assert !EndsWith(t, "[]");
    assert t != "*";
    assert CompileTrimmed(t, tests) == CompileOperand(t, tests);
    assert CompileOperand(t, tests) == CompileObjectForms(t, tests);
  }

  /** `object<K,V>`, `Object.<K,V>`: the argument splits at its first `,`; the
      key type's error escapes first, then the value type's, and otherwise the
      test checks every own key against `K` and every own value against `V`. */
  lemma CompileObjectGeneric(s: string, tests: Tests)
    requires '|' !in Trim(s) && '&' !in Trim(s) && IsObjectGeneric(Trim(s))
    ensures var rest := GenericArgument(Trim(s), 6).value;
      var i := IndexOf(rest, ',');
      && 0 <= i < |rest| && rest[i] == ',' && ',' !in rest[..i]
      && var k := Compile(Trim(rest[..i]), tests);
         var v := Compile(Trim(rest[i + 1..]), tests);
         && (k.Err? ==> Compile(s, tests) == Err(k.error))
         && (k.Ok? && v.Err? ==> Compile(s, tests) == Err(v.error))
         && (k.Ok? && v.Ok? ==> Compile(s, tests) == Ok(MapOf(k.value, v.value)))
  {
    CompileObjectGenericReached(s, tests);
  }

  /** The trimmed `key:type` parts between the braces of an object literal. */
  function LiteralParts(t: string): (parts: seq<string>)
    requires IsObjectLiteral(t)
    ensures forall i :: 0 <= i < |parts| ==> |parts[i]| < |t|
  {
    DelimitedLength(t, '{', '}');
    TrimmedParts(Trim(t[1..|t| - 1]), ',')
  }

  /** The key each part declares, in order. */
  function PartKeys(parts: seq<string>): (keys: seq<string>)
    ensures |keys| == |parts|
    ensures forall i :: 0 <= i < |parts| ==> keys[i] == PropertyPart(parts[i]).0
  {
    seq(|parts|, i requires 0 <= i < |parts| => PropertyPart(parts[i]).0)
  }

  /** The compilation of each part's type, in order. */
  function PartResults(parts: seq<string>, tests: Tests): (rs: seq<Result<CompiledTest, CompileError>>)
    ensures |rs| == |parts|
    ensures forall i :: 0 <= i < |parts| ==> rs[i] == Compile(PropertyPart(parts[i]).1, tests)
  {
    seq(|parts|, i requires 0 <= i < |parts| => Compile(PropertyPart(parts[i]).1, tests))
  }

  /** Every part's type compiles. */
  predicate PartTypesCompile(parts: seq<string>, tests: Tests) {
    forall i :: 0 <= i < |parts| ==> Compile(PropertyPart(parts[i]).1, tests).Ok?
  }

  /** Part `i` is the first whose type does not compile. */
  predicate FirstFailingPart(parts: seq<string>, tests: Tests, i: int) {
    && 0 <= i < |parts| && Compile(PropertyPart(parts[i]).1, tests).Err?
    && forall j :: 0 <= j < i ==> Compile(PropertyPart(parts[j]).1, tests).Ok?
  }

  /** The assignments `propertyTestFunctions[key] = …` over already compiled
      results: the first error stops them, a later key overwrites. */
  function Assign(keys: seq<string>, rs: seq<Result<CompiledTest, CompileError>>, acc: map<string, CompiledTest>)
    : (r: Result<map<string, CompiledTest>, CompileError>)
    requires |keys| == |rs|
  {
    if keys == [] then Ok(acc)
    else
      match rs[0]
      case Err(e) => Err(e)
      case Ok(c) => Assign(keys[1..], rs[1..], acc[keys[0] := c])
  }

  /** The `forEach` over the parts is the assignments of their keys and
      compiled types. */
  lemma {:induction false} CompilePropertiesAssign(parts: seq<string>, tests: Tests, acc: map<string, CompiledTest>, bound: nat)
    requires bound > 1 && forall i :: 0 <= i < |parts| ==> |parts[i]| < bound
    ensures CompileProperties(parts, tests, acc, bound) == Assign(PartKeys(parts), PartResults(parts, tests), acc)
    decreases |parts|
  {
    if parts != [] {
      var keys := PartKeys(parts);
      var rs := PartResults(parts, tests);
      BoundedTail(parts, bound);
      assert keys[1..] == PartKeys(parts[1..]);
      assert rs[1..] == PartResults(parts[1..], tests);
      var kv := PropertyPart(parts[0]);
      match rs[0]
      case Err(e) =>
      case Ok(c) =>
        CompilePropertiesAssign(parts[1..], tests, acc[kv.0 := c], bound);
    }
  }

  /** Without an error, the assigned keys are the earlier ones and the new
      ones; each new key holds its last result, an untouched key its earlier
      test. */
  lemma {:induction false} AssignOk(keys: seq<string>, rs: seq<Result<CompiledTest, CompileError>>, acc: map<string, CompiledTest>)
    requires |keys| == |rs| && forall i :: 0 <= i < |rs| ==> rs[i].Ok?
    ensures var r := Assign(keys, rs, acc);
      && r.Ok?
      && (forall k :: k in r.value <==> k in acc || k in keys)
      && (forall k :: k in acc && k !in keys ==> r.value[k] == acc[k])
      && (forall i :: 0 <= i < |keys| && keys[i] !in keys[i + 1..] ==> r.value[keys[i]] == rs[i].value)
    decreases |keys|
  {
    if keys != [] {
      var acc' := acc[keys[0] := rs[0].value];
      AssignOk(keys[1..], rs[1..], acc');
      var r := Assign(keys, rs, acc);
      assert r == Assign(keys[1..], rs[1..], acc');
      assert keys == [keys[0]] + keys[1..];
      forall i | 0 <= i < |keys| && keys[i] !in keys[i + 1..]
        ensures r.value[keys[i]] == rs[i].value
      {
        if i > 0 {
          assert keys[1..][i - 1] == keys[i] && rs[1..][i - 1] == rs[i];
          assert keys[1..][i - 1 + 1..] == keys[i + 1..];
        }
      }
    }
  }

  /** The first error among the results is the one raised. */
  lemma {:induction false} AssignErr(keys: seq<string>, rs: seq<Result<CompiledTest, CompileError>>, acc: map<string, CompiledTest>, i: nat)
    requires |keys| == |rs| && i < |rs| && rs[i].Err? && forall j :: 0 <= j < i ==> rs[j].Ok?
    ensures Assign(keys, rs, acc) == Err(rs[i].error)
    decreases i
  {
    if i > 0 {
      assert forall j :: 0 <= j < i - 1 ==> rs[1..][j] == rs[j + 1];
      AssignErr(keys[1..], rs[1..], acc[keys[0] := rs[0].value], i - 1);
    }
  }

  /** An object literal compiles to the shape its parts' assignments build,
      or to their error. */
  lemma CompileObjectLiteralAssign(s: string, tests: Tests)
    requires IsObjectLiteral(Trim(s)) && '|' !in Trim(s) && '&' !in Trim(s) && Trim(s) != "{}"
    ensures var parts := LiteralParts(Trim(s));
      Compile(s, tests) == match Assign(PartKeys(parts), PartResults(parts, tests), map[])
                           case Err(e) => Err(e)
                           case Ok(props) => Ok(Shape(props))
  {
    var t := Trim(s);
    var parts := LiteralParts(t);
    CompileObjectLiteralReached(s, tests);
    CompilePropertiesAssign(parts, tests, map[], |t|);
  }

  /** `{key:type, …}` whose every type compiles: the shape declares exactly
      the parts' keys, and each key holds the type of the last part declaring
      it. */
  lemma CompileObjectLiteralOk(s: string, tests: Tests)
    requires IsObjectLiteral(Trim(s)) && '|' !in Trim(s) && '&' !in Trim(s) && Trim(s) != "{}"
    requires PartTypesCompile(LiteralParts(Trim(s)), tests)
    ensures var parts := LiteralParts(Trim(s));
      var keys := PartKeys(parts);
      && Compile(s, tests).Ok? && Compile(s, tests).value.Shape?
      && (forall k :: k in Compile(s, tests).value.props <==> k in keys)
      && (forall i :: 0 <= i < |parts| && keys[i] !in keys[i + 1..] ==>
            Compile(s, tests).value.props[keys[i]] == Compile(PropertyPart(parts[i]).1, tests).value)
  {
    var parts := LiteralParts(Trim(s));
    CompileObjectLiteralAssign(s, tests);
    AssignOk(PartKeys(parts), PartResults(parts, tests), map[]);
  }

  /** `{key:type, …}` with a type that does not compile: the first such
      part's error escapes. */
  lemma CompileObjectLiteralFirstError(s: string, tests: Tests, i: nat)
    requires IsObjectLiteral(Trim(s)) && '|' !in Trim(s) && '&' !in Trim(s) && Trim(s) != "{}"
    requires FirstFailingPart(LiteralParts(Trim(s)), tests, i)
    ensures Compile(s, tests) == Err(Compile(PropertyPart(LiteralParts(Trim(s))[i]).1, tests).error)
  {
    var parts := LiteralParts(Trim(s));
    CompileObjectLiteralAssign(s, tests);
    AssignErr(PartKeys(parts), PartResults(parts, tests), map[], i);
  }

  /** A part without `:` declares itself as the key, with type `*`, which
      compiles to the wildcard. */
  lemma BarePartIsWildcard(part: string, tests: Tests)
    requires ':' !in part
    ensures PropertyPart(part) == (part, "*")
    ensures Compile("*", tests) == Ok(Wildcard)
  {
    TrimOfTrimmed("*");
  }

  /** `{}` is the empty property map. */
  lemma CompileEmptyShape(s: string, tests: Tests)
    requires Trim(s) == "{}"
    ensures Compile(s, tests) == Ok(Shape(map[]))
  {
    var t := Trim(s);
    assert '|' !in t && '&' !in t;
    StartsWithFirst(t, "array");
    StartsWithFirst(t, "Array");
    StartsWithFirst(t, "object");
    StartsWithFirst(t, "Object");
    assert !IsArrayGeneric(t) && !IsObjectGeneric(t);
    EndsWithLast(t, "[]");
    assert Compile(s, tests) == CompileTrimmed(t, tests) == CompileOperand(t, tests);
    assert CompileOperand(t, tests) == CompileObjectForms(t, tests);
  }
}
