/**
 * Running a compiled test on a value: `_callTestFunction`, the functions that
 * `_compileTestFunction` returns, and the aggregators `_everyArrayItemResult`,
 * `_everyObjectItemResult`, `_testEveryObjectPropertyResult`, `_testOr` and
 * `_testIntersection`, for both copies of TypeUtils.
 *
 * Every call of a test function uses one frame of the host's call stack;
 * `fuel` is the number of frames left. A call made with none left throws a
 * RangeError (`Threw(StackExhausted)`), which the nearest `_callTestFunction`
 * catches like any other exception.
 */
module TypeEvaluator {
  import opened Wrappers
  import opened JsValues
  import opened TypeModel

  /** The newer src/TypeUtils.js or the older root TypeUtils.js. */
  datatype Copy = SrcCopy | RootCopy

  /** `{value:true}`. */
  const Passed := TestResult(true, None, None)

  // ---------------------------------------------------------------------
  // Verdicts: how each aggregator combines the results of its nested calls.
  // ---------------------------------------------------------------------

  /** The results that did not pass, in order. */
  function FailedOnly(results: seq<TestResult>): (r: seq<TestResult>)
    ensures |r| <= |results|
    ensures r == [] <==> forall i :: 0 <= i < |results| ==> results[i].value
    ensures forall i :: 0 <= i < |results| && !results[i].value ==> results[i] in r
    ensures forall x :: x in r ==> !x.value && x in results
  {
    if results == [] then []
    else (if results[0].value then [] else [results[0]]) + FailedOnly(results[1..])
  }

  /** `_everyArrayItemResult` once the items are tested: a pass when every
      item passed, otherwise a failure that names no nested results. */
  function ArrayVerdict(results: seq<TestResult>): TestResult {
    if forall i :: 0 <= i < |results| ==> results[i].value then Passed
    else TestResult(false, Some(ItemFailed), None)
  }

  /** The failing key and value results of `_everyObjectItemResult`, in the
      order the loop pushes them: for each own key, its key result, then its
      value result. */
  function MapFailures(keyResults: seq<TestResult>, valueResults: seq<TestResult>): (r: seq<TestResult>)
    requires |keyResults| == |valueResults|
    ensures r == [] <==> forall i :: 0 <= i < |keyResults| ==> keyResults[i].value && valueResults[i].value
  {
    if keyResults == [] then []
    else
      var rest := MapFailures(keyResults[1..], valueResults[1..]);
      assert forall i :: 1 <= i < |keyResults| ==> keyResults[i] == keyResults[1..][i - 1];
      assert forall i :: 1 <= i < |valueResults| ==> valueResults[i] == valueResults[1..][i - 1];
      (if keyResults[0].value then [] else [keyResults[0]])
        + (if valueResults[0].value then [] else [valueResults[0]]) + rest
  }

  /** `_everyObjectItemResult` once the keys and values are tested. */
  function MapVerdict(keyResults: seq<TestResult>, valueResults: seq<TestResult>): TestResult
    requires |keyResults| == |valueResults|
  {
    var failures := MapFailures(keyResults, valueResults);
    if failures == [] then Passed else TestResult(false, Some(ObjectFailed), Some(failures))
  }

  /** What `_testEveryObjectPropertyResult` pushes for one own property: its
      nested result, or `None` when the property has no test. */
  function PropertyFailure(key: string, result: Option<TestResult>): seq<TestResult> {
    match result
    case None => [TestResult(false, Some(PropertyNotDefined(key)), None)]
    case Some(r) => if r.value then [] else [TestResult(false, Some(PropertyFailed(key)), Some([r]))]
  }

  /** All that `_testEveryObjectPropertyResult` pushes, in key order. */
  function PropertyFailures(entries: seq<Prop>, results: seq<Option<TestResult>>): (r: seq<TestResult>)
    requires |entries| == |results|
    ensures |r| <= |entries|
    ensures r == [] <==> forall i :: 0 <= i < |results| ==> results[i].Some? && results[i].value.value
    ensures forall x :: x in r ==> !x.value
  {
    if entries == [] then []
    else
      var rest := PropertyFailures(entries[1..], results[1..]);
      assert forall i :: 1 <= i < |results| ==> results[i] == results[1..][i - 1];
      PropertyFailure(entries[0].key, results[0]) + rest
  }

  /** `_testEveryObjectPropertyResult` once the own properties are tested. */
  function PropertiesVerdict(entries: seq<Prop>, results: seq<Option<TestResult>>): TestResult
    requires |entries| == |results|
  {
    var failures := PropertyFailures(entries, results);
    if failures == [] then Passed else TestResult(false, Some(ObjectFailed), Some(failures))
  }

  /** `_testOr` once every branch is tested: a pass when some branch passed,
      otherwise a failure holding every branch's result. */
  function OrVerdict(results: seq<TestResult>): TestResult {
    if exists i :: 0 <= i < |results| && results[i].value then Passed
    else TestResult(false, Some(DidNotMatch), Some(results))
  }

  /** The first result that did not pass. */
  function FirstFailure(results: seq<TestResult>): (i: nat)
    requires exists j :: 0 <= j < |results| && !results[j].value
    ensures i < |results| && !results[i].value
    ensures forall j :: 0 <= j < i ==> results[j].value
  {
    if !results[0].value then 0
    else
      assert exists j :: 0 <= j < |results[1..]| && !results[1..][j].value by {
        var j :| 0 <= j < |results| && !results[j].value;
        assert results[1..][j - 1] == results[j];
      }
      FirstFailure(results[1..]) + 1
  }

  /** `_testIntersection` once the tests are run: `_.every` stops at the
      first failure, so only that one is kept. */
  function AndVerdict(results: seq<TestResult>): TestResult {
    if forall i :: 0 <= i < |results| ==> results[i].value then Passed
    else TestResult(false, Some(DidNotMatch), Some([results[FirstFailure(results)]]))
  }

  // ---------------------------------------------------------------------
  // Intersections: the plain-object operands are merged.
  // ---------------------------------------------------------------------

  /** The `_.reduce` of `_testIntersection`: the property maps of the
      plain-object operands copied left to right into one map, a later key
      overwriting an earlier one. */
  function MergeShapes(tests: seq<CompiledTest>): map<string, CompiledTest> {
    if tests == [] then map[]
    else
      var last := tests[|tests| - 1];
      MergeShapes(tests[..|tests| - 1]) + (if last.Shape? then last.props else map[])
  }

  /** `_.filter(tests, test => !_.isPlainObject(test))`. */
  function NonShapes(tests: seq<CompiledTest>): (r: seq<CompiledTest>)
    ensures |r| <= |tests|
  {
    if tests == [] then []
    else (if tests[0].Shape? then [] else [tests[0]]) + NonShapes(tests[1..])
  }

  /** `_.concat([objTestFunc], nonObjectTests)`: the merged-object check
      comes first and is always there. */
  function IntersectionTests(tests: seq<CompiledTest>): seq<CompiledTest> {
    [Shape(MergeShapes(tests))] + NonShapes(tests)
  }

  // ---------------------------------------------------------------------
  // The evaluator.
  // ---------------------------------------------------------------------

  /** `_callTestFunction(test, value)`: a plain object of property tests is
      first wrapped into `value => _.isObject(value) && …`; whatever the call
      returns or throws is normalised, so this never throws. */
  function Call(copy: Copy, tests: Tests, t: CompiledTest, v: Value, fuel: nat): TestResult
    decreases fuel, 4
  {
    Normalize(if t.Shape? then CheckProperties(copy, tests, t.props, v, fuel) else Run(copy, tests, t, v, fuel))
  }

  /** `value => _.isObject(value) && _testEveryObjectPropertyResult(value, props)`. */
  function CheckProperties(copy: Copy, tests: Tests, props: map<string, CompiledTest>, v: Value, fuel: nat): Raw
    decreases fuel, 3
  {
    if fuel == 0 then Threw(StackExhausted)
    else if !IsObject(v) then Returned(false)
    else ReturnedResult(EveryProperty(copy, tests, props, v, fuel))
  }

  /** Calling a compiled test directly, as `test(value)`: a plain object is
      not a function and throws. */
  function Run(copy: Copy, tests: Tests, t: CompiledTest, v: Value, fuel: nat): Raw
    decreases fuel, 3
  {
    if t.Shape? then Threw(NotAFunction)
    else if fuel == 0 then Threw(StackExhausted)
    else
      match t
      case Prim(kind) => Returned(PrimHolds(kind, v))
      case Wildcard => Returned(true)
      case UserFn(f) => f(v)
      case AliasOf(target) =>
        // `value => TESTS[type](value)` reads the registry when it runs
        if target in tests then Run(copy, tests, tests[target], v, fuel - 1) else Threw(NotAFunction)
      case AnyOf(ts) => ReturnedResult(Union(copy, tests, ts, v, fuel))
      case AllOf(ts) => ReturnedResult(Intersection(copy, tests, ts, v, fuel))
      case ArrayOf(item) => if !v.Arr? then Returned(false) else EveryArrayItem(copy, tests, item, v.items, fuel)
      case MapOf(kt, vt) => if !IsObject(v) then Returned(false) else ReturnedResult(EveryObjectItem(copy, tests, kt, vt, v, fuel))
  }

  /** `_testEveryObjectPropertyResult`: each own property of the value is
      tested by the property test of its key, if there is one. */
  function EveryProperty(copy: Copy, tests: Tests, props: map<string, CompiledTest>, v: Value, fuel: nat): TestResult
    requires fuel > 0
    decreases fuel, 2
  {
    var entries := OwnEntries(v);
    PropertiesVerdict(entries, PropertyResults(copy, tests, props, entries, fuel))
  }

  /** The nested result of each own property, `None` where no test is declared. */
  function PropertyResults(copy: Copy, tests: Tests, props: map<string, CompiledTest>, entries: seq<Prop>, fuel: nat)
    : (rs: seq<Option<TestResult>>)
    requires fuel > 0
    ensures |rs| == |entries|
    ensures forall i :: 0 <= i < |entries| ==>
      rs[i] == if entries[i].key in props then Some(Call(copy, tests, props[entries[i].key], entries[i].val, fuel - 1)) else None
    decreases fuel, 1
  {
    seq(|entries|, i requires 0 <= i < |entries| =>
      if entries[i].key in props then Some(Call(copy, tests, props[entries[i].key], entries[i].val, fuel - 1)) else None)
  }

  /** `_everyArrayItemResult`. The src copy tests each item through
      `_callTestFunction`; the root copy calls `test(item)` directly, so the
      first exception escapes the loop. */
  function EveryArrayItem(copy: Copy, tests: Tests, item: CompiledTest, items: seq<Value>, fuel: nat): Raw
    requires fuel > 0
    decreases fuel, 2
  {
    match copy
    case SrcCopy => ReturnedResult(ArrayVerdict(ItemCalls(copy, tests, item, items, fuel)))
    case RootCopy => RootArrayVerdict(ItemRuns(copy, tests, item, items, fuel))
  }

  /** Each item tested through `_callTestFunction`, one frame down. */
  function ItemCalls(copy: Copy, tests: Tests, item: CompiledTest, items: seq<Value>, fuel: nat): (rs: seq<TestResult>)
    requires fuel > 0
    ensures |rs| == |items|
    ensures forall i :: 0 <= i < |items| ==> rs[i] == Call(copy, tests, item, items[i], fuel - 1)
    decreases fuel, 1
  {
    seq(|items|, i requires 0 <= i < |items| => Call(copy, tests, item, items[i], fuel - 1))
  }

  /** Each item tested by calling the test directly, one frame down. */
  function ItemRuns(copy: Copy, tests: Tests, item: CompiledTest, items: seq<Value>, fuel: nat): (rs: seq<Raw>)
    requires fuel > 0
    ensures |rs| == |items|
    ensures forall i :: 0 <= i < |items| ==> rs[i] == Run(copy, tests, item, items[i], fuel - 1)
    decreases fuel, 1
  {
    seq(|items|, i requires 0 <= i < |items| => Run(copy, tests, item, items[i], fuel - 1))
  }

  /** The first exception among direct calls, if any. */
  function FirstThrown(raws: seq<Raw>): (r: Option<Thrown>)
    ensures r.None? <==> forall i :: 0 <= i < |raws| ==> !raws[i].Threw?
  {
    if raws == [] then None
    else if raws[0].Threw? then Some(raws[0].error)
    else
      assert forall i :: 1 <= i < |raws| ==> raws[i] == raws[1..][i - 1];
      FirstThrown(raws[1..])
  }

  /** The root copy's loop: an exception ends it, otherwise the verdict is
      that of the src copy. */
  function RootArrayVerdict(raws: seq<Raw>): Raw {
    match FirstThrown(raws)
    case Some(e) => Threw(e)
    case None => ReturnedResult(ArrayVerdict(NormalizeAll(raws)))
  }

  /** `_getResultValue` of each direct call, as the records it stands for. */
  function NormalizeAll(raws: seq<Raw>): (rs: seq<TestResult>)
    ensures |rs| == |raws|
    ensures forall i :: 0 <= i < |raws| ==> rs[i] == Normalize(raws[i])
  {
    seq(|raws|, i requires 0 <= i < |raws| => Normalize(raws[i]))
  }

  /** `_everyObjectItemResult`: every own key is tested as a string by the
      key test and its value by the value test. */
  function EveryObjectItem(copy: Copy, tests: Tests, kt: CompiledTest, vt: CompiledTest, v: Value, fuel: nat): TestResult
    requires fuel > 0
    decreases fuel, 2
  {
    var entries := OwnEntries(v);
    MapVerdict(KeyCalls(copy, tests, kt, entries, fuel), ValueCalls(copy, tests, vt, entries, fuel))
  }

  /** Each own key, as a string, tested by the key test, one frame down. */
  function KeyCalls(copy: Copy, tests: Tests, kt: CompiledTest, entries: seq<Prop>, fuel: nat): (rs: seq<TestResult>)
    requires fuel > 0
    ensures |rs| == |entries|
    ensures forall i :: 0 <= i < |entries| ==> rs[i] == Call(copy, tests, kt, Str(entries[i].key), fuel - 1)
    decreases fuel, 1
  {
    seq(|entries|, i requires 0 <= i < |entries| => Call(copy, tests, kt, Str(entries[i].key), fuel - 1))
  }

  /** Each own value tested by the value test, one frame down. */
  function ValueCalls(copy: Copy, tests: Tests, vt: CompiledTest, entries: seq<Prop>, fuel: nat): (rs: seq<TestResult>)
    requires fuel > 0
    ensures |rs| == |entries|
    ensures forall i :: 0 <= i < |entries| ==> rs[i] == Call(copy, tests, vt, entries[i].val, fuel - 1)
    decreases fuel, 1
  {
    seq(|entries|, i requires 0 <= i < |entries| => Call(copy, tests, vt, entries[i].val, fuel - 1))
  }

  /** `_testOr`: every branch is tested (`_.map` runs them all). */
  function Union(copy: Copy, tests: Tests, ts: seq<CompiledTest>, v: Value, fuel: nat): TestResult
    requires fuel > 0
    decreases fuel, 2
  {
    OrVerdict(Calls(copy, tests, ts, v, fuel))
  }

  /** `_testIntersection`. */
  function Intersection(copy: Copy, tests: Tests, ts: seq<CompiledTest>, v: Value, fuel: nat): TestResult
    requires fuel > 0
    decreases fuel, 2
  {
    AndVerdict(Calls(copy, tests, IntersectionTests(ts), v, fuel))
  }

  /** `_.map(tests, test => this._callTestFunction(test, value))`, one frame down. */
  function Calls(copy: Copy, tests: Tests, ts: seq<CompiledTest>, v: Value, fuel: nat): (rs: seq<TestResult>)
    requires fuel > 0
    ensures |rs| == |ts|
    ensures forall i :: 0 <= i < |ts| ==> rs[i] == Call(copy, tests, ts[i], v, fuel - 1)
    decreases fuel, 1
  {
    seq(|ts|, i requires 0 <= i < |ts| => Call(copy, tests, ts[i], v, fuel - 1))
  }
}
