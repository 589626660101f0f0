/**
 * The aggregators of TypeUtils as the source writes them: loops that call
 * `_callTestFunction` item by item and push the failing results into an
 * array. Each is proved to compute what the evaluator in `TypeEvaluator`
 * says it computes.
 */
module TypeAggregators {
  import opened Wrappers
  import opened JsValues
  import opened TypeModel
  import opened TypeEvaluator

  // ---------------------------------------------------------------------
  // Facts about the verdict functions when one more result is appended.
  // ---------------------------------------------------------------------

  /** The first exception is found at the first index that threw. */
  lemma {:induction false} FirstThrownAt(raws: seq<Raw>, i: nat)
    requires i < |raws| && raws[i].Threw?
    requires forall j :: 0 <= j < i ==> !raws[j].Threw?
    ensures FirstThrown(raws) == Some(raws[i].error)
  {
    if i > 0 {
      assert raws[1..][i - 1] == raws[i];
      FirstThrownAt(raws[1..], i - 1);
    }
  }

  /** The first failure is found at the first index that failed. */
  lemma {:induction false} FirstFailureAt(results: seq<TestResult>, i: nat)
    requires i < |results| && !results[i].value
    requires forall j :: 0 <= j < i ==> results[j].value
    ensures FirstFailure(results) == i
  {
    if i > 0 {
      assert results[1..][i - 1] == results[i];
      FirstFailureAt(results[1..], i - 1);
    }
  }

  /** Appending one key and value result appends their failures. */
  lemma {:induction false} MapFailuresSnoc(ks: seq<TestResult>, vs: seq<TestResult>, k: TestResult, v: TestResult)
    requires |ks| == |vs|
    ensures MapFailures(ks + [k], vs + [v])
      == MapFailures(ks, vs) + ((if k.value then [] else [k]) + (if v.value then [] else [v]))
  {
    var ks', vs' := ks + [k], vs + [v];
    var tail := (if k.value then [] else [k]) + (if v.value then [] else [v]);
    if ks == [] {
      assert ks'[1..] == [] && vs'[1..] == [];
      assert MapFailures(ks', vs') == tail + MapFailures([], []);
    } else {
      var head := (if ks[0].value then [] else [ks[0]]) + (if vs[0].value then [] else [vs[0]]);
      assert ks'[1..] == ks[1..] + [k];
      assert vs'[1..] == vs[1..] + [v];
      MapFailuresSnoc(ks[1..], vs[1..], k, v);
      calc {
        MapFailures(ks', vs');
        head + MapFailures(ks[1..] + [k], vs[1..] + [v]);
        head + (MapFailures(ks[1..], vs[1..]) + tail);
        (head + MapFailures(ks[1..], vs[1..])) + tail;
        MapFailures(ks, vs) + tail;
      }
    }
  }

  /** The failures of one more prefix of the key and value results. */
  lemma MapFailuresPrefix(ks: seq<TestResult>, vs: seq<TestResult>, i: nat)
    requires |ks| == |vs| && i < |ks|
    ensures MapFailures(ks[..i + 1], vs[..i + 1])
      == MapFailures(ks[..i], vs[..i]) + ((if ks[i].value then [] else [ks[i]]) + (if vs[i].value then [] else [vs[i]]))
  {
    MapFailuresSnoc(ks[..i], vs[..i], ks[i], vs[i]);
    PrefixSnoc(ks, i);
    PrefixSnoc(vs, i);
  }

  /** The loop of `_everyObjectItemResult` pushes the key's failure and
      then the value's onto those of the earlier keys. */
  lemma ObjectItemStep(ks: seq<TestResult>, vs: seq<TestResult>, i: nat)
    requires |ks| == |vs| && i < |ks|
    ensures MapFailures(ks[..i], vs[..i]) + (if ks[i].value then [] else [ks[i]]) + (if vs[i].value then [] else [vs[i]])
      == MapFailures(ks[..i + 1], vs[..i + 1])
  {
    MapFailuresPrefix(ks, vs, i);
  }

  /** Appending one property appends what it contributes. */
  lemma {:induction false} PropertyFailuresSnoc(es: seq<Prop>, rs: seq<Option<TestResult>>, e: Prop, r: Option<TestResult>)
    requires |es| == |rs|
    ensures PropertyFailures(es + [e], rs + [r]) == PropertyFailures(es, rs) + PropertyFailure(e.key, r)
  {
    if es == [] {
      assert (es + [e])[1..] == [] && (rs + [r])[1..] == [];
    } else {
      assert (es + [e])[1..] == es[1..] + [e];
      assert (rs + [r])[1..] == rs[1..] + [r];
      PropertyFailuresSnoc(es[1..], rs[1..], e, r);
    }
  }

  /** Appending one operand to the filter. */
  lemma {:induction false} NonShapesSnoc(ts: seq<CompiledTest>, t: CompiledTest)
    ensures NonShapes(ts + [t]) == NonShapes(ts) + (if t.Shape? then [] else [t])
  {
    var ts' := ts + [t];
    var last := if t.Shape? then [] else [t];
    if ts == [] {
      assert ts'[1..] == [];
      assert NonShapes(ts') == last + NonShapes([]);
    } else {
      var head := if ts[0].Shape? then [] else [ts[0]];
      assert ts'[0] == ts[0];
      assert ts'[1..] == ts[1..] + [t];
      NonShapesSnoc(ts[1..], t);
      calc {
        NonShapes(ts');
        head + NonShapes(ts[1..] + [t]);
        head + (NonShapes(ts[1..]) + last);
        (head + NonShapes(ts[1..])) + last;
        NonShapes(ts) + last;
      }
    }
  }

  /** Extending a prefix by one element. */
  lemma PrefixSnoc<T>(s: seq<T>, i: nat)
    requires i < |s|
    ensures s[..i + 1] == s[..i] + [s[i]]
  {
  }

  /** The whole sequence as a prefix. */
  lemma PrefixAll<T>(s: seq<T>)
    ensures s[..|s|] == s
  {
  }

  // ---------------------------------------------------------------------
  // The loops.
  // ---------------------------------------------------------------------

  /** `_everyArrayItemResult(list, test)`. The src copy calls each item
      through `_callTestFunction`; the root copy calls `test(item)` itself,
      and an exception leaves the loop and the function. */
  method EveryArrayItemResult(copy: Copy, tests: Tests, item: CompiledTest, list: seq<Value>, fuel: nat)
    returns (r: Raw)
    requires fuel > 0
    ensures r == EveryArrayItem(copy, tests, item, list, fuel)
  {
    ghost var calls := ItemCalls(copy, tests, item, list, fuel);
    ghost var raws := ItemRuns(copy, tests, item, list, fuel);
    ghost var normalized := NormalizeAll(raws);
    var results: seq<TestResult> := [];
    var i := 0;
    while i < |list|
      invariant 0 <= i <= |list|
      invariant copy.SrcCopy? ==> (results == [] <==> forall j :: 0 <= j < i ==> calls[j].value)
      invariant copy.RootCopy? ==> forall j :: 0 <= j < i ==> !raws[j].Threw?
      invariant copy.RootCopy? ==> (results == [] <==> forall j :: 0 <= j < i ==> normalized[j].value)
    {
      var result: TestResult;
      if copy.SrcCopy? {
        result := Call(copy, tests, item, list[i], fuel - 1);
        assert result == calls[i];
      } else {
        var raw := Run(copy, tests, item, list[i], fuel - 1);
        assert raw == raws[i];
        if raw.Threw? {
          FirstThrownAt(raws, i);
          return raw;
        }
        result := Normalize(raw);
        assert result == normalized[i];
      }
      if !result.value {
        results := results + [result];
      }
      i := i + 1;
    }
    if results == [] {
      r := ReturnedResult(Passed);
    } else {
      r := ReturnedResult(TestResult(false, Some(ItemFailed), None));
    }
  }

  /** `_everyObjectItemResult(obj, keyTest, valueTest)`: for each own key,
      the key result and then the value result are pushed when they fail. */
  method EveryObjectItemResult(copy: Copy, tests: Tests, kt: CompiledTest, vt: CompiledTest, obj: Value, fuel: nat)
    returns (r: TestResult)
    requires fuel > 0
    ensures r == EveryObjectItem(copy, tests, kt, vt, obj, fuel)
  {
    var entries := OwnEntries(obj);
    ghost var ks := KeyCalls(copy, tests, kt, entries, fuel);
    ghost var vs := ValueCalls(copy, tests, vt, entries, fuel);
    var results: seq<TestResult> := [];
    var i := 0;
    while i < |entries|
      invariant 0 <= i <= |entries|
      invariant results == MapFailures(ks[..i], vs[..i])
    {
      var key := entries[i].key;
      var keyResult := Call(copy, tests, kt, Str(key), fuel - 1);
      assert keyResult == ks[i];
      results := results + (if keyResult.value then [] else [keyResult]);
      var valueResult := Call(copy, tests, vt, entries[i].val, fuel - 1);
      assert valueResult == vs[i];
      results := results + (if valueResult.value then [] else [valueResult]);
      ObjectItemStep(ks, vs, i);
      i := i + 1;
    }
    PrefixAll(ks);
    PrefixAll(vs);
    assert EveryObjectItem(copy, tests, kt, vt, obj, fuel) == MapVerdict(ks, vs);
    if results == [] {
      r := Passed;
    } else {
      r := TestResult(false, Some(ObjectFailed), Some(results));
    }
  }

  /** `_testEveryObjectPropertyResult(obj, propertyTestFunctions)`: an own
      property without a test pushes a "not defined" failure; one whose test
      fails pushes a failure that holds the nested result. */
  method TestEveryObjectPropertyResult(copy: Copy, tests: Tests, obj: Value, props: map<string, CompiledTest>, fuel: nat)
    returns (r: TestResult)
    requires fuel > 0
    ensures r == EveryProperty(copy, tests, props, obj, fuel)
  {
    var entries := OwnEntries(obj);
    ghost var rs := PropertyResults(copy, tests, props, entries, fuel);
    var failed: seq<TestResult> := [];
    var i := 0;
    while i < |entries|
      invariant 0 <= i <= |entries|
      invariant failed == PropertyFailures(entries[..i], rs[..i])
    {
      var key := entries[i].key;
      PropertyFailuresSnoc(entries[..i], rs[..i], entries[i], rs[i]);
      PrefixSnoc(entries, i);
      PrefixSnoc(rs, i);
      if key !in props {
        failed := failed + [TestResult(false, Some(PropertyNotDefined(key)), None)];
      } else {
        var valueResult := Call(copy, tests, props[key], entries[i].val, fuel - 1);
        if !valueResult.value {
          failed := failed + [TestResult(false, Some(PropertyFailed(key)), Some([valueResult]))];
        }
      }
      i := i + 1;
    }
    PrefixAll(entries);
    PrefixAll(rs);
    if |failed| < 1 {
      r := Passed;
    } else {
      r := TestResult(false, Some(ObjectFailed), Some(failed));
    }
  }

  /** `_testOr(value, tests)`: every branch is called first (`_.map`), then
      `_.some` walks the results, pushing each failure until one passes. */
  method TestOr(copy: Copy, tests: Tests, ts: seq<CompiledTest>, v: Value, fuel: nat)
    returns (r: TestResult)
    requires fuel > 0
    ensures r == Union(copy, tests, ts, v, fuel)
  {
    var results: seq<TestResult> := [];
    var i := 0;
    while i < |ts|
      invariant 0 <= i <= |ts|
      invariant results == Calls(copy, tests, ts, v, fuel)[..i]
    {
      results := results + [Call(copy, tests, ts[i], v, fuel - 1)];
      i := i + 1;
    }
    assert results == Calls(copy, tests, ts, v, fuel);
    var failed: seq<TestResult> := [];
    var found := false;
    var j := 0;
    while j < |results| && !found
      invariant 0 <= j <= |results|
      invariant !found ==> failed == results[..j] && forall k :: 0 <= k < j ==> !results[k].value
      invariant found ==> exists k :: 0 <= k < |results| && results[k].value
    {
      if results[j].value {
        found := true;
      } else {
        failed := failed + [results[j]];
      }
      j := j + 1;
    }
    if found {
      r := Passed;
    } else {
      assert failed == results;
      r := TestResult(false, Some(DidNotMatch), Some(failed));
    }
  }

  /** The `_.filter` and `_.reduce` of `_testIntersection`: the keys of the
      plain-object operands are copied left to right into one map, and the
      other operands are kept in order. */
  method SplitOperands(ts: seq<CompiledTest>) returns (merged: map<string, CompiledTest>, others: seq<CompiledTest>)
    ensures merged == MergeShapes(ts)
    ensures others == NonShapes(ts)
  {
    merged := map[];
    others := [];
    var i := 0;
    while i < |ts|
      invariant 0 <= i <= |ts|
      invariant merged == MergeShapes(ts[..i])
      invariant others == NonShapes(ts[..i])
    {
      assert ts[..i + 1][..i] == ts[..i];
      NonShapesSnoc(ts[..i], ts[i]);
      PrefixSnoc(ts, i);
      if ts[i].Shape? {
        merged := merged + ts[i].props;
      } else {
        others := others + [ts[i]];
      }
      i := i + 1;
    }
    PrefixAll(ts);
  }

  /** `_testIntersection(value, tests)`: the merged-object check is put in
      front of the other operands, every final test is called (`_.map`), and
      `_.every` stops at the first failure, which it pushes. */
  method TestIntersection(copy: Copy, tests: Tests, ts: seq<CompiledTest>, v: Value, fuel: nat)
    returns (r: TestResult)
    requires fuel > 0
    ensures r == Intersection(copy, tests, ts, v, fuel)
  {
    var merged, others := SplitOperands(ts);
    var finalTests := [Shape(merged)] + others;
    assert finalTests == IntersectionTests(ts);
    var results: seq<TestResult> := [];
    var i := 0;
    while i < |finalTests|
      invariant 0 <= i <= |finalTests|
      invariant results == Calls(copy, tests, finalTests, v, fuel)[..i]
    {
      results := results + [Call(copy, tests, finalTests[i], v, fuel - 1)];
      i := i + 1;
    }
    assert results == Calls(copy, tests, finalTests, v, fuel);
    var j := 0;
    while j < |results|
      invariant 0 <= j <= |results|
      invariant forall k :: 0 <= k < j ==> results[k].value
    {
      if !results[j].value {
        FirstFailureAt(results, j);
        return TestResult(false, Some(DidNotMatch), Some([results[j]]));
      }
      j := j + 1;
    }
    r := Passed;
  }
}
