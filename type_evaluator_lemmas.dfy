/**
 * What each kind of compiled test accepts and how it reports a failure, for
 * one call of `_callTestFunction` with at least one stack frame left.
 */
module TypeEvaluatorLemmas {
  import opened Wrappers
  import opened JsValues
  import opened TypeModel
  import opened TypeEvaluator

  // ---------------------------------------------------------------------
  // One step of evaluation per kind of compiled test (helpers).
  // ---------------------------------------------------------------------

  lemma CallShapeStep(copy: Copy, tests: Tests, p: map<string, CompiledTest>, v: Value, fuel: nat)
    requires fuel > 0
    ensures Call(copy, tests, Shape(p), v, fuel)
      == if IsObject(v) then EveryProperty(copy, tests, p, v, fuel) else TestResult(false, None, None)
  {
    assert Call(copy, tests, Shape(p), v, fuel) == Normalize(CheckProperties(copy, tests, p, v, fuel));
  }

  lemma CallAnyOfStep(copy: Copy, tests: Tests, ts: seq<CompiledTest>, v: Value, fuel: nat)
    requires fuel > 0
    ensures Call(copy, tests, AnyOf(ts), v, fuel) == Union(copy, tests, ts, v, fuel)
  {
    assert Call(copy, tests, AnyOf(ts), v, fuel) == Normalize(Run(copy, tests, AnyOf(ts), v, fuel));
    assert Run(copy, tests, AnyOf(ts), v, fuel) == ReturnedResult(Union(copy, tests, ts, v, fuel));
  }

  lemma CallAllOfStep(copy: Copy, tests: Tests, ts: seq<CompiledTest>, v: Value, fuel: nat)
    requires fuel > 0
    ensures Call(copy, tests, AllOf(ts), v, fuel) == Intersection(copy, tests, ts, v, fuel)
  {
    assert Call(copy, tests, AllOf(ts), v, fuel) == Normalize(Run(copy, tests, AllOf(ts), v, fuel));
    assert Run(copy, tests, AllOf(ts), v, fuel) == ReturnedResult(Intersection(copy, tests, ts, v, fuel));
  }

  lemma CallArrayOfStep(copy: Copy, tests: Tests, item: CompiledTest, v: Value, fuel: nat)
    requires fuel > 0
    ensures Call(copy, tests, ArrayOf(item), v, fuel)
      == if v.Arr? then Normalize(EveryArrayItem(copy, tests, item, v.items, fuel)) else TestResult(false, None, None)
  {
    assert Call(copy, tests, ArrayOf(item), v, fuel) == Normalize(Run(copy, tests, ArrayOf(item), v, fuel));
  }

  lemma CallMapOfStep(copy: Copy, tests: Tests, kt: CompiledTest, vt: CompiledTest, v: Value, fuel: nat)
    requires fuel > 0
    ensures Call(copy, tests, MapOf(kt, vt), v, fuel)
      == if IsObject(v) then EveryObjectItem(copy, tests, kt, vt, v, fuel) else TestResult(false, None, None)
  {
    assert Call(copy, tests, MapOf(kt, vt), v, fuel) == Normalize(Run(copy, tests, MapOf(kt, vt), v, fuel));
  }

  /** `_callTestFunction` never throws: `true` and `false` become
      `{value:true}` and `{value:false}`, a returned record is kept as it is,
      and an exception becomes a failure that describes it. */
  lemma CallUserFunction(copy: Copy, tests: Tests, f: Value -> Raw, v: Value, fuel: nat)
    requires fuel > 0
    ensures f(v).Returned? ==> Call(copy, tests, UserFn(f), v, fuel) == TestResult(f(v).b, None, None)
    ensures f(v).ReturnedResult? ==> Call(copy, tests, UserFn(f), v, fuel) == f(v).result
    ensures f(v).Threw? ==>
      Call(copy, tests, UserFn(f), v, fuel) == TestResult(false, Some(TestFunctionFailed(f(v).error)), None)
  {
  }

  /** A call made with no stack frame left fails, and says why. */
  lemma CallWithoutStack(copy: Copy, tests: Tests, t: CompiledTest, v: Value)
    requires !t.Shape?
    ensures Call(copy, tests, t, v, 0) == TestResult(false, Some(TestFunctionFailed(StackExhausted)), None)
  {
  }

  /** The default tests are the lodash predicates; `*` accepts everything. */
  lemma CallPrimitive(copy: Copy, tests: Tests, kind: Primitive, v: Value, fuel: nat)
    requires fuel > 0
    ensures Call(copy, tests, Prim(kind), v, fuel) == TestResult(PrimHolds(kind, v), None, None)
    ensures Call(copy, tests, Wildcard, v, fuel) == Passed
  {
  }

  // ---------------------------------------------------------------------
  // Unions
  // ---------------------------------------------------------------------

  /** A union passes iff some branch passes; every branch is evaluated, and
      a failure keeps every branch's result. */
  lemma UnionSpec(copy: Copy, tests: Tests, ts: seq<CompiledTest>, v: Value, fuel: nat)
    requires fuel > 0
    ensures Call(copy, tests, AnyOf(ts), v, fuel).value <==>
      exists i :: 0 <= i < |ts| && Call(copy, tests, ts[i], v, fuel - 1).value
    ensures !Call(copy, tests, AnyOf(ts), v, fuel).value ==>
      && Call(copy, tests, AnyOf(ts), v, fuel).description == Some(DidNotMatch)
      && Call(copy, tests, AnyOf(ts), v, fuel).failed == Some(Calls(copy, tests, ts, v, fuel))
      && forall i :: 0 <= i < |ts| ==> Call(copy, tests, AnyOf(ts), v, fuel).failed.value[i] == Call(copy, tests, ts[i], v, fuel - 1)
  {
    CallAnyOfStep(copy, tests, ts, v, fuel);
  }

  // ---------------------------------------------------------------------
  // Intersections
  // ---------------------------------------------------------------------

  /** Every test of a list passes. */
  predicate AllPass(copy: Copy, tests: Tests, ts: seq<CompiledTest>, v: Value, fuel: nat) {
    forall i :: 0 <= i < |ts| ==> Call(copy, tests, ts[i], v, fuel).value
  }

  /** Everything the filter keeps is an operand that is not a plain object. */
  lemma {:induction false} NonShapesFrom(ts: seq<CompiledTest>)
    ensures forall k :: 0 <= k < |NonShapes(ts)| ==>
      exists i :: 0 <= i < |ts| && !ts[i].Shape? && NonShapes(ts)[k] == ts[i]
  {
    if ts != [] {
      NonShapesFrom(ts[1..]);
      var rest := NonShapes(ts[1..]);
      var n := if ts[0].Shape? then 0 else 1;
      assert NonShapes(ts) == (if ts[0].Shape? then [] else [ts[0]]) + rest;
      forall k | 0 <= k < |NonShapes(ts)|
        ensures exists i :: 0 <= i < |ts| && !ts[i].Shape? && NonShapes(ts)[k] == ts[i]
      {
        if k < n {
          assert NonShapes(ts)[k] == ts[0];
        } else {
          assert NonShapes(ts)[k] == rest[k - n];
          var i :| 0 <= i < |ts[1..]| && !ts[1..][i].Shape? && rest[k - n] == ts[1..][i];
          assert ts[1..][i] == ts[i + 1];
          assert 0 <= i + 1 < |ts| && !ts[i + 1].Shape? && NonShapes(ts)[k] == ts[i + 1];
        }
      }
    } else {
      assert NonShapes(ts) == [];
    }
  }

  /** Every operand that is not a plain object is kept by the filter. */
  lemma {:induction false} NonShapesKeeps(ts: seq<CompiledTest>)
    ensures forall i :: 0 <= i < |ts| && !ts[i].Shape? ==>
      exists k :: 0 <= k < |NonShapes(ts)| && NonShapes(ts)[k] == ts[i]
  {
    if ts != [] {
      NonShapesKeeps(ts[1..]);
      var rest := NonShapes(ts[1..]);
      var n := if ts[0].Shape? then 0 else 1;
      assert NonShapes(ts) == (if ts[0].Shape? then [] else [ts[0]]) + rest;
      forall i | 0 <= i < |ts| && !ts[i].Shape?
        ensures exists k :: 0 <= k < |NonShapes(ts)| && NonShapes(ts)[k] == ts[i]
      {
        if i == 0 {
          assert NonShapes(ts)[0] == ts[0];
        } else {
          assert ts[i] == ts[1..][i - 1];
          var k :| 0 <= k < |rest| && rest[k] == ts[1..][i - 1];
          assert NonShapes(ts)[k + n] == rest[k];
        }
      }
    }
  }

  /** Shape operands are merged left to right: a key is in the merged map iff
      some shape operand declares it, and its test is the one of the LAST
      shape operand that declares it. */
  lemma {:induction false} MergeShapesLastWins(ts: seq<CompiledTest>, k: string)
    ensures k in MergeShapes(ts) <==> exists i :: 0 <= i < |ts| && ts[i].Shape? && k in ts[i].props
    ensures k in MergeShapes(ts) ==>
      exists j :: 0 <= j < |ts| && ts[j].Shape? && k in ts[j].props && MergeShapes(ts)[k] == ts[j].props[k]
        && forall i :: j < i < |ts| ==> !(ts[i].Shape? && k in ts[i].props)
  {
    if ts != [] {
      var init := ts[..|ts| - 1];
      var last := ts[|ts| - 1];
      MergeShapesLastWins(init, k);
      assert forall i :: 0 <= i < |init| ==> init[i] == ts[i];
      if last.Shape? && k in last.props {
        assert MergeShapes(ts)[k] == last.props[k];
      } else {
        assert MergeShapes(ts) == MergeShapes(init) + (if last.Shape? then last.props else map[]);
        if k in MergeShapes(ts) {
          assert k in MergeShapes(init);
          var j :| 0 <= j < |init| && init[j].Shape? && k in init[j].props && MergeShapes(init)[k] == init[j].props[k]
            && forall i :: j < i < |init| ==> !(init[i].Shape? && k in init[i].props);
          assert MergeShapes(ts)[k] == ts[j].props[k];
        }
      }
    }
  }

  /** An intersection passes iff each of its final tests passes. */
  lemma IntersectionAllPass(copy: Copy, tests: Tests, ts: seq<CompiledTest>, v: Value, fuel: nat)
    requires fuel > 0
    ensures Call(copy, tests, AllOf(ts), v, fuel).value <==> AllPass(copy, tests, IntersectionTests(ts), v, fuel - 1)
  {
    CallAllOfStep(copy, tests, ts, v, fuel);
    var rs := Calls(copy, tests, IntersectionTests(ts), v, fuel);
    assert AndVerdict(rs).value <==> forall i :: 0 <= i < |rs| ==> rs[i].value;
  }

  /** The final tests of an intersection are the merged-object check and the
      operands that are not plain objects. */
  lemma IntersectionTestsPass(copy: Copy, tests: Tests, ts: seq<CompiledTest>, v: Value, fuel: nat)
    ensures AllPass(copy, tests, IntersectionTests(ts), v, fuel) <==>
      && Call(copy, tests, Shape(MergeShapes(ts)), v, fuel).value
      && forall i :: 0 <= i < |ts| && !ts[i].Shape? ==> Call(copy, tests, ts[i], v, fuel).value
  {
    if AllPass(copy, tests, IntersectionTests(ts), v, fuel) {
      IntersectionTestsPassOperands(copy, tests, ts, v, fuel);
    }
    if && Call(copy, tests, Shape(MergeShapes(ts)), v, fuel).value
       && forall i :: 0 <= i < |ts| && !ts[i].Shape? ==> Call(copy, tests, ts[i], v, fuel).value
    {
      OperandsPassIntersectionTests(copy, tests, ts, v, fuel);
    }
  }

  /** The final tests passing means the merged check and every operand that
      is not a plain object pass. */
  lemma IntersectionTestsPassOperands(copy: Copy, tests: Tests, ts: seq<CompiledTest>, v: Value, fuel: nat)
    requires AllPass(copy, tests, IntersectionTests(ts), v, fuel)
    ensures Call(copy, tests, Shape(MergeShapes(ts)), v, fuel).value
    ensures forall i :: 0 <= i < |ts| && !ts[i].Shape? ==> Call(copy, tests, ts[i], v, fuel).value
  {
    var finals := IntersectionTests(ts);
    var rest := NonShapes(ts);
    assert finals[0] == Shape(MergeShapes(ts));
    NonShapesKeeps(ts);
    forall i | 0 <= i < |ts| && !ts[i].Shape? ensures Call(copy, tests, ts[i], v, fuel).value {
      var k :| 0 <= k < |rest| && rest[k] == ts[i];
      assert finals[k + 1] == rest[k];
    }
  }

  /** Conversely, those passing means every final test passes. */
  lemma OperandsPassIntersectionTests(copy: Copy, tests: Tests, ts: seq<CompiledTest>, v: Value, fuel: nat)
    requires Call(copy, tests, Shape(MergeShapes(ts)), v, fuel).value
    requires forall i :: 0 <= i < |ts| && !ts[i].Shape? ==> Call(copy, tests, ts[i], v, fuel).value
    ensures AllPass(copy, tests, IntersectionTests(ts), v, fuel)
  {
    var finals := IntersectionTests(ts);
    var rest := NonShapes(ts);
    NonShapesFrom(ts);
    forall j | 0 <= j < |finals| ensures Call(copy, tests, finals[j], v, fuel).value {
      if j == 0 {
        assert finals[0] == Shape(MergeShapes(ts));
      } else {
        assert finals[j] == rest[j - 1];
        var i :| 0 <= i < |ts| && !ts[i].Shape? && rest[j - 1] == ts[i];
      }
    }
  }

  /** An intersection passes iff the merged-object check passes and every
      operand that is not a plain object passes. */
  lemma IntersectionSpec(copy: Copy, tests: Tests, ts: seq<CompiledTest>, v: Value, fuel: nat)
    requires fuel > 0
    ensures Call(copy, tests, AllOf(ts), v, fuel).value <==>
      && Call(copy, tests, Shape(MergeShapes(ts)), v, fuel - 1).value
      && forall i :: 0 <= i < |ts| && !ts[i].Shape? ==> Call(copy, tests, ts[i], v, fuel - 1).value
  {
    IntersectionAllPass(copy, tests, ts, v, fuel);
    IntersectionTestsPass(copy, tests, ts, v, fuel - 1);
  }

  /** The merged-object check is always part of an intersection, so a value
      that is not an object never passes one, not even `string & string`. */
  lemma IntersectionNeedsObject(copy: Copy, tests: Tests, ts: seq<CompiledTest>, v: Value, fuel: nat)
    requires fuel > 0 && !IsObject(v)
    ensures !Call(copy, tests, AllOf(ts), v, fuel).value
  {
    IntersectionSpec(copy, tests, ts, v, fuel);
  }

  /** A failed intersection reports only the first failing test. */
  lemma IntersectionKeepsFirstFailure(copy: Copy, tests: Tests, ts: seq<CompiledTest>, v: Value, fuel: nat)
    requires fuel > 0 && !Call(copy, tests, AllOf(ts), v, fuel).value
    ensures Call(copy, tests, AllOf(ts), v, fuel).description == Some(DidNotMatch)
    ensures Call(copy, tests, AllOf(ts), v, fuel).failed.Some?
    ensures |Call(copy, tests, AllOf(ts), v, fuel).failed.value| == 1
    ensures exists k :: (0 <= k < |IntersectionTests(ts)|
      && Call(copy, tests, AllOf(ts), v, fuel).failed.value[0] == Call(copy, tests, IntersectionTests(ts)[k], v, fuel - 1)
      && !Call(copy, tests, IntersectionTests(ts)[k], v, fuel - 1).value
      && forall j :: 0 <= j < k ==> Call(copy, tests, IntersectionTests(ts)[j], v, fuel - 1).value)
  {
    CallAllOfStep(copy, tests, ts, v, fuel);
    var finals := IntersectionTests(ts);
    var rs := Calls(copy, tests, finals, v, fuel);
    assert Intersection(copy, tests, ts, v, fuel) == AndVerdict(rs);
    assert !forall i :: 0 <= i < |rs| ==> rs[i].value;
    var k := FirstFailure(rs);
    assert Call(copy, tests, AllOf(ts), v, fuel).failed.value[0] == rs[k] == Call(copy, tests, finals[k], v, fuel - 1);
  }

  /** Without any plain-object operand the merged map is empty, so only an
      object without own properties can pass. */
  lemma IntersectionWithoutShapes(copy: Copy, tests: Tests, ts: seq<CompiledTest>, v: Value, fuel: nat)
    requires fuel > 1
    requires forall i :: 0 <= i < |ts| ==> !ts[i].Shape?
    requires Call(copy, tests, AllOf(ts), v, fuel).value
    ensures IsObject(v) && OwnEntries(v) == []
  {
    IntersectionSpec(copy, tests, ts, v, fuel);
    forall k ensures k !in MergeShapes(ts) {
      MergeShapesLastWins(ts, k);
    }
    assert MergeShapes(ts) == map[];
    EmptyShapeSpec(copy, tests, v, fuel - 1);
  }

  // ---------------------------------------------------------------------
  // Object shapes
  // ---------------------------------------------------------------------

  /** A shape check walks the value's own properties, not the declared keys:
      it passes iff the value is an object and each own property has a
      declared test that passes. */
  lemma ShapeSpec(copy: Copy, tests: Tests, p: map<string, CompiledTest>, v: Value, fuel: nat)
    requires fuel > 0
    ensures Call(copy, tests, Shape(p), v, fuel).value <==>
      && IsObject(v)
      && forall i :: 0 <= i < |OwnEntries(v)| ==>
           OwnEntries(v)[i].key in p && Call(copy, tests, p[OwnEntries(v)[i].key], OwnEntries(v)[i].val, fuel - 1).value
    ensures !IsObject(v) ==> Call(copy, tests, Shape(p), v, fuel) == TestResult(false, None, None)
  {
    CallShapeStep(copy, tests, p, v, fuel);
    if IsObject(v) {
      var es := OwnEntries(v);
      var rs := PropertyResults(copy, tests, p, es, fuel);
      assert forall i :: 0 <= i < |es| ==>
        (rs[i].Some? && rs[i].value.value <==> es[i].key in p && Call(copy, tests, p[es[i].key], es[i].val, fuel - 1).value);
    }
  }

  /** `{}` compiles to an empty map, so it accepts exactly the objects with
      no own property. */
  lemma EmptyShapeSpec(copy: Copy, tests: Tests, v: Value, fuel: nat)
    requires fuel > 0
    ensures Call(copy, tests, Shape(map[]), v, fuel).value <==> IsObject(v) && OwnEntries(v) == []
  {
    var empty: map<string, CompiledTest> := map[];
    ShapeSpec(copy, tests, empty, v, fuel);
    if IsObject(v) && OwnEntries(v) != [] {
      assert OwnEntries(v)[0].key !in empty;
    }
  }

  /** A declared key that the value does not have is never looked at: the
      empty object passes every shape. */
  lemma ShapeIgnoresMissingKeys(copy: Copy, tests: Tests, p: map<string, CompiledTest>, fuel: nat)
    requires fuel > 0
    ensures Call(copy, tests, Shape(p), Obj([]), fuel) == Passed
  {
    CallShapeStep(copy, tests, p, Obj([]), fuel);
  }

  /** Declaring one more key that the value does not have changes nothing. */
  lemma ShapeExtraDeclaration(copy: Copy, tests: Tests, p: map<string, CompiledTest>, k: string, t: CompiledTest, v: Value, fuel: nat)
    requires fuel > 0
    requires k !in KeysOf(OwnEntries(v))
    ensures Call(copy, tests, Shape(p[k := t]), v, fuel) == Call(copy, tests, Shape(p), v, fuel)
  {
    CallShapeStep(copy, tests, p, v, fuel);
    CallShapeStep(copy, tests, p[k := t], v, fuel);
    if IsObject(v) {
      var es := OwnEntries(v);
      assert forall i :: 0 <= i < |es| ==> es[i].key != k by {
        forall i | 0 <= i < |es| ensures es[i].key != k {
          assert KeysOf(es)[i] == es[i].key;
        }
      }
      assert PropertyResults(copy, tests, p[k := t], es, fuel) == PropertyResults(copy, tests, p, es, fuel);
    }
  }

  /** An own property without a declared test makes the check fail with a
      "not defined" entry for that key. */
  lemma ShapeUndeclaredKey(copy: Copy, tests: Tests, p: map<string, CompiledTest>, v: Value, fuel: nat, i: nat)
    requires fuel > 0 && IsObject(v)
    requires i < |OwnEntries(v)| && OwnEntries(v)[i].key !in p
    ensures var r := Call(copy, tests, Shape(p), v, fuel);
      && !r.value
      && r.description == Some(ObjectFailed)
      && r.failed.Some?
      && TestResult(false, Some(PropertyNotDefined(OwnEntries(v)[i].key)), None) in r.failed.value
  {
    CallShapeStep(copy, tests, p, v, fuel);
    var es := OwnEntries(v);
    var rs := PropertyResults(copy, tests, p, es, fuel);
    assert rs[i] == None;
    PropertyFailuresHas(es, rs, i);
  }

  /** Each own property's entry is among the failures it contributes to. */
  lemma {:induction false} PropertyFailuresHas(entries: seq<Prop>, results: seq<Option<TestResult>>, i: nat)
    requires |entries| == |results| && i < |entries|
    ensures forall x :: x in PropertyFailure(entries[i].key, results[i]) ==> x in PropertyFailures(entries, results)
  {
    if i > 0 {
      PropertyFailuresHas(entries[1..], results[1..], i - 1);
      assert entries[1..][i - 1] == entries[i] && results[1..][i - 1] == results[i];
    }
  }

  // ---------------------------------------------------------------------
  // Arrays
  // ---------------------------------------------------------------------

  /** In the src copy, `array<T>` and `T[]` pass iff the value is an array
      whose every item passes `T`; the failure carries no nested results. */
  lemma ArraySpec(tests: Tests, item: CompiledTest, v: Value, fuel: nat)
    requires fuel > 0
    ensures Call(SrcCopy, tests, ArrayOf(item), v, fuel).value <==>
      v.Arr? && forall i :: 0 <= i < |v.items| ==> Call(SrcCopy, tests, item, v.items[i], fuel - 1).value
    ensures Call(SrcCopy, tests, ArrayOf(item), v, fuel).failed.None?
    ensures v.Arr? && !Call(SrcCopy, tests, ArrayOf(item), v, fuel).value ==>
      Call(SrcCopy, tests, ArrayOf(item), v, fuel).description == Some(ItemFailed)
  {
    CallArrayOfStep(SrcCopy, tests, item, v, fuel);
  }

  /** In the root copy, an item test that is a plain object is called as a
      function and throws; the enclosing `_callTestFunction` catches it, so
      an array of shapes passes iff it is empty. */
  lemma RootArrayOfShapes(tests: Tests, p: map<string, CompiledTest>, v: Value, fuel: nat)
    requires fuel > 0 && v.Arr?
    ensures Call(RootCopy, tests, ArrayOf(Shape(p)), v, fuel).value <==> v.items == []
    ensures v.items != [] ==>
      Call(RootCopy, tests, ArrayOf(Shape(p)), v, fuel) == TestResult(false, Some(TestFunctionFailed(NotAFunction)), None)
  {
    CallArrayOfStep(RootCopy, tests, Shape(p), v, fuel);
    if v.items != [] {
      var raws := ItemRuns(RootCopy, tests, Shape(p), v.items, fuel);
      assert raws[0].Threw?;
      assert FirstThrown(raws) == Some(NotAFunction);
    }
  }

  /** In the root copy, when no item test throws, `array<T>` passes iff
      every item passes `T`. */
  lemma RootArraySpec(tests: Tests, item: CompiledTest, v: Value, fuel: nat)
    requires fuel > 0 && v.Arr?
    requires forall i :: 0 <= i < |v.items| ==> !Run(RootCopy, tests, item, v.items[i], fuel - 1).Threw?
    ensures Call(RootCopy, tests, ArrayOf(item), v, fuel).value <==>
      forall i :: 0 <= i < |v.items| ==> RawValue(Run(RootCopy, tests, item, v.items[i], fuel - 1))
  {
    CallArrayOfStep(RootCopy, tests, item, v, fuel);
    var raws := ItemRuns(RootCopy, tests, item, v.items, fuel);
    assert FirstThrown(raws) == None;
  }

  // ---------------------------------------------------------------------
  // Maps
  // ---------------------------------------------------------------------

  /** Every failing key or value result is among the collected failures. */
  lemma {:induction false} MapFailuresHas(ks: seq<TestResult>, vs: seq<TestResult>)
    requires |ks| == |vs|
    ensures forall i :: 0 <= i < |ks| && !ks[i].value ==> ks[i] in MapFailures(ks, vs)
    ensures forall i :: 0 <= i < |vs| && !vs[i].value ==> vs[i] in MapFailures(ks, vs)
  {
    if ks != [] {
      MapFailuresHas(ks[1..], vs[1..]);
      var head := (if ks[0].value then [] else [ks[0]]) + (if vs[0].value then [] else [vs[0]]);
      assert MapFailures(ks, vs) == head + MapFailures(ks[1..], vs[1..]);
      forall i | 1 <= i < |ks|
        ensures ks[i] == ks[1..][i - 1] && vs[i] == vs[1..][i - 1]
      {
      }
    }
  }

  /** `object<K,V>` passes iff the value is an object whose every own key
      passes `K` and whose every own value passes `V`; the failures are all
      collected, not only the first. */
  lemma MapSpec(copy: Copy, tests: Tests, kt: CompiledTest, vt: CompiledTest, v: Value, fuel: nat)
    requires fuel > 0
    ensures Call(copy, tests, MapOf(kt, vt), v, fuel).value <==>
      && IsObject(v)
      && forall i :: 0 <= i < |OwnEntries(v)| ==>
           && Call(copy, tests, kt, Str(OwnEntries(v)[i].key), fuel - 1).value
           && Call(copy, tests, vt, OwnEntries(v)[i].val, fuel - 1).value
    ensures IsObject(v) && !Call(copy, tests, MapOf(kt, vt), v, fuel).value ==>
      var r := Call(copy, tests, MapOf(kt, vt), v, fuel);
      && r.description == Some(ObjectFailed)
      && r.failed.Some?
      && (forall i :: 0 <= i < |OwnEntries(v)| && !Call(copy, tests, kt, Str(OwnEntries(v)[i].key), fuel - 1).value ==>
            Call(copy, tests, kt, Str(OwnEntries(v)[i].key), fuel - 1) in r.failed.value)
      && (forall i :: 0 <= i < |OwnEntries(v)| && !Call(copy, tests, vt, OwnEntries(v)[i].val, fuel - 1).value ==>
            Call(copy, tests, vt, OwnEntries(v)[i].val, fuel - 1) in r.failed.value)
  {
    CallMapOfStep(copy, tests, kt, vt, v, fuel);
    if IsObject(v) {
      var es := OwnEntries(v);
      var ks := KeyCalls(copy, tests, kt, es, fuel);
      var vs := ValueCalls(copy, tests, vt, es, fuel);
      assert EveryObjectItem(copy, tests, kt, vt, v, fuel) == MapVerdict(ks, vs);
      if !MapVerdict(ks, vs).value {
        assert MapVerdict(ks, vs).failed == Some(MapFailures(ks, vs));
        MapFailuresHas(ks, vs);
      }
    }
  }

  // ---------------------------------------------------------------------
  // Aliases
  // ---------------------------------------------------------------------

  /** An alias looks its target up when it runs, in the registry as it is
      then; a missing target, or one that is a plain object, throws a
      TypeError that the caller turns into a failure. */
  lemma AliasSpec(copy: Copy, tests: Tests, target: string, v: Value, fuel: nat)
    requires fuel > 0
    ensures target in tests ==> Run(copy, tests, AliasOf(target), v, fuel) == Run(copy, tests, tests[target], v, fuel - 1)
    ensures (target !in tests || tests[target].Shape?) ==>
      Call(copy, tests, AliasOf(target), v, fuel) == TestResult(false, Some(TestFunctionFailed(NotAFunction)), None)
  {
  }

  /** Two names registered as aliases of each other never return: every
      call runs out of stack, at any depth. */
  lemma {:induction false} AliasCycle(copy: Copy, tests: Tests, a: string, b: string, v: Value, fuel: nat)
    requires a in tests && b in tests && tests[a] == AliasOf(b) && tests[b] == AliasOf(a)
    ensures Run(copy, tests, AliasOf(a), v, fuel) == Threw(StackExhausted)
    ensures Run(copy, tests, AliasOf(b), v, fuel) == Threw(StackExhausted)
    decreases fuel
  {
    if fuel > 0 {
      AliasCycle(copy, tests, a, b, v, fuel - 1);
    }
  }
}
