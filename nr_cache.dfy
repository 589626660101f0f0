/**
 * `NrCache` (src/NrCache.js): a cache of values under string keys, kept in
 * one plain object that `clear` replaces and `destroy` drops.
 *
 * `hasValue`, `getValue` and `unsetValue` read an undeclared variable
 * `value` where they evidently mean `key`, so as written each throws a
 * ReferenceError once its key is a string. The functions ending in
 * `AsWritten` model that; the class uses the corrected reading.
 */
module NrCaches {
  import opened Wrappers
  import opened JsStrings
  import opened JsValues
  import AssertUtils
  import ObjectUtils

  /** The backing object `_cache`: `Some(props)` for an object, `None` once
      `destroy` has set it to undefined. */
  type Store = Option<seq<Prop>>

  function StoreValue(store: Store): (v: Value)
    ensures store.Some? <==> v.Obj?
    ensures store.None? <==> v.Undefined?
  {
    match store
    case None => Undefined
    case Some(props) => Obj(props)
  }

  /** `getKeys()`: lodash `_.keys`, which gives `[]` for undefined. */
  function Keys(store: Store): (ks: seq<string>)
    ensures store.Some? ==> ks == KeysOf(store.value)
    ensures store.None? ==> ks == []
  {
    match store
    case None => []
    case Some(props) => KeysOf(props)
  }

  /** `delete obj[k]`. */
  function RemoveProp(props: seq<Prop>, k: string): (r: seq<Prop>)
    ensures k !in KeysOf(r)
    ensures forall p :: p in r ==> p in props
  {
    if props == [] then []
    else
      var tail := RemoveProp(props[1..], k);
      assert forall p :: p in props[1..] ==> p in props;
      if props[0].key == k then tail
      else
        assert KeysOf([props[0]] + tail) == [props[0].key] + KeysOf(tail);
        [props[0]] + tail
  }

  lemma {:induction false} RemovePropLookup(props: seq<Prop>, k: string, k': string)
    ensures Lookup(RemoveProp(props, k), k') == if k' == k then None else Lookup(props, k')
  {
    if props != [] {
      RemovePropLookup(props[1..], k, k');
    }
  }

  // ---------------------------------------------------------------------
  // The operations on the store.
  // ---------------------------------------------------------------------

  /** `setValue(key, value)`: `AssertUtils.isString(key)`, then
      `this._cache[key] = value`, which throws a TypeError once the store is
      undefined. */
  function StoreSet(store: Store, key: Value, value: Value): (r: (Store, Outcome<JsError>))
    ensures r.1.Pass? <==> key.Str? && store.Some?
    ensures r.1.Fail? ==> r.0 == store && r.1.error.TypeError?
    ensures r.1.Pass? ==> r.0 == Some(SetProp(store.value, key.s, value))
  {
    var check := AssertUtils.IsString(key);
    if check.Fail? then (store, check)
    else match store
      case None => (store, Fail(TypeError("Cannot set properties of undefined")))
      case Some(props) => (Some(SetProp(props, key.s, value)), Pass)
  }

  /** `setValue(key, values[key])` for each key in turn; the first failure
      stops the loop. */
  function SetEach(store: Store, values: Value, keys: seq<string>): (r: (Store, Outcome<JsError>))
  {
    if keys == [] then (store, Pass)
    else
      var (s, o) := SetEach(store, values, keys[..|keys| - 1]);
      if o.Fail? then (s, o)
      else StoreSet(s, Str(keys[|keys| - 1]), GetOwn(values, keys[|keys| - 1]))
  }

  /** `setValues(values)`: `AssertUtils.isObject(values)`, then each own key
      of `values` in `_.keys` order. */
  function StoreSetValues(store: Store, values: Value): (r: (Store, Outcome<JsError>))
    ensures !(IsObject(values) && !values.Arr?) ==> r.0 == store && r.1.Fail? && r.1.error.TypeError?
  {
    var check := AssertUtils.IsObject(values);
    if check.Fail? then (store, check)
    else SetEach(store, values, KeysOf(OwnEntries(values)))
  }

  /** `hasValue(key)` with `key` where the source reads `value`. */
  function StoreHas(store: Store, key: Value): (r: Result<bool, JsError>)
    ensures r.Err? <==> !key.Str? || store.None?
    ensures r.Err? ==> r.error.TypeError?
    ensures r.Ok? ==> r.value == (key.s in Keys(store))
  {
    var check := AssertUtils.IsString(key);
    if check.Fail? then Err(check.error)
    else ObjectUtils.Has(StoreValue(store), key.s)
  }

  /** `getValue(key)` with `key` where the source reads `value`: the value
      under the key, or a TypeError naming the missing key. */
  function StoreGet(store: Store, key: Value): (r: Result<Value, JsError>)
    ensures r.Ok? <==> key.Str? && key.s in Keys(store)
    ensures r.Ok? ==> Some(r.value) == Lookup(store.value, key.s)
    ensures r.Err? ==> r.error.TypeError?
  {
    match StoreHas(store, key)
    case Err(e) => Err(e)
    case Ok(true) => Ok(GetOwn(StoreValue(store), key.s))
    case Ok(false) => Err(TypeError("NrCache did not have a resource with a key \"" + key.s + "\""))
  }

  /** `unsetValue(key)` with `key` where the source reads `value`: the key is
      deleted when present. */
  function StoreUnset(store: Store, key: Value): (r: (Store, Outcome<JsError>))
    ensures r.1.Pass? <==> key.Str? && store.Some?
    ensures r.1.Fail? ==> r.0 == store && r.1.error.TypeError?
    ensures r.1.Pass? ==> r.0 == Some(if key.s in Keys(store) then RemoveProp(store.value, key.s) else store.value)
  {
    match StoreHas(store, key)
    case Err(e) => (store, Fail(e))
    case Ok(true) => (Some(RemoveProp(store.value, key.s)), Pass)
    case Ok(false) => (store, Pass)
  }

  /** `unsetValue` for each key in turn; the first failure stops the loop. */
  function UnsetEach(store: Store, keys: seq<Value>): (r: (Store, Outcome<JsError>))
  {
    if keys == [] then (store, Pass)
    else
      var (s, o) := UnsetEach(store, keys[..|keys| - 1]);
      if o.Fail? then (s, o)
      else StoreUnset(s, keys[|keys| - 1])
  }

  /** Every item is a string: `_.every(keys, _.isString)`. */
  predicate AllStrings(items: seq<Value>) {
    forall i :: 0 <= i < |items| ==> items[i].Str?
  }

  /** `unsetValues(keys)`: `AssertUtils.isArray(keys)`, then
      `AssertUtils.isEqual(every item is a string, true)`, then each key. */
  function StoreUnsetValues(store: Store, keys: Value): (r: (Store, Outcome<JsError>))
    ensures !keys.Arr? || !AllStrings(keys.items) ==> r.0 == store && r.1.Fail? && r.1.error.TypeError?
  {
    var isArray := AssertUtils.IsArray(keys);
    if isArray.Fail? then (store, isArray)
    else
      var isEqual := AssertUtils.IsEqual(Bool(AllStrings(keys.items)), Bool(true), (a, b) => false);
      if isEqual.Fail? then (store, isEqual)
      else UnsetEach(store, keys.items)
  }

  // ---------------------------------------------------------------------
  // The three readers of `value` as written.
  // ---------------------------------------------------------------------

  /** `hasValue(key)` as written: past the key check it reads the undeclared
      `value`. */
  function StoreHasAsWritten(store: Store, key: Value): (r: Result<bool, JsError>)
    ensures r.Err?
    ensures key.Str? ==> r.error.ReferenceError?
  {
    var check := AssertUtils.IsString(key);
    if check.Fail? then Err(check.error)
    else Err(ReferenceError("value is not defined"))
  }

  /** `getValue(key)` as written. */
  function StoreGetAsWritten(store: Store, key: Value): (r: Result<Value, JsError>)
    ensures r.Err?
    ensures key.Str? ==> r.error.ReferenceError?
  {
    var check := AssertUtils.IsString(key);
    if check.Fail? then Err(check.error)
    else Err(ReferenceError("value is not defined"))
  }

  /** `unsetValue(key)` as written: it throws before deleting anything. */
  function StoreUnsetAsWritten(store: Store, key: Value): (r: (Store, Outcome<JsError>))
    ensures r.0 == store && r.1.Fail?
    ensures key.Str? ==> r.1.error.ReferenceError?
  {
    var check := AssertUtils.IsString(key);
    if check.Fail? then (store, check)
    else (store, Fail(ReferenceError("value is not defined")))
  }

  /** `unsetValues(keys)` as written: its first `unsetValue` throws, so only
      the empty list gets through, and nothing is ever deleted. */
  function StoreUnsetValuesAsWritten(store: Store, keys: Value): (r: (Store, Outcome<JsError>))
    ensures r.0 == store
    ensures r.1.Pass? <==> keys.Arr? && keys.items == []
    ensures keys.Arr? && keys.items != [] && AllStrings(keys.items) ==> r.1.Fail? && r.1.error.ReferenceError?
  {
    var isArray := AssertUtils.IsArray(keys);
    if isArray.Fail? then (store, isArray)
    else
      var isEqual := AssertUtils.IsEqual(Bool(AllStrings(keys.items)), Bool(true), (a, b) => false);
      if isEqual.Fail? then (store, isEqual)
      else if keys.items == [] then (store, Pass)
      else StoreUnsetAsWritten(store, keys.items[0])
  }

  /** A value just stored cannot be read back as written, while the
      corrected reading finds it: `setValue("k", v)` then `hasValue("k")`
      and `getValue("k")`. */
  lemma StoredValueUnreadableAsWritten(props: seq<Prop>, k: string, v: Value)
    ensures var (s, _) := StoreSet(Some(props), Str(k), v);
      StoreHasAsWritten(s, Str(k)).Err? && StoreHas(s, Str(k)) == Ok(true) &&
      StoreGetAsWritten(s, Str(k)).Err? && StoreGet(s, Str(k)) == Ok(v) &&
      StoreUnsetAsWritten(s, Str(k)).1.Fail? && StoreUnset(s, Str(k)).1.Pass?
  {
    SetPropLookup(props, k, v, k);
  }

  // ---------------------------------------------------------------------
  // Properties.
  // ---------------------------------------------------------------------

  /** A new or cleared cache has no keys, a destroyed one reports none. */
  lemma FreshCacheEmpty()
    ensures Keys(Some([])) == [] && Keys(None) == []
  {
  }

  /** After `setValue(k, v)` the key holds `v`, and every other key holds what
      it held before. */
  lemma SetValueLookup(props: seq<Prop>, k: string, v: Value, k': string)
    ensures var (s, o) := StoreSet(Some(props), Str(k), v);
      o.Pass? && s.Some? && Lookup(s.value, k') == if k' == k then Some(v) else Lookup(props, k')
  {
    SetPropLookup(props, k, v, k');
  }

  /** Reading back: `hasValue` and `getValue` find what `setValue` stored. */
  lemma SetThenGet(store: Store, k: string, v: Value)
    requires store.Some?
    ensures var (s, _) := StoreSet(store, Str(k), v);
      StoreHas(s, Str(k)) == Ok(true) && StoreGet(s, Str(k)) == Ok(v)
  {
    SetPropLookup(store.value, k, v, k);
  }

  /** After `unsetValue(k)` the key is gone and every other key is kept. */
  lemma UnsetValueLookup(store: Store, k: string, k': string)
    requires store.Some?
    ensures var (s, o) := StoreUnset(store, Str(k));
      o.Pass? && s.Some? && Lookup(s.value, k') == if k' == k then None else Lookup(store.value, k')
  {
    RemovePropLookup(store.value, k, k');
  }

  /** Nothing can be stored in a destroyed cache. */
  lemma DestroyedRejects(key: Value, v: Value)
    ensures StoreSet(None, key, v).1.Fail?
    ensures StoreSet(None, key, v).0 == None
  {
  }

  /** `setValues` on a live cache leaves each key of `values` with the value
      the last of its entries gives it and every other key as it was. */
  lemma {:induction false} SetEachLookup(props: seq<Prop>, values: Value, keys: seq<string>, k: string)
    ensures var r := SetEach(Some(props), values, keys);
      && r.1.Pass? && r.0.Some?
      && Lookup(r.0.value, k) == if k in keys then Some(GetOwn(values, k)) else Lookup(props, k)
  {
    if keys != [] {
      var prefix := keys[..|keys| - 1];
      var last := keys[|keys| - 1];
      SetEachLookup(props, values, prefix, k);
      var before := SetEach(Some(props), values, prefix);
      var after := StoreSet(before.0, Str(last), GetOwn(values, last));
      assert SetEach(Some(props), values, keys) == after;
      SetPropLookup(before.0.value, last, GetOwn(values, last), k);
      InSnoc(keys, k);
    }
  }

  /** Membership in a non-empty sequence: in its front part or its last. */
  lemma InSnoc<T>(s: seq<T>, x: T)
    requires s != []
    ensures x in s <==> x in s[..|s| - 1] || x == s[|s| - 1]
  {
    assert s == s[..|s| - 1] + [s[|s| - 1]];
  }

  /** `setValues(obj)` stores each own property of a plain object under its
      name, keeping the other keys. */
  lemma SetValuesLookup(props: seq<Prop>, values: seq<Prop>, k: string)
    ensures var (s, o) := StoreSetValues(Some(props), Obj(values));
      o.Pass? && s.Some? && Lookup(s.value, k) == if k in KeysOf(values) then Lookup(values, k) else Lookup(props, k)
  {
    SetEachLookup(props, Obj(values), KeysOf(values), k);
  }

  // ---------------------------------------------------------------------
  // The cache object.
  // ---------------------------------------------------------------------

  class NrCache {
    var store: Store

    constructor ()
      ensures store == Some([])
    {
      store := Some([]);
    }

    method Clear()
      modifies this
      ensures store == Some([])
    {
      store := Some([]);
    }

    method Destroy()
      modifies this
      ensures store == None
    {
      store := None;
    }

    method GetKeys() returns (keys: seq<string>)
      ensures keys == Keys(store)
    {
      keys := Keys(store);
    }

    method HasValue(key: Value) returns (r: Result<bool, JsError>)
      ensures r == StoreHas(store, key)
    {
      r := StoreHas(store, key);
    }

    method GetValue(key: Value) returns (r: Result<Value, JsError>)
      ensures r == StoreGet(store, key)
    {
      r := StoreGet(store, key);
    }

    method SetValue(key: Value, value: Value) returns (o: Outcome<JsError>)
      modifies this
      ensures (store, o) == StoreSet(old(store), key, value)
    {
      var check := AssertUtils.IsString(key);
      if check.Fail? {
        return check;
      }
      if store.None? {
        return Fail(TypeError("Cannot set properties of undefined"));
      }
      store := Some(SetProp(store.value, key.s, value));
      o := Pass;
    }

    method UnsetValue(key: Value) returns (o: Outcome<JsError>)
      modifies this
      ensures (store, o) == StoreUnset(old(store), key)
    {
      var has := StoreHas(store, key);
      if has.Err? {
        return Fail(has.error);
      }
      if has.value {
        store := Some(RemoveProp(store.value, key.s));
      }
      o := Pass;
    }

    method SetValues(values: Value) returns (o: Outcome<JsError>)
      modifies this
      ensures (store, o) == StoreSetValues(old(store), values)
    {
      var check := AssertUtils.IsObject(values);
      if check.Fail? {
        return check;
      }
      var keys := KeysOf(OwnEntries(values));
      assert StoreSetValues(old(store), values) == SetEach(old(store), values, keys);
      var i := 0;
      o := Pass;
      while i < |keys|
        invariant 0 <= i <= |keys|
        invariant (store, o) == SetEach(old(store), values, keys[..i])
        invariant o.Pass?
      {
        SetEachStep(old(store), values, keys, i);
        o := SetValue(Str(keys[i]), GetOwn(values, keys[i]));
        if o.Fail? {
          SetEachStops(old(store), values, keys, i + 1);
          return;
        }
        i := i + 1;
      }
      assert keys[..i] == keys;
    }

    method UnsetValues(keys: Value) returns (o: Outcome<JsError>)
      modifies this
      ensures (store, o) == StoreUnsetValues(old(store), keys)
    {
      var isArray := AssertUtils.IsArray(keys);
      if isArray.Fail? {
        return isArray;
      }
      var isEqual := AssertUtils.IsEqual(Bool(AllStrings(keys.items)), Bool(true), (a, b) => false);
      if isEqual.Fail? {
        return isEqual;
      }
      var items := keys.items;
      assert StoreUnsetValues(old(store), keys) == UnsetEach(old(store), items);
      var i := 0;
      o := Pass;
      while i < |items|
        invariant 0 <= i <= |items|
        invariant (store, o) == UnsetEach(old(store), items[..i])
        invariant o.Pass?
      {
        UnsetEachStep(old(store), items, i);
        o := UnsetValue(items[i]);
        if o.Fail? {
          UnsetEachStops(old(store), items, i + 1);
          return;
        }
        i := i + 1;
      }
      assert items[..i] == items;
    }
  }

  /** One more key: `setValue` on what the earlier keys left. */
  lemma SetEachStep(store: Store, values: Value, keys: seq<string>, i: nat)
    requires i < |keys| && SetEach(store, values, keys[..i]).1.Pass?
    ensures SetEach(store, values, keys[..i + 1])
      == StoreSet(SetEach(store, values, keys[..i]).0, Str(keys[i]), GetOwn(values, keys[i]))
  {
    assert keys[..i + 1][..i] == keys[..i];
  }

  /** One more key: `unsetValue` on what the earlier keys left. */
  lemma UnsetEachStep(store: Store, keys: seq<Value>, i: nat)
    requires i < |keys| && UnsetEach(store, keys[..i]).1.Pass?
    ensures UnsetEach(store, keys[..i + 1]) == StoreUnset(UnsetEach(store, keys[..i]).0, keys[i])
  {
    assert keys[..i + 1][..i] == keys[..i];
  }

  /** Once `setValues` fails it fails with the same state to the end. */
  lemma {:induction false} SetEachStops(store: Store, values: Value, keys: seq<string>, n: nat)
    requires n <= |keys| && SetEach(store, values, keys[..n]).1.Fail?
    ensures SetEach(store, values, keys) == SetEach(store, values, keys[..n])
    decreases |keys| - n
  {
    if n < |keys| {
      assert keys[..n + 1][..n] == keys[..n];
      SetEachStops(store, values, keys, n + 1);
    } else {
      assert keys[..n] == keys;
    }
  }

  lemma {:induction false} UnsetEachStops(store: Store, keys: seq<Value>, n: nat)
    requires n <= |keys| && UnsetEach(store, keys[..n]).1.Fail?
    ensures UnsetEach(store, keys) == UnsetEach(store, keys[..n])
    decreases |keys| - n
  {
    if n < |keys| {
      assert keys[..n + 1][..n] == keys[..n];
      UnsetEachStops(store, keys, n + 1);
    } else {
      assert keys[..n] == keys;
    }
  }
}
