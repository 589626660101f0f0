/**
 * `ObjectUtils` (src/ObjectUtils.js): the own-property test `has` and
 * `remapObjectKeys`, which renames the properties of an object from one
 * enum's keys to another's.
 */
module ObjectUtils {
  import opened Wrappers
  import opened JsStrings
  import opened JsValues

  /** `has(obj, name)`: `Object.prototype.hasOwnProperty.call(obj, name)`,
      which throws a TypeError for undefined and null. */
  function Has(obj: Value, name: string): (r: Result<bool, JsError>)
    ensures r.Err? <==> obj.Undefined? || obj.Null?
    ensures r.Err? ==> r.error.TypeError?
    ensures obj.Obj? ==> r == Ok(name in KeysOf(obj.props))
    ensures obj.Arr? ==> r == Ok(name == "length" || IsIndexKey(name, |obj.items|))
    ensures obj.Bool? || IsNumber(obj) || obj.Sym? || obj.DateV? || obj.PromiseV? ==> r == Ok(false)
  {
    HasOwn(obj, name)
  }

  /** One property of an enum object: the id and the property name it
      stands for. */
  datatype EnumEntry = EnumEntry(id: string, key: string)

  /** `e[id]` when `e` has the own property `id`. */
  function EnumLookup(e: seq<EnumEntry>, id: string): (r: Option<string>)
    ensures r.None? <==> forall i :: 0 <= i < |e| ==> e[i].id != id
    ensures r.Some? ==> exists i :: 0 <= i < |e| && e[i] == EnumEntry(id, r.value)
  {
    if e == [] then None
    else if e[0].id == id then Some(e[0].key)
    else
      var r := EnumLookup(e[1..], id);
      assert forall i :: 0 < i < |e| ==> e[i] == e[1..][i - 1];
      r
  }

  /** What the reducer does with one id of `fromEnum`: when `toEnum` lacks
      the id it reaches `nrLog.warn`, and `nrLog` is not declared anywhere,
      so it throws a ReferenceError; when `value` has the source property it
      copies it under the target name. */
  function Step(value: Value, toEnum: seq<EnumEntry>, obj: seq<Prop>, entry: EnumEntry): (r: Result<seq<Prop>, JsError>)
  {
    match EnumLookup(toEnum, entry.id)
    case None => Err(ReferenceError("nrLog is not defined"))
    case Some(propertyKey) =>
      match HasOwn(value, entry.key)
      case Err(e) => Err(e)
      case Ok(false) => Ok(obj)
      case Ok(true) => Ok(SetProp(obj, propertyKey, GetOwn(value, entry.key)))
  }

  /** `remapObjectKeys(value, fromEnum, toEnum)` as a fold over the ids of
      `fromEnum`, starting from `{}`. */
  function Remap(value: Value, fromEnum: seq<EnumEntry>, toEnum: seq<EnumEntry>): (r: Result<seq<Prop>, JsError>)
  {
    if fromEnum == [] then Ok([])
    else
      match Remap(value, fromEnum[..|fromEnum| - 1], toEnum)
      case Err(e) => Err(e)
      case Ok(obj) => Step(value, toEnum, obj, fromEnum[|fromEnum| - 1])
  }

  /** The reducer's loop: one object, updated once per id. */
  method RemapObjectKeys(value: Value, fromEnum: seq<EnumEntry>, toEnum: seq<EnumEntry>) returns (r: Result<Value, JsError>)
    ensures Remap(value, fromEnum, toEnum).Ok? ==> r == Ok(Obj(Remap(value, fromEnum, toEnum).value))
    ensures Remap(value, fromEnum, toEnum).Err? ==> r == Err(Remap(value, fromEnum, toEnum).error)
  {
    var obj: seq<Prop> := [];
    var i := 0;
    while i < |fromEnum|
      invariant 0 <= i <= |fromEnum|
      invariant Remap(value, fromEnum[..i], toEnum) == Ok(obj)
    {
      var entry := fromEnum[i];
      assert fromEnum[..i + 1][..i] == fromEnum[..i];
      var propertyKey := EnumLookup(toEnum, entry.id);
      if propertyKey.None? {
        RemapStopsAtError(value, fromEnum, toEnum, i + 1);
        return Err(ReferenceError("nrLog is not defined"));
      }
      var has := HasOwn(value, entry.key);
      if has.Err? {
        RemapStopsAtError(value, fromEnum, toEnum, i + 1);
        return Err(has.error);
      }
      if has.value {
        obj := SetProp(obj, propertyKey.value, GetOwn(value, entry.key));
      }
      i := i + 1;
    }
    assert fromEnum[..i] == fromEnum;
    r := Ok(Obj(obj));
  }

  /** Once the fold throws, it throws the same error to the end. */
  lemma {:induction false} RemapStopsAtError(value: Value, fromEnum: seq<EnumEntry>, toEnum: seq<EnumEntry>, n: nat)
    requires n <= |fromEnum| && Remap(value, fromEnum[..n], toEnum).Err?
    ensures Remap(value, fromEnum, toEnum) == Remap(value, fromEnum[..n], toEnum)
    decreases |fromEnum| - n
  {
    if n < |fromEnum| {
      assert fromEnum[..n + 1][..n] == fromEnum[..n];
      RemapStopsAtError(value, fromEnum, toEnum, n + 1);
    } else {
      assert fromEnum[..n] == fromEnum;
    }
  }

  // ---------------------------------------------------------------------
  // Properties.
  // ---------------------------------------------------------------------

  predicate Nullish(v: Value) {
    v.Undefined? || v.Null?
  }

  /** The id `entry` contributes the target property `k`: `toEnum` names it
      `k` and `value` has the source property. */
  predicate Contributes(value: Value, toEnum: seq<EnumEntry>, entry: EnumEntry, k: string) {
    EnumLookup(toEnum, entry.id) == Some(k) && HasOwn(value, entry.key) == Ok(true)
  }

  /** The value the last id contributing `k` copies, if any does. */
  function LastContribution(value: Value, fromEnum: seq<EnumEntry>, toEnum: seq<EnumEntry>, k: string): (r: Option<Value>)
    ensures r.None? <==> forall i :: 0 <= i < |fromEnum| ==> !Contributes(value, toEnum, fromEnum[i], k)
    ensures r.Some? ==> exists i :: ContributesLast(value, fromEnum, toEnum, k, i) && r.value == GetOwn(value, fromEnum[i].key)
  {
    if fromEnum == [] then None
    else
      var prefix := fromEnum[..|fromEnum| - 1];
      var last := fromEnum[|fromEnum| - 1];
      NoContributorSplit(value, fromEnum, toEnum, k, prefix);
      if Contributes(value, toEnum, last, k) then
        assert ContributesLast(value, fromEnum, toEnum, k, |fromEnum| - 1);
        Some(GetOwn(value, last.key))
      else
        var r := LastContribution(value, prefix, toEnum, k);
        assert r.Some? ==> exists i :: ContributesLast(value, fromEnum, toEnum, k, i) && r.value == GetOwn(value, fromEnum[i].key) by {
          if r.Some? {
            var i :| ContributesLast(value, prefix, toEnum, k, i) && r.value == GetOwn(value, prefix[i].key);
            ContributesLastExtend(value, fromEnum, toEnum, k, i);
          }
        }
        r
  }

  /** No id contributes exactly when none of the prefix does and the last
      does not. */
  lemma NoContributorSplit(value: Value, fromEnum: seq<EnumEntry>, toEnum: seq<EnumEntry>, k: string, prefix: seq<EnumEntry>)
    requires fromEnum != [] && prefix == fromEnum[..|fromEnum| - 1]
    ensures (forall i :: 0 <= i < |fromEnum| ==> !Contributes(value, toEnum, fromEnum[i], k)) <==>
      (forall i :: 0 <= i < |prefix| ==> !Contributes(value, toEnum, prefix[i], k)) &&
      !Contributes(value, toEnum, fromEnum[|fromEnum| - 1], k)
  {
    assert forall i :: 0 <= i < |prefix| ==> prefix[i] == fromEnum[i];
  }

  /** An id that contributes last to a prefix still does when the next id
      does not contribute. */
  lemma ContributesLastExtend(value: Value, fromEnum: seq<EnumEntry>, toEnum: seq<EnumEntry>, k: string, i: int)
    requires fromEnum != [] && ContributesLast(value, fromEnum[..|fromEnum| - 1], toEnum, k, i)
    requires !Contributes(value, toEnum, fromEnum[|fromEnum| - 1], k)
    ensures ContributesLast(value, fromEnum, toEnum, k, i)
  {
    var prefix := fromEnum[..|fromEnum| - 1];
    assert fromEnum == prefix + [fromEnum[|fromEnum| - 1]];
  }

  /** `fromEnum[i]` contributes `k` and no later id does. */
  predicate ContributesLast(value: Value, fromEnum: seq<EnumEntry>, toEnum: seq<EnumEntry>, k: string, i: int) {
    0 <= i < |fromEnum| && Contributes(value, toEnum, fromEnum[i], k) &&
    forall j :: i < j < |fromEnum| ==> !Contributes(value, toEnum, fromEnum[j], k)
  }

  /** The remapped object holds under each target name what the last id
      contributing it copied, and nothing under a name no id contributes.
      So its names all come from `toEnum`, a source property `value` lacks
      adds nothing, and when two ids share a target the later one wins. */
  lemma {:induction false} RemapLookup(value: Value, fromEnum: seq<EnumEntry>, toEnum: seq<EnumEntry>, k: string)
    requires Remap(value, fromEnum, toEnum).Ok?
    ensures Lookup(Remap(value, fromEnum, toEnum).value, k) == LastContribution(value, fromEnum, toEnum, k)
  {
    if fromEnum != [] {
      var prefix := fromEnum[..|fromEnum| - 1];
      var last := fromEnum[|fromEnum| - 1];
      RemapLookup(value, prefix, toEnum, k);
      var obj := Remap(value, prefix, toEnum).value;
      var propertyKey := EnumLookup(toEnum, last.id).value;
      if HasOwn(value, last.key) == Ok(true) {
        SetPropLookup(obj, propertyKey, GetOwn(value, last.key), k);
      }
    }
  }

  /** A target name in the output is the `toEnum` name of some id of
      `fromEnum`. */
  lemma RemapKeysFromTarget(value: Value, fromEnum: seq<EnumEntry>, toEnum: seq<EnumEntry>, k: string)
    requires Remap(value, fromEnum, toEnum).Ok?
    requires k in KeysOf(Remap(value, fromEnum, toEnum).value)
    ensures exists i :: 0 <= i < |fromEnum| && EnumLookup(toEnum, fromEnum[i].id) == Some(k)
  {
    RemapLookup(value, fromEnum, toEnum, k);
    var i :| ContributesLast(value, fromEnum, toEnum, k, i);
  }

  /** The output names each property once. */
  lemma {:induction false} RemapDistinct(value: Value, fromEnum: seq<EnumEntry>, toEnum: seq<EnumEntry>)
    requires Remap(value, fromEnum, toEnum).Ok?
    ensures DistinctKeys(Remap(value, fromEnum, toEnum).value)
  {
    if fromEnum != [] {
      var prefix := fromEnum[..|fromEnum| - 1];
      var last := fromEnum[|fromEnum| - 1];
      RemapDistinct(value, prefix, toEnum);
      var obj := Remap(value, prefix, toEnum).value;
      if HasOwn(value, last.key) == Ok(true) {
        SetPropDistinct(obj, EnumLookup(toEnum, last.id).value, GetOwn(value, last.key));
      }
    }
  }

  /** `toEnum` has every id of `fromEnum`. */
  predicate AllIdsPresent(fromEnum: seq<EnumEntry>, toEnum: seq<EnumEntry>) {
    forall i :: 0 <= i < |fromEnum| ==> EnumLookup(toEnum, fromEnum[i].id).Some?
  }

  lemma AllIdsPresentSplit(fromEnum: seq<EnumEntry>, toEnum: seq<EnumEntry>, prefix: seq<EnumEntry>)
    requires fromEnum != [] && prefix == fromEnum[..|fromEnum| - 1]
    ensures AllIdsPresent(fromEnum, toEnum) <==>
      AllIdsPresent(prefix, toEnum) && EnumLookup(toEnum, fromEnum[|fromEnum| - 1].id).Some?
  {
    assert forall i :: 0 <= i < |prefix| ==> prefix[i] == fromEnum[i];
  }

  /** When `value` is neither undefined nor null, the remap succeeds exactly
      when `toEnum` has every id of `fromEnum`, and otherwise throws the
      ReferenceError of the undeclared logger. */
  lemma {:induction false} RemapErrors(value: Value, fromEnum: seq<EnumEntry>, toEnum: seq<EnumEntry>)
    requires !Nullish(value)
    ensures Remap(value, fromEnum, toEnum).Ok? <==> AllIdsPresent(fromEnum, toEnum)
    ensures Remap(value, fromEnum, toEnum).Err? ==> Remap(value, fromEnum, toEnum).error.ReferenceError?
  {
    if fromEnum != [] {
      var prefix := fromEnum[..|fromEnum| - 1];
      RemapErrors(value, prefix, toEnum);
      AllIdsPresentSplit(fromEnum, toEnum, prefix);
      assert HasOwn(value, fromEnum[|fromEnum| - 1].key).Ok?;
    }
  }

  /** When `toEnum` has every id and `value` is undefined or null, the first
      id throws the TypeError of `hasOwnProperty`. */
  lemma {:induction false} RemapNullish(value: Value, fromEnum: seq<EnumEntry>, toEnum: seq<EnumEntry>)
    requires Nullish(value) && fromEnum != [] && AllIdsPresent(fromEnum, toEnum)
    ensures Remap(value, fromEnum, toEnum).Err? && Remap(value, fromEnum, toEnum).error.TypeError?
  {
    var prefix := fromEnum[..|fromEnum| - 1];
    AllIdsPresentSplit(fromEnum, toEnum, prefix);
    if prefix != [] {
      RemapNullish(value, prefix, toEnum);
    } else {
      assert EnumLookup(toEnum, fromEnum[0].id).Some?;
    }
  }
}
