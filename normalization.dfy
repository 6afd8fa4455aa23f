/** When can a value read back from the store be stored again? When every
    object node lists each of its properties once in `keyOrder`, and every
    union variant writes its own name into the field the union dispatches
    on, the normal form of a value has the value's JSON type again. */
module Normalization {
  import opened Wrappers
  import opened StoreTypes
  import opened JsonValues
  import opened NodeKinds
  import Codec

  predicate DistinctStrings(names: seq<string>) {
    forall i, j :: 0 <= i < j < |names| ==> names[i] != names[j]
  }

  /** `v` writes its own name into field `field` of its normal form: a
      wrapped node through `type`, an object through a literal property. */
  predicate SelfTagged(v: Kind, field: string) {
    || (v.Wrapped? && field == "type")
    || (v.Object? && field in v.keyOrder && PropIndex(v.props, field).Some?
        && Codec.PropKind(v, field).Literal? && Codec.PropKind(v, field).value == PString(v.typeName))
  }

  /** Every object lists each declared property exactly once, and every
      union variant tags itself. */
  predicate Complete(k: Kind)
    decreases k, 0
  {
    match k
    case Primitive(_, _) => true
    case Literal(_, _) => true
    case Text(_) => true
    case Wrapped(_, _, child) => Complete(child)
    case Array(_, child) => Complete(child)
    case Object(_, props, keyOrder) =>
      && DistinctStrings(keyOrder)
      && (forall i :: 0 <= i < |props| ==> props[i].0 in keyOrder && Complete(props[i].1))
    case Union(_, variants, field) =>
      forall i :: 0 <= i < |variants| ==> SelfTagged(variants[i], field) && Complete(variants[i])
    case Root(_, child) => Complete(child)
  }

  /** The property `keyOrder[m]` of a value that fits from `from` on. */
  lemma {:induction false} FitsPropsAt(k: Kind, from: nat, json: Json, typed: bool, m: nat)
    requires k.Object? && WellFormed(k) && from <= m < |k.keyOrder| && FitsProps(k, from, json, typed)
    ensures PropIndex(k.props, k.keyOrder[m]).Some?
    ensures Get(json, k.keyOrder[m]).Some? && Fits(Codec.PropKind(k, k.keyOrder[m]), Get(json, k.keyOrder[m]).value, typed)
    decreases m - from
  {
    if m > from {
      FitsPropsAt(k, from + 1, json, typed, m);
    }
  }

  /** In the normalised property list, `keyOrder[m]` holds the normal form
      of the value's property. */
  lemma LookupNormalizeProps(k: Kind, from: nat, json: Json, m: nat)
    requires k.Object? && WellFormed(k) && from <= m < |k.keyOrder| && DistinctStrings(k.keyOrder)
    requires FitsProps(k, from, json, false)
    ensures Get(json, k.keyOrder[m]).Some? && Fits(Codec.PropKind(k, k.keyOrder[m]), Get(json, k.keyOrder[m]).value, false)
    ensures Lookup(NormalizeProps(k, from, json), k.keyOrder[m])
        == Some(Normalize(Codec.PropKind(k, k.keyOrder[m]), Get(json, k.keyOrder[m]).value))
  {
    FitsPropsAt(k, from, json, false, m);
    var r := NormalizeProps(k, from, json);
    NormalizePropsAt(k, from, json, m);
    NormalizePropsDistinct(k, from, json);
    LookupDistinct(r, m - from);
  }

  lemma NormalizePropsDistinct(k: Kind, from: nat, json: Json)
    requires k.Object? && WellFormed(k) && from <= |k.keyOrder| && DistinctStrings(k.keyOrder)
    requires FitsProps(k, from, json, false)
    ensures DistinctNames(NormalizeProps(k, from, json))
  {
    var r := NormalizeProps(k, from, json);
    forall i, j | 0 <= i < j < |r| ensures r[i].0 != r[j].0 {
      assert r[i].0 == k.keyOrder[from + i] && r[j].0 == k.keyOrder[from + j];
    }
  }

  /** The entry for `keyOrder[m]` holds the normal form of the value's
      property. */
  lemma {:induction false} NormalizePropsAt(k: Kind, from: nat, json: Json, m: nat)
    requires k.Object? && WellFormed(k) && from <= m < |k.keyOrder| && FitsProps(k, from, json, false)
    ensures PropIndex(k.props, k.keyOrder[m]).Some? && Get(json, k.keyOrder[m]).Some?
    ensures Fits(Codec.PropKind(k, k.keyOrder[m]), Get(json, k.keyOrder[m]).value, false)
    ensures NormalizeProps(k, from, json)[m - from]
        == (k.keyOrder[m], Normalize(Codec.PropKind(k, k.keyOrder[m]), Get(json, k.keyOrder[m]).value))
    decreases m - from
  {
    if m == from {
      NormalizePropsHead(k, from, json);
    } else {
      NormalizePropsAt(k, from + 1, json, m);
      NormalizePropsTail(k, from, json);
      IndexTail(NormalizeProps(k, from, json), NormalizeProps(k, from + 1, json), m - from);
    }
  }

  /** The first entry of the normalised list. */
  lemma NormalizePropsHead(k: Kind, from: nat, json: Json)
    requires k.Object? && WellFormed(k) && from < |k.keyOrder| && FitsProps(k, from, json, false)
    ensures PropIndex(k.props, k.keyOrder[from]).Some? && Get(json, k.keyOrder[from]).Some?
    ensures Fits(Codec.PropKind(k, k.keyOrder[from]), Get(json, k.keyOrder[from]).value, false)
    ensures NormalizeProps(k, from, json)[0]
        == (k.keyOrder[from], Normalize(Codec.PropKind(k, k.keyOrder[from]), Get(json, k.keyOrder[from]).value))
  {
  }

  /** The normalised list after its first entry. */
  lemma NormalizePropsTail(k: Kind, from: nat, json: Json)
    requires k.Object? && WellFormed(k) && from < |k.keyOrder| && FitsProps(k, from, json, false)
    ensures NormalizeProps(k, from, json)[1..] == NormalizeProps(k, from + 1, json)
  {
    var r := NormalizeProps(k, from, json);
    var rest := NormalizeProps(k, from + 1, json);
    forall i | 0 <= i < |rest| ensures r[1..][i] == rest[i] {
    }
  }

  lemma IndexTail<T>(r: seq<T>, rest: seq<T>, i: nat)
    requires 0 < i < |r| && r[1..] == rest
    ensures r[i] == rest[i - 1]
  {
  }

  /** With distinct names, the normalised object is exactly its list. */
  lemma NormalizedObject(k: Kind, json: Json)
    requires k.Object? && WellFormed(k) && DistinctStrings(k.keyOrder) && Fits(k, json, false)
    ensures Normalize(k, json) == JObj(NormalizeProps(k, 0, json))
  {
    var entries := NormalizeProps(k, 0, json);
    assert DistinctNames(entries) by {
      forall i, j | 0 <= i < j < |entries| ensures entries[i].0 != entries[j].0 {
        assert entries[i].0 == k.keyOrder[i] && entries[j].0 == k.keyOrder[j];
      }
    }
    FromEntriesOfDistinct(entries);
  }

  /** The normal form of a typed value is typed again. */
  lemma {:induction false} NormalizeFits(k: Kind, json: Json)
    requires WellFormed(k) && Complete(k) && Fits(k, json, false) && Fits(k, json, true)
    ensures Fits(k, Normalize(k, json), true) && Fits(k, Normalize(k, json), false)
    decreases k, 2, 0
  {
    match k
    case Primitive(_, _) =>
    case Literal(_, _) =>
    case Text(_) =>
    case Wrapped(_, tag, child) =>
      var v := Get(json, "value").value;
      NormalizeFits(child, v);
      var fields := [("type", JString(tag)), ("value", Normalize(child, v))];
      assert fields[0].0 != "value" by { assert fields[0].0[0] != "value"[0]; }
      assert Lookup(fields[1..], "value") == Some(Normalize(child, v));
    case Array(_, child) =>
      NormalizeItemsFit(k, json.items);
      assert Normalize(k, json).items == NormalizeItems(k, json.items);
    case Object(_, _, _) =>
      NormalizedObject(k, json);
      NormalizePropsFit(k, json);
    case Union(_, variants, field) =>
      if VariantOf(k, json).Some? {
        var i := VariantOf(k, json).value;
        NormalizeFits(variants[i], json);
        NormalizeKeepsTag(variants[i], field, json);
        assert VariantOf(k, Normalize(variants[i], json)) == Some(i);
      }
    case Root(_, child) =>
      NormalizeFits(child, json);
  }

  lemma {:induction false} NormalizeItemsFit(k: Kind, items: seq<Json>)
    requires k.Array? && WellFormed(k) && Complete(k)
    requires forall i :: 0 <= i < |items| ==> Fits(k.child, items[i], false) && Fits(k.child, items[i], true)
    ensures var r := NormalizeItems(k, items);
      forall i :: 0 <= i < |r| ==> Fits(k.child, r[i], true) && Fits(k.child, r[i], false)
    decreases k, 1, |items|
  {
    if |items| > 0 {
      NormalizeFits(k.child, items[0]);
      NormalizeItemsFit(k, items[1..]);
      var r := NormalizeItems(k, items);
      forall i | 0 <= i < |r| ensures Fits(k.child, r[i], true) && Fits(k.child, r[i], false) {
        if i > 0 {
          assert r[i] == NormalizeItems(k, items[1..])[i - 1];
        }
      }
    }
  }

  /** Every property fits in the normalised object. */
  lemma NormalizePropsFit(k: Kind, json: Json)
    requires k.Object? && WellFormed(k) && Complete(k)
    requires Fits(k, json, false) && Fits(k, json, true)
    ensures FitsProps(k, 0, JObj(NormalizeProps(k, 0, json)), true)
    ensures FitsProps(k, 0, JObj(NormalizeProps(k, 0, json)), false)
    decreases k, 1, 0
  {
    var n := JObj(NormalizeProps(k, 0, json));
    forall m | 0 <= m < |k.keyOrder| ensures PropFits(k, m, n, true) && PropFits(k, m, n, false) {
      NormalizedPropFits(k, m, json);
    }
    FitsPropsOfAll(k, 0, n, true);
    FitsPropsOfAll(k, 0, n, false);
  }

  /** The property `keyOrder[m]` of `json` is present and fits its node
      type. */
  predicate PropFits(k: Kind, m: nat, json: Json, typed: bool)
    requires k.Object? && WellFormed(k) && m < |k.keyOrder|
  {
    var j := PropIndex(k.props, k.keyOrder[m]);
    var v := Get(json, k.keyOrder[m]);
    j.Some? && v.Some? && Fits(k.props[j.value].1, v.value, typed)
  }

  /** A value whose properties each fit, from `from` on, fits from `from`
      on. */
  lemma {:induction false} FitsPropsOfAll(k: Kind, from: nat, json: Json, typed: bool)
    requires k.Object? && WellFormed(k) && from <= |k.keyOrder|
    requires forall m :: from <= m < |k.keyOrder| ==> PropFits(k, m, json, typed)
    ensures FitsProps(k, from, json, typed)
    decreases |k.keyOrder| - from
  {
    if from < |k.keyOrder| {
      FitsPropsOfAll(k, from + 1, json, typed);
      FitsPropsStep(k, from, json, typed);
    }
  }

  lemma FitsPropsStep(k: Kind, from: nat, json: Json, typed: bool)
    requires k.Object? && WellFormed(k) && from < |k.keyOrder|
    requires PropFits(k, from, json, typed) && FitsProps(k, from + 1, json, typed)
    ensures FitsProps(k, from, json, typed)
  {
  }

  /** The property `keyOrder[m]` of the normalised object fits. */
  lemma NormalizedPropFits(k: Kind, m: nat, json: Json)
    requires k.Object? && WellFormed(k) && Complete(k) && m < |k.keyOrder|
    requires Fits(k, json, false) && Fits(k, json, true)
    ensures PropFits(k, m, JObj(NormalizeProps(k, 0, json)), true)
    ensures PropFits(k, m, JObj(NormalizeProps(k, 0, json)), false)
    decreases k, 0, 0
  {
    var name := k.keyOrder[m];
    FitsPropsAt(k, 0, json, true, m);
    FitsPropsAt(k, 0, json, false, m);
    LookupNormalizeProps(k, 0, json, m);
    var j := PropIndex(k.props, name).value;
    assert Complete(k.props[j].1);
    NormalizeFits(k.props[j].1, Get(json, name).value);
  }

  /** Normalising twice is normalising once: a value read back from the
      store is its own normal form, so storing and reading it again gives
      it back unchanged. */
  lemma {:induction false} NormalizeIdempotent(k: Kind, json: Json)
    requires WellFormed(k) && Complete(k) && Fits(k, json, false) && Fits(k, json, true)
    ensures Fits(k, Normalize(k, json), false) && Fits(k, Normalize(k, json), true)
    ensures Normalize(k, Normalize(k, json)) == Normalize(k, json)
    decreases k, 2, 0
  {
    NormalizeFits(k, json);
    match k
    case Primitive(_, _) =>
    case Literal(_, _) =>
    case Text(_) =>
    case Wrapped(_, tag, child) =>
      var v := Get(json, "value").value;
      NormalizeFits(child, v);
      NormalizeIdempotent(child, v);
      var fields := [("type", JString(tag)), ("value", Normalize(child, v))];
      assert fields[0].0 != "value" by { assert fields[0].0[0] != "value"[0]; }
      assert Lookup(fields[1..], "value") == Some(Normalize(child, v));
    case Array(_, child) =>
      NormalizeItemsIdempotent(k, json.items);
      assert Normalize(k, json).items == NormalizeItems(k, json.items);
    case Object(_, _, _) =>
      NormalizedObject(k, json);
      var n := Normalize(k, json);
      NormalizedObject(k, n);
      var once := NormalizeProps(k, 0, json);
      var twice := NormalizeProps(k, 0, n);
      forall m | 0 <= m < |k.keyOrder| ensures twice[m] == once[m] {
        NormalizedPropIdempotent(k, m, json);
      }
      assert twice == once;
    case Union(_, variants, field) =>
      var i := VariantOf(k, json).value;
      NormalizeIdempotent(variants[i], json);
      NormalizeKeepsTag(variants[i], field, json);
      assert VariantOf(k, Normalize(variants[i], json)) == Some(i);
    case Root(_, child) =>
      NormalizeIdempotent(child, json);
  }

  lemma {:induction false} NormalizeItemsIdempotent(k: Kind, items: seq<Json>)
    requires k.Array? && WellFormed(k) && Complete(k)
    requires forall i :: 0 <= i < |items| ==> Fits(k.child, items[i], false) && Fits(k.child, items[i], true)
    ensures var r := NormalizeItems(k, items);
      && (forall i :: 0 <= i < |r| ==> Fits(k.child, r[i], false))
      && NormalizeItems(k, r) == r
    decreases k, 1, |items|
  {
    NormalizeItemsFit(k, items);
    if |items| > 0 {
      NormalizeIdempotent(k.child, items[0]);
      NormalizeItemsIdempotent(k, items[1..]);
      var r := NormalizeItems(k, items);
      assert r[1..] == NormalizeItems(k, items[1..]);
    }
  }

  /** The property `keyOrder[m]` of the normalised object is already in
      normal form. */
  lemma NormalizedPropIdempotent(k: Kind, m: nat, json: Json)
    requires k.Object? && WellFormed(k) && Complete(k) && m < |k.keyOrder|
    requires Fits(k, json, false) && Fits(k, json, true)
    requires Fits(k, Normalize(k, json), false)
    ensures NormalizeProps(k, 0, Normalize(k, json))[m] == NormalizeProps(k, 0, json)[m]
    decreases k, 0, 0
  {
    var name := k.keyOrder[m];
    NormalizedObject(k, json);
    FitsPropsAt(k, 0, json, true, m);
    LookupNormalizeProps(k, 0, json, m);
    NormalizePropsAt(k, 0, json, m);
    NormalizePropsAt(k, 0, Normalize(k, json), m);
    var j := PropIndex(k.props, name).value;
    assert Complete(k.props[j].1);
    NormalizeIdempotent(k.props[j].1, Get(json, name).value);
  }

  /** A self-tagged variant keeps its tag through normalisation. */
  lemma NormalizeKeepsTag(v: Kind, field: string, json: Json)
    requires WellFormed(v) && !v.Root? && RecordedName(v) == v.typeName && Complete(v)
    requires SelfTagged(v, field) && Fits(v, json, false) && Fits(v, json, true)
    ensures TagOf(Normalize(v, json), field) == Some(v.typeName)
  {
    if v.Object? {
      ObjectKeepsTag(v, field, json);
    }
  }

  lemma ObjectKeepsTag(v: Kind, field: string, json: Json)
    requires v.Object? && WellFormed(v) && DistinctStrings(v.keyOrder)
    requires SelfTagged(v, field) && Fits(v, json, false) && Fits(v, json, true)
    ensures TagOf(Normalize(v, json), field) == Some(v.typeName)
  {
    var m :| 0 <= m < |v.keyOrder| && v.keyOrder[m] == field;
    NormalizedObject(v, json);
    LookupNormalizeProps(v, 0, json, m);
    FitsPropsAt(v, 0, json, true, m);
  }
}
