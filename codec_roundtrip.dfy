/** Reading back what `store` wrote: `toJsonValue` of the key `store`
    returned gives the value's normal form, in any state that agrees on
    the keys `store` wrote (later inserts do not disturb it). */
module CodecRoundTrip {
  import opened Wrappers
  import opened Decimal
  import opened StoreTypes
  import opened Guards
  import opened JsonValues
  import opened Store
  import opened NodeKinds
  import opened Codec
  import opened CodecShape

  /** A state that agrees with `Record(c, …)` from `lo` on agrees with `c`
      on the keys above the recorded one. */
  lemma AgreeBelowRecord(c: Snapshot, n: nat, typeName: string, parent: Key, v: FlatValue, st': Snapshot, lo: nat)
    requires lo <= n
    requires Agree(Record(c, NatToDecimal(n), typeName, parent, v), st', lo, c.lastKeyNumber)
    ensures Agree(c, st', n, c.lastKeyNumber)
  {
    var r := Record(c, NatToDecimal(n), typeName, parent, v);
    RecordAgree(c, n, typeName, parent, v, c.lastKeyNumber);
    AgreeNarrow(r, st', lo, c.lastKeyNumber, n, c.lastKeyNumber);
    AgreeTransitive(c, r, st', n, c.lastKeyNumber);
  }

  /** A state that agrees with an extension of `a` agrees with `a` on the
      keys `a` numbered above `lo`. */
  lemma AgreeBeforeExtension(a: Snapshot, b: Snapshot, st': Snapshot, lo: nat)
    requires Extends(a, b) && lo <= a.lastKeyNumber
    requires Agree(b, st', lo, b.lastKeyNumber)
    ensures Agree(a, st', lo, a.lastKeyNumber)
  {
    ExtendsAgree(a, b, lo);
    AgreeNarrow(b, st', lo, b.lastKeyNumber, lo, a.lastKeyNumber);
    AgreeTransitive(a, b, st', lo, a.lastKeyNumber);
  }

  /** The stored value of a node is what the agreeing state holds. */
  lemma ReadsRecorded(o: Snapshot, st': Snapshot, lo: nat, n: nat)
    requires Agree(o, st', lo, o.lastKeyNumber) && lo < n <= o.lastKeyNumber
    ensures SameAt(o, st', NatToDecimal(n))
  {
  }

  /** `toJsonValue(store(json))` is the normal form of `json`. */
  lemma {:induction false} RoundTrip(k: Kind, json: Json, parent: Key, st: Snapshot, st': Snapshot)
    requires WellFormed(k) && !k.Root? && Fits(k, json, false) && Fits(k, json, true)
    requires var o := Encode(k, json, parent, st);
      o.result.Success? && Agree(o.after, st', st.lastKeyNumber, o.after.lastKeyNumber)
    ensures Decode(k, st', Encode(k, json, parent, st).result.value) == Success(Normalize(k, json))
    decreases k, 3, 0
  {
    var o := Encode(k, json, parent, st);
    EncodeShape(k, json, parent, st);
    ReadsRecorded(o.after, st', st.lastKeyNumber, st.lastKeyNumber + 1);
    match k
    case Primitive(_, _) =>
    case Literal(_, _) =>
    case Text(_) =>
    case Wrapped(_, _, _) => RoundTripWrapped(k, json, parent, st, st');
    case Array(_, _) => RoundTripArray(k, json, parent, st, st');
    case Object(_, _, _) => RoundTripObject(k, json, parent, st, st');
    case Union(_, _, _) => RoundTripUnion(k, json, parent, st, st');
  }

  lemma {:induction false} RoundTripWrapped(k: Kind, json: Json, parent: Key, st: Snapshot, st': Snapshot)
    requires k.Wrapped? && WellFormed(k) && Fits(k, json, false) && Fits(k, json, true)
    requires var o := Encode(k, json, parent, st);
      o.result.Success? && Agree(o.after, st', st.lastKeyNumber, o.after.lastKeyNumber)
    ensures Decode(k, st', Encode(k, json, parent, st).result.value) == Success(Normalize(k, json))
    decreases k, 2, 0
  {
    var o := Encode(k, json, parent, st);
    var a := NextKey(st);
    var v := Get(json, "value").value;
    var c := Encode(k.child, v, a.key, a.after);
    WrappedStored(k, json, parent, st, st');
    RoundTrip(k.child, v, a.key, a.after, st');
    DecodeWrappedStep(k, st', o.result.value, c.result.value, Normalize(k.child, v));
  }

  /** What a wrapped node's `store` leaves for reading: its value is the
      child's key, and the reading state agrees with the child's writes. */
  lemma WrappedStored(k: Kind, json: Json, parent: Key, st: Snapshot, st': Snapshot)
    requires k.Wrapped? && WellFormed(k) && Fits(k, json, false)
    requires var o := Encode(k, json, parent, st);
      o.result.Success? && Agree(o.after, st', st.lastKeyNumber, o.after.lastKeyNumber)
    ensures var o := Encode(k, json, parent, st);
      var a := NextKey(st);
      var c := Encode(k.child, Get(json, "value").value, a.key, a.after);
      && c.result.Success?
      && GetFlatValue(k, st', o.result.value) == Success(KeyValue(c.result.value))
      && Agree(c.after, st', a.after.lastKeyNumber, c.after.lastKeyNumber)
  {
    var o := Encode(k, json, parent, st);
    var a := NextKey(st);
    var v := Get(json, "value").value;
    var c := Encode(k.child, v, a.key, a.after);
    EncodeShape(k.child, v, a.key, a.after);
    assert a.key == NatToDecimal(st.lastKeyNumber + 1);
    assert o.after == Record(c.after, NatToDecimal(st.lastKeyNumber + 1), k.tag, parent, KeyValue(c.result.value));
    WrappedValueRead(k, o.after, st', st.lastKeyNumber, c.result.value);
    AgreeBelowRecord(c.after, st.lastKeyNumber + 1, k.tag, parent, KeyValue(c.result.value), st', st.lastKeyNumber);
  }

  /** The value of the wrapped node recorded first after `lo` reads back in
      an agreeing state. */
  lemma WrappedValueRead(k: Kind, o: Snapshot, st': Snapshot, lo: nat, childKey: Key)
    requires k.Wrapped? && Agree(o, st', lo, o.lastKeyNumber) && lo + 1 <= o.lastKeyNumber
    requires IsDigitString(childKey) && DigitsValue(childKey) == lo + 2
    requires var key := NatToDecimal(lo + 1);
      key in o.values && o.values[key] == KeyValue(childKey)
    ensures GetFlatValue(k, st', NatToDecimal(lo + 1)) == Success(KeyValue(childKey))
  {
    GeneratedKeyIsNonRoot(lo + 2);
    KeyValueRoundTrip(childKey);
    ReadsRecorded(o, st', lo, lo + 1);
  }

  /** Reading a wrapped node whose child reads as `child`. */
  lemma DecodeWrappedStep(k: Kind, st': Snapshot, key: Key, childKey: Key, child: Json)
    requires k.Wrapped?
    requires GetFlatValue(k, st', key) == Success(KeyValue(childKey))
    requires Decode(k.child, st', childKey) == Success(child)
    ensures Decode(k, st', key) == Success(JObj([("type", JString(k.tag)), ("value", child)]))
  {
    KeyValueRoundTrip(childKey);
  }

  lemma {:induction false} RoundTripUnion(k: Kind, json: Json, parent: Key, st: Snapshot, st': Snapshot)
    requires k.Union? && WellFormed(k) && Fits(k, json, false) && Fits(k, json, true)
    requires var o := Encode(k, json, parent, st);
      o.result.Success? && Agree(o.after, st', st.lastKeyNumber, o.after.lastKeyNumber)
    ensures Decode(k, st', Encode(k, json, parent, st).result.value) == Success(Normalize(k, json))
    decreases k, 2, 0
  {
    var o := Encode(k, json, parent, st);
    var i := VariantOf(k, json).value;
    var variant := k.variants[i];
    var a := NextKey(st);
    var c := Encode(variant, json, a.key, a.after);
    UnionStored(k, json, parent, st, st');
    RoundTrip(variant, json, a.key, a.after, st');
    DecodeUnionStep(k, st', o.result.value, c.result.value, i, Normalize(variant, json));
  }

  /** What a union node's `store` leaves for reading: its value is the key
      of the variant's node, recorded under the variant's name, and the
      reading state agrees with the variant's writes. */
  lemma UnionStored(k: Kind, json: Json, parent: Key, st: Snapshot, st': Snapshot)
    requires k.Union? && WellFormed(k) && Fits(k, json, false) && VariantOf(k, json).Some?
    requires var o := Encode(k, json, parent, st);
      o.result.Success? && Agree(o.after, st', st.lastKeyNumber, o.after.lastKeyNumber)
    ensures var o := Encode(k, json, parent, st);
      var i := VariantOf(k, json).value;
      var a := NextKey(st);
      var c := Encode(k.variants[i], json, a.key, a.after);
      && c.result.Success?
      && GetFlatValue(k, st', o.result.value) == Success(KeyValue(c.result.value))
      && GetTypeName(st', c.result.value) == Success(k.variants[i].typeName)
      && FindVariant(k.variants, k.variants[i].typeName) == Some(i)
      && Agree(c.after, st', a.after.lastKeyNumber, c.after.lastKeyNumber)
  {
    var o := Encode(k, json, parent, st);
    var i := VariantOf(k, json).value;
    var variant := k.variants[i];
    var a := NextKey(st);
    var c := Encode(variant, json, a.key, a.after);
    EncodeShape(variant, json, a.key, a.after);
    assert a.key == NatToDecimal(st.lastKeyNumber + 1);
    assert o.after == Record(c.after, NatToDecimal(st.lastKeyNumber + 1), k.typeName, parent, KeyValue(c.result.value));
    UnionRecorded(k, i, st.lastKeyNumber, c.after, c.result.value, parent, st');
    assert FindVariant(k.variants, variant.typeName) == Some(i);
  }

  /** A union node recorded over the state its variant's `store` left
      reads back, in an agreeing state, as the key of the variant's node,
      whose type name is the variant's. */
  lemma UnionRecorded(k: Kind, i: nat, lo: nat, c: Snapshot, childKey: Key, parent: Key, st': Snapshot)
    requires k.Union? && i < |k.variants| && RecordedName(k.variants[i]) == k.variants[i].typeName
    requires childKey == NatToDecimal(lo + 2) && lo + 2 <= c.lastKeyNumber
    requires StoredUnder(c, childKey, NatToDecimal(lo + 1), RecordedName(k.variants[i]))
    requires var o := Record(c, NatToDecimal(lo + 1), k.typeName, parent, KeyValue(childKey));
      Agree(o, st', lo, o.lastKeyNumber)
    ensures GetFlatValue(k, st', NatToDecimal(lo + 1)) == Success(KeyValue(childKey))
    ensures GetTypeName(st', childKey) == Success(k.variants[i].typeName)
    ensures Agree(c, st', lo + 1, c.lastKeyNumber)
  {
    var o := Record(c, NatToDecimal(lo + 1), k.typeName, parent, KeyValue(childKey));
    DecimalInjective(lo + 1, lo + 2);
    assert Find(o.typeNames, childKey) == Some(k.variants[i].typeName);
    UnionValueRead(k, o, st', lo, childKey, k.variants[i].typeName);
    AgreeBelowRecord(c, lo + 1, k.typeName, parent, KeyValue(childKey), st', lo);
  }

  /** The value of the union node recorded first after `lo`, and the type
      name of the node recorded next, read back in an agreeing state. */
  lemma UnionValueRead(k: Kind, o: Snapshot, st': Snapshot, lo: nat, childKey: Key, name: string)
    requires k.Union? && Agree(o, st', lo, o.lastKeyNumber) && lo + 2 <= o.lastKeyNumber
    requires childKey == NatToDecimal(lo + 2)
    requires Find(o.values, NatToDecimal(lo + 1)) == Some(KeyValue(childKey))
    requires Find(o.typeNames, childKey) == Some(name)
    ensures GetFlatValue(k, st', NatToDecimal(lo + 1)) == Success(KeyValue(childKey))
    ensures GetTypeName(st', childKey) == Success(name)
  {
    GeneratedKeyIsNonRoot(lo + 2);
    KeyValueRoundTrip(childKey);
    ReadsRecorded(o, st', lo, lo + 1);
    ReadsRecorded(o, st', lo, lo + 2);
  }

  /** Reading a union node whose value names a node of variant `i`. */
  lemma DecodeUnionStep(k: Kind, st': Snapshot, key: Key, childKey: Key, i: nat, child: Json)
    requires k.Union? && i < |k.variants|
    requires GetFlatValue(k, st', key) == Success(KeyValue(childKey))
    requires GetTypeName(st', childKey) == Success(k.variants[i].typeName)
    requires FindVariant(k.variants, k.variants[i].typeName) == Some(i)
    requires Decode(k.variants[i], st', childKey) == Success(child)
    ensures Decode(k, st', key) == Success(child)
  {
    KeyValueRoundTrip(childKey);
  }

  lemma {:induction false} RoundTripArray(k: Kind, json: Json, parent: Key, st: Snapshot, st': Snapshot)
    requires k.Array? && WellFormed(k) && Fits(k, json, false) && Fits(k, json, true)
    requires var o := Encode(k, json, parent, st);
      o.result.Success? && Agree(o.after, st', st.lastKeyNumber, o.after.lastKeyNumber)
    ensures Decode(k, st', Encode(k, json, parent, st).result.value) == Success(Normalize(k, json))
    decreases k, 2, 0
  {
    var o := Encode(k, json, parent, st);
    var a := NextKey(st);
    var c := EncodeItems(k, json.items, a.key, a.after);
    ArrayStored(k, json, parent, st, st');
    RoundTripItems(k, json.items, a.key, a.after, st');
  }

  /** What an array node's `store` leaves for reading: its value is the
      list of its items' keys, and the reading state agrees with the items'
      writes. */
  lemma ArrayStored(k: Kind, json: Json, parent: Key, st: Snapshot, st': Snapshot)
    requires k.Array? && WellFormed(k) && Fits(k, json, false)
    requires var o := Encode(k, json, parent, st);
      o.result.Success? && Agree(o.after, st', st.lastKeyNumber, o.after.lastKeyNumber)
    ensures var o := Encode(k, json, parent, st);
      var a := NextKey(st);
      var c := EncodeItems(k, json.items, a.key, a.after);
      && c.result.Success?
      && GetFlatValue(k, st', o.result.value) == Success(FList(KeyValues(c.result.value)))
      && Agree(c.after, st', a.after.lastKeyNumber, c.after.lastKeyNumber)
  {
    var o := Encode(k, json, parent, st);
    var a := NextKey(st);
    var c := EncodeItems(k, json.items, a.key, a.after);
    EncodeItemsShape(k, json.items, a.key, a.after);
    var flat := FList(KeyValues(c.result.value));
    assert a.key == NatToDecimal(st.lastKeyNumber + 1);
    assert o.after == Record(c.after, NatToDecimal(st.lastKeyNumber + 1), k.typeName, parent, flat);
    ArrayRecorded(k, st.lastKeyNumber, c.after, c.result.value, parent, st');
  }

  /** An array node recorded over the state its items' `store` left reads
      back, in an agreeing state, as the list of the items' keys. */
  lemma ArrayRecorded(k: Kind, lo: nat, c: Snapshot, keys: seq<Key>, parent: Key, st': Snapshot)
    requires k.Array? && lo + 1 <= c.lastKeyNumber
    requires FreshKeys(keys, lo + 1, c.lastKeyNumber)
    requires var o := Record(c, NatToDecimal(lo + 1), k.typeName, parent, FList(KeyValues(keys)));
      Agree(o, st', lo, o.lastKeyNumber)
    ensures GetFlatValue(k, st', NatToDecimal(lo + 1)) == Success(FList(KeyValues(keys)))
    ensures Agree(c, st', lo + 1, c.lastKeyNumber)
  {
    var o := Record(c, NatToDecimal(lo + 1), k.typeName, parent, FList(KeyValues(keys)));
    var flat := FList(KeyValues(keys));
    forall i | 0 <= i < |keys| ensures IsNonRootKey(KeyValues(keys)[i]) {
      KeyValueRoundTrip(keys[i]);
    }
    IsArrayOfIff(IsNonRootKey, flat);
    ReadsRecorded(o, st', lo, lo + 1);
    AgreeBelowRecord(c, lo + 1, k.typeName, parent, flat, st', lo);
  }

  lemma {:induction false} RoundTripItems(k: Kind, items: seq<Json>, parent: Key, st: Snapshot, st': Snapshot)
    requires k.Array? && WellFormed(k)
    requires forall i :: 0 <= i < |items| ==> Fits(k.child, items[i], false) && Fits(k.child, items[i], true)
    requires var o := EncodeItems(k, items, parent, st);
      o.result.Success? && Agree(o.after, st', st.lastKeyNumber, o.after.lastKeyNumber)
    ensures DecodeItems(k, KeyValues(EncodeItems(k, items, parent, st).result.value), st') == Success(NormalizeItems(k, items))
    decreases k, 1, |items|
  {
    if |items| > 0 {
      var o := EncodeItems(k, items, parent, st);
      var c := Encode(k.child, items[0], parent, st);
      var rest := EncodeItems(k, items[1..], parent, c.after);
      ItemsHeadAgree(k, items, parent, st, st');
      RoundTrip(k.child, items[0], parent, st, st');
      RoundTripItems(k, items[1..], parent, c.after, st');
      assert o.result.value == [c.result.value] + rest.result.value;
      DecodeItemsCons(k, c.result.value, rest.result.value, st', Normalize(k.child, items[0]), NormalizeItems(k, items[1..]));
    }
  }

  /** The first item of an array's `store` and the rest each read in a
      state that agrees with all of it. */
  lemma ItemsHeadAgree(k: Kind, items: seq<Json>, parent: Key, st: Snapshot, st': Snapshot)
    requires k.Array? && WellFormed(k) && |items| > 0
    requires forall i :: 0 <= i < |items| ==> Fits(k.child, items[i], false)
    requires var o := EncodeItems(k, items, parent, st);
      o.result.Success? && Agree(o.after, st', st.lastKeyNumber, o.after.lastKeyNumber)
    ensures var c := Encode(k.child, items[0], parent, st);
      var rest := EncodeItems(k, items[1..], parent, c.after);
      && c.result.Success? && rest.result.Success?
      && Agree(c.after, st', st.lastKeyNumber, c.after.lastKeyNumber)
      && Agree(rest.after, st', c.after.lastKeyNumber, rest.after.lastKeyNumber)
  {
    var c := Encode(k.child, items[0], parent, st);
    EncodeShape(k.child, items[0], parent, st);
    var rest := EncodeItems(k, items[1..], parent, c.after);
    EncodeItemsShape(k, items[1..], parent, c.after);
    AgreeBeforeExtension(c.after, rest.after, st', st.lastKeyNumber);
    AgreeNarrow(rest.after, st', st.lastKeyNumber, rest.after.lastKeyNumber, c.after.lastKeyNumber, rest.after.lastKeyNumber);
  }

  /** Reading the keys of an array's items, the first one first. */
  lemma DecodeItemsCons(k: Kind, key: Key, keys: seq<Key>, st': Snapshot, first: Json, rest: seq<Json>)
    requires k.Array?
    requires Decode(k.child, st', key) == Success(first)
    requires DecodeItems(k, KeyValues(keys), st') == Success(rest)
    ensures DecodeItems(k, KeyValues([key] + keys), st') == Success([first] + rest)
  {
    var flat := KeyValues([key] + keys);
    assert flat[1..] == KeyValues(keys);
    KeyValueRoundTrip(key);
  }

  lemma {:induction false} RoundTripObject(k: Kind, json: Json, parent: Key, st: Snapshot, st': Snapshot)
    requires k.Object? && WellFormed(k) && Fits(k, json, false) && Fits(k, json, true)
    requires var o := Encode(k, json, parent, st);
      o.result.Success? && Agree(o.after, st', st.lastKeyNumber, o.after.lastKeyNumber)
    ensures Decode(k, st', Encode(k, json, parent, st).result.value) == Success(Normalize(k, json))
    decreases k, 2, 0
  {
    var o := Encode(k, json, parent, st);
    var a := NextKey(st);
    var c := EncodeProps(k, 0, json, a.key, a.after);
    EncodePropsShape(k, 0, json, a.key, a.after);
    var pairs := c.result.value;
    var flat := FList(PairValues(pairs));
    PairValuesPass(k, pairs, st.lastKeyNumber + 1, c.after.lastKeyNumber);
    ReadsRecorded(o.after, st', st.lastKeyNumber, st.lastKeyNumber + 1);
    assert GetFlatValue(k, st', o.result.value) == Success(flat);
    AgreeBelowRecord(c.after, st.lastKeyNumber + 1, k.typeName, parent, flat, st', st.lastKeyNumber);
    TypedFitsPropsBoth(k, json);
    RoundTripProps(k, 0, json, a.key, a.after, st');
  }

  /** The entries an object node stores pass its flat-value guard. */
  lemma PairValuesPass(k: Kind, pairs: seq<(string, Key)>, lo: nat, hi: nat)
    requires k.Object? && WellFormed(k)
    requires PairNames(pairs) == k.keyOrder[0..]
    requires FreshKeys(PairKeys(pairs), lo, hi)
    ensures Validator(k)(FList(PairValues(pairs)))
  {
    var guard := IsTupleOf(PropNameGuard(k.props), IsNonRootKey);
    forall i | 0 <= i < |pairs| ensures guard(PairValues(pairs)[i]) {
      KeyValueRoundTrip(pairs[i].1);
      assert Written(PairKeys(pairs)[i], lo, hi);
      assert PairNames(pairs)[i] == k.keyOrder[i];
    }
    IsArrayOfIff(guard, FList(PairValues(pairs)));
  }

  /** Decoding a list of entries whose first entry is `[name, key]`. */
  lemma DecodePropsStep(k: Kind, flat: seq<FlatValue>, name: string, key: Key, st': Snapshot, first: Json, rest: seq<(string, Json)>)
    requires k.Object? && |flat| > 0 && flat[0] == PairValue(name, key)
    requires PropIndex(k.props, name).Some?
    requires Decode(PropKind(k, name), st', key) == Success(first)
    requires DecodeProps(k, flat[1..], st') == Success(rest)
    ensures DecodeProps(k, flat, st') == Success([(name, first)] + rest)
  {
    KeyValueRoundTrip(key);
    assert PairName(flat[0]) == name;
    assert KeyOf(PairKey(flat[0])) == key;
  }

  /** The object case of `Fits` is the property list case. */
  lemma TypedFitsPropsBoth(k: Kind, json: Json)
    requires k.Object? && WellFormed(k) && Fits(k, json, false) && Fits(k, json, true)
    ensures FitsProps(k, 0, json, false) && FitsProps(k, 0, json, true)
  {
  }

  /** The states after the first property and after the rest both agree
      with `st'` on the keys they wrote. */
  lemma PropsHeadAgree(k: Kind, from: nat, json: Json, parent: Key, st: Snapshot, st': Snapshot)
    requires k.Object? && WellFormed(k) && from < |k.keyOrder|
    requires FitsProps(k, from, json, false)
    requires var o := EncodeProps(k, from, json, parent, st);
      o.result.Success? && Agree(o.after, st', st.lastKeyNumber, o.after.lastKeyNumber)
    ensures var name := k.keyOrder[from];
      var c := Encode(k.props[PropIndex(k.props, name).value].1, Get(json, name).value, parent, st);
      var rest := EncodeProps(k, from + 1, json, parent, c.after);
      && c.result.Success? && rest.result.Success?
      && Agree(c.after, st', st.lastKeyNumber, c.after.lastKeyNumber)
      && Agree(rest.after, st', c.after.lastKeyNumber, rest.after.lastKeyNumber)
  {
    var name := k.keyOrder[from];
    var j := PropIndex(k.props, name).value;
    var v := Get(json, name).value;
    var c := Encode(k.props[j].1, v, parent, st);
    EncodeShape(k.props[j].1, v, parent, st);
    var rest := EncodeProps(k, from + 1, json, parent, c.after);
    EncodePropsShape(k, from + 1, json, parent, c.after);
    AgreeBeforeExtension(c.after, rest.after, st', st.lastKeyNumber);
    AgreeNarrow(rest.after, st', st.lastKeyNumber, rest.after.lastKeyNumber, c.after.lastKeyNumber, rest.after.lastKeyNumber);
  }

  lemma {:induction false} RoundTripProps(k: Kind, from: nat, json: Json, parent: Key, st: Snapshot, st': Snapshot)
    requires k.Object? && WellFormed(k) && from <= |k.keyOrder|
    requires FitsProps(k, from, json, false) && FitsProps(k, from, json, true)
    requires var o := EncodeProps(k, from, json, parent, st);
      o.result.Success? && Agree(o.after, st', st.lastKeyNumber, o.after.lastKeyNumber)
    ensures DecodeProps(k, PairValues(EncodeProps(k, from, json, parent, st).result.value), st')
      == Success(NormalizeProps(k, from, json))
    decreases k, 1, |k.keyOrder| - from
  {
    if from < |k.keyOrder| {
      var o := EncodeProps(k, from, json, parent, st);
      var name := k.keyOrder[from];
      var j := PropIndex(k.props, name).value;
      var v := Get(json, name).value;
      var c := Encode(k.props[j].1, v, parent, st);
      var rest := EncodeProps(k, from + 1, json, parent, c.after);
      PropsHeadAgree(k, from, json, parent, st, st');
      RoundTrip(k.props[j].1, v, parent, st, st');
      RoundTripProps(k, from + 1, json, parent, c.after, st');
      assert o.result.value == [(name, c.result.value)] + rest.result.value;
      DecodePropsCons(k, name, c.result.value, rest.result.value, st', Normalize(k.props[j].1, v), NormalizeProps(k, from + 1, json));
    }
  }

  /** `DecodePropsStep` for the entries of a property list. */
  lemma DecodePropsCons(k: Kind, name: string, key: Key, pairs: seq<(string, Key)>, st': Snapshot, first: Json, rest: seq<(string, Json)>)
    requires k.Object? && PropIndex(k.props, name).Some?
    requires Decode(PropKind(k, name), st', key) == Success(first)
    requires DecodeProps(k, PairValues(pairs), st') == Success(rest)
    ensures DecodeProps(k, PairValues([(name, key)] + pairs), st') == Success([(name, first)] + rest)
  {
    var all := [(name, key)] + pairs;
    var flat := PairValues(all);
    forall i | 0 <= i < |pairs| ensures flat[1..][i] == PairValues(pairs)[i] {
      assert all[i + 1] == pairs[i];
    }
    assert flat[1..] == PairValues(pairs);
    DecodePropsStep(k, flat, name, key, st', first, rest);
  }
}
