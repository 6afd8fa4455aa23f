/** Further consequences of the node types' `store` and `toJsonValue`:
    attaching a document to the root, storing a second one, the links
    between a stored node and its children, and updating a primitive. */
module CodecProperties {
  import opened Wrappers
  import opened Decimal
  import opened StoreTypes
  import opened Guards
  import opened JsonValues
  import opened Store
  import opened NodeKinds
  import opened Codec
  import opened CodecShape
  import opened CodecRoundTrip

  /** After `attachRoot` succeeds, the root reads back as the normal form
      of the document, has no parent and is named "root". */
  lemma AttachRootRoundTrip(k: Kind, json: Json, st: Snapshot)
    requires k.Root? && WellFormed(k) && Fits(k, json, false) && Fits(k, json, true)
    requires AttachRootNode(k, json, RootKey, st).result.Success?
    ensures var after := AttachRootNode(k, json, RootKey, st).after;
      && Decode(k, after, RootKey) == Success(Normalize(k, json))
      && GetParentKey(after, RootKey).None?
      && GetTypeName(after, RootKey) == Success("root")
  {
    var c := Encode(k.child, json, RootKey, st);
    EncodeShape(k.child, json, RootKey, st);
    var after := RootAttached(c.after, RootKey, c.result.value).value;
    forall n: nat | st.lastKeyNumber < n <= c.after.lastKeyNumber
      ensures SameAt(c.after, after, NatToDecimal(n))
    {
      GeneratedKeyIsNonRoot(n);
    }
    GeneratedKeyIsNonRoot(st.lastKeyNumber + 1);
    KeyValueRoundTrip(c.result.value);
    RoundTrip(k.child, json, RootKey, st, after);
  }

  /** A second `attachRoot` stores the whole new document and only then
      fails: the root keeps its value, and the new subtree stays in the
      store below the root key, unreachable from it. */
  lemma AttachRootTwice(k: Kind, json: Json, st: Snapshot)
    requires k.Root? && WellFormed(k) && Fits(k, json, false)
    requires Has(st, RootKey)
    requires Encode(k.child, json, RootKey, st).result.Success?
    ensures var o := AttachRootNode(k, json, RootKey, st);
      && o.result == Failure(RootAlreadyExists)
      && Extends(st, o.after)
      && SameAt(st, o.after, RootKey)
      && StoredUnder(o.after, NatToDecimal(st.lastKeyNumber + 1), RootKey, RecordedName(k.child))
  {
    EncodeShape(k.child, json, RootKey, st);
    GeneratedKeyIsNonRoot(st.lastKeyNumber + 1);
    assert !Written(RootKey, st.lastKeyNumber, AttachRootNode(k, json, RootKey, st).after.lastKeyNumber);
  }

  /** `store` of a literal node does not check the value: a different
      primitive is stored, and reading the node back then fails. */
  lemma LiteralMismatch(k: Kind, p: Primitive, parent: Key, st: Snapshot)
    requires k.Literal? && p != k.value
    ensures var o := Encode(k, JPrim(p), parent, st);
      && o.result.Success?
      && Decode(k, o.after, o.result.value) == Failure(TypeMismatch)
  {
  }

  /** Distinct key numbers make distinct keys. */
  lemma FreshKeysDistinct(keys: seq<Key>, lo: nat, hi: nat, i: int, j: int)
    requires FreshKeys(keys, lo, hi) && 0 <= i < |keys| && 0 <= j < |keys| && i != j
    ensures keys[i] != keys[j]
  {
    if i < j {
      assert DigitsValue(keys[i]) < DigitsValue(keys[j]);
    } else {
      assert DigitsValue(keys[j]) < DigitsValue(keys[i]);
    }
  }

  /** Each item an array node stores has the array as parent, and the
      array's `getIndexWithin` finds it at its position. */
  lemma ArrayChildLinks(k: Kind, json: Json, parent: Key, st: Snapshot)
    requires k.Array? && WellFormed(k) && Fits(k, json, false)
    requires Encode(k, json, parent, st).result.Success?
    ensures var o := Encode(k, json, parent, st);
      var key := o.result.value;
      && GetFlatValue(k, o.after, key).Success?
      && var items := o.after.values[key].items;
      && |items| == |json.items|
      && forall i :: 0 <= i < |items| ==>
           && GetParentKey(o.after, KeyOf(items[i])) == Some(key)
           && IndexWithin(k, o.after, key, KeyOf(items[i])) == Success(At(i))
  {
    var o := Encode(k, json, parent, st);
    var a := NextKey(st);
    var c := EncodeItems(k, json.items, a.key, a.after);
    EncodeItemsShape(k, json.items, a.key, a.after);
    assert a.key == NatToDecimal(st.lastKeyNumber + 1);
    assert o.after == Record(c.after, NatToDecimal(st.lastKeyNumber + 1), k.typeName, parent, FList(KeyValues(c.result.value)));
    ArrayRecordLinks(k, c.after, st.lastKeyNumber, c.result.value, parent);
  }

  /** An array node recorded over its stored items finds each of them,
      below it, at its position. */
  lemma ArrayRecordLinks(k: Kind, c: Snapshot, lo: nat, keys: seq<Key>, parent: Key)
    requires k.Array? && lo + 1 <= c.lastKeyNumber
    requires FreshKeys(keys, lo + 1, c.lastKeyNumber)
    requires AllStoredUnder(c, keys, NatToDecimal(lo + 1), RecordedName(k.child))
    ensures var key := NatToDecimal(lo + 1);
      var o := Record(c, key, k.typeName, parent, FList(KeyValues(keys)));
      && GetFlatValue(k, o, key).Success?
      && o.values[key].items == KeyValues(keys)
      && forall i :: 0 <= i < |keys| ==>
           && GetParentKey(o, keys[i]) == Some(key)
           && IndexWithin(k, o, key, keys[i]) == Success(At(i))
  {
    var key := NatToDecimal(lo + 1);
    var o := Record(c, key, k.typeName, parent, FList(KeyValues(keys)));
    var flat := KeyValues(keys);
    forall i | 0 <= i < |keys| ensures IsNonRootKey(flat[i]) && KeyOf(flat[i]) == keys[i] {
      KeyValueRoundTrip(keys[i]);
    }
    IsArrayOfIff(IsNonRootKey, FList(flat));
    forall i | 0 <= i < |keys|
      ensures GetParentKey(o, keys[i]) == Some(key)
      ensures IndexWithin(k, o, key, keys[i]) == Success(At(i))
    {
      assert StoredUnder(c, keys[i], key, RecordedName(k.child));
      assert keys[i] != key;
      assert flat[i] == KeyValue(keys[i]);
    }
  }

  /** The object's `getIndexWithin` finds the `i`-th stored entry at `i`. */
  lemma ObjectIndexOfEntry(k: Kind, after: Snapshot, key: Key, pairs: seq<(string, Key)>, lo: nat, hi: nat, i: int)
    requires k.Object? && 0 <= i < |pairs|
    requires FreshKeys(PairKeys(pairs), lo, hi)
    requires GetFlatValue(k, after, key) == Success(FList(PairValues(pairs)))
    ensures IndexWithin(k, after, key, pairs[i].1) == Success(At(i))
  {
    var keys := PairKeys(pairs);
    var flat := PairValues(pairs);
    assert PairKey(flat[i]) == KeyValue(keys[i]);
  }

  /** How `Encode` of an object node ends when it succeeds. */
  lemma ObjectEncodeEnd(k: Kind, json: Json, parent: Key, st: Snapshot)
    requires k.Object? && WellFormed(k) && Fits(k, json, false)
    requires Encode(k, json, parent, st).result.Success?
    ensures var a := NextKey(st);
      var c := EncodeProps(k, 0, json, a.key, a.after);
      var o := Encode(k, json, parent, st);
      && c.result.Success?
      && o.result.value == a.key
      && o.after == Record(c.after, a.key, k.typeName, parent, FList(PairValues(c.result.value)))
  {
  }

  /** The links of an object node stored under `key` with the entries
      `pairs`, whose keys were handed out after `key`'s. */
  lemma ObjectLinks(k: Kind, mid: Snapshot, key: Key, typeName: string, parent: Key, pairs: seq<(string, Key)>, lo: nat)
    requires k.Object? && WellFormed(k)
    requires IsDigitString(key) && DigitsValue(key) == lo
    requires PairNames(pairs) == k.keyOrder[0..]
    requires FreshKeys(PairKeys(pairs), lo, mid.lastKeyNumber)
    requires PropsStoredUnder(mid, k, pairs, key)
    ensures var after := Record(mid, key, typeName, parent, FList(PairValues(pairs)));
      && GetFlatValue(k, after, key) == Success(FList(PairValues(pairs)))
      && forall i :: 0 <= i < |pairs| ==>
           && PairName(PairValues(pairs)[i]) == k.keyOrder[i]
           && GetParentKey(after, KeyOf(PairKey(PairValues(pairs)[i]))) == Some(key)
           && IndexWithin(k, after, key, KeyOf(PairKey(PairValues(pairs)[i]))) == Success(At(i))
  {
    var after := Record(mid, key, typeName, parent, FList(PairValues(pairs)));
    PairValuesPass(k, pairs, lo, mid.lastKeyNumber);
    assert GetFlatValue(k, after, key) == Success(FList(PairValues(pairs)));
    forall i | 0 <= i < |pairs|
      ensures PairName(PairValues(pairs)[i]) == k.keyOrder[i]
      ensures GetParentKey(after, KeyOf(PairKey(PairValues(pairs)[i]))) == Some(key)
      ensures IndexWithin(k, after, key, KeyOf(PairKey(PairValues(pairs)[i]))) == Success(At(i))
    {
      ObjectLinkAt(k, mid, key, typeName, parent, pairs, lo, i);
    }
  }

  /** The `i`-th link of `ObjectLinks`. */
  lemma ObjectLinkAt(k: Kind, mid: Snapshot, key: Key, typeName: string, parent: Key, pairs: seq<(string, Key)>, lo: nat, i: nat)
    requires k.Object? && WellFormed(k)
    requires IsDigitString(key) && DigitsValue(key) == lo
    requires PairNames(pairs) == k.keyOrder[0..]
    requires FreshKeys(PairKeys(pairs), lo, mid.lastKeyNumber)
    requires PropsStoredUnder(mid, k, pairs, key)
    requires GetFlatValue(k, Record(mid, key, typeName, parent, FList(PairValues(pairs))), key)
      == Success(FList(PairValues(pairs)))
    requires i < |pairs|
    ensures var after := Record(mid, key, typeName, parent, FList(PairValues(pairs)));
      var flat := PairValues(pairs);
      && PairName(flat[i]) == k.keyOrder[i]
      && GetParentKey(after, KeyOf(PairKey(flat[i]))) == Some(key)
      && IndexWithin(k, after, key, KeyOf(PairKey(flat[i]))) == Success(At(i))
  {
    var after := Record(mid, key, typeName, parent, FList(PairValues(pairs)));
    var keys := PairKeys(pairs);
    var flat := PairValues(pairs);
    KeyValueRoundTrip(keys[i]);
    assert PairNames(pairs)[i] == k.keyOrder[i];
    assert StoredUnder(mid, pairs[i].1, key, RecordedName(PropKind(k, pairs[i].0)));
    assert Written(keys[i], lo, mid.lastKeyNumber);
    ObjectIndexOfEntry(k, after, key, pairs, lo, mid.lastKeyNumber, i);
  }

  /** Each property an object node stores has the object as parent, and
      the object's `getIndexWithin` finds it at its position. */
  lemma ObjectChildLinks(k: Kind, json: Json, parent: Key, st: Snapshot)
    requires k.Object? && WellFormed(k) && Fits(k, json, false)
    requires Encode(k, json, parent, st).result.Success?
    ensures var o := Encode(k, json, parent, st);
      var key := o.result.value;
      && GetFlatValue(k, o.after, key).Success?
      && var pairs := o.after.values[key].items;
      && |pairs| == |k.keyOrder|
      && forall i :: 0 <= i < |pairs| ==>
           && PairName(pairs[i]) == k.keyOrder[i]
           && GetParentKey(o.after, KeyOf(PairKey(pairs[i]))) == Some(key)
           && IndexWithin(k, o.after, key, KeyOf(PairKey(pairs[i]))) == Success(At(i))
  {
    var a := NextKey(st);
    var c := EncodeProps(k, 0, json, a.key, a.after);
    EncodePropsShape(k, 0, json, a.key, a.after);
    ObjectEncodeEnd(k, json, parent, st);
    ObjectLinks(k, c.after, a.key, k.typeName, parent, c.result.value, st.lastKeyNumber + 1);
  }

  /** After an object node is stored, `getPropKey` of a property in
      `keyOrder` finds the child stored for its first occurrence, and of
      any other name fails. */
  lemma ObjectPropKeys(k: Kind, json: Json, parent: Key, st: Snapshot)
    requires k.Object? && WellFormed(k) && Fits(k, json, false)
    requires Encode(k, json, parent, st).result.Success?
    ensures var o := Encode(k, json, parent, st);
      var key := o.result.value;
      && GetFlatValue(k, o.after, key).Success?
      && var pairs := o.after.values[key].items;
      && |pairs| == |k.keyOrder|
      && (forall i :: 0 <= i < |k.keyOrder| && k.keyOrder[i] !in k.keyOrder[..i] ==>
            && GetParentKey(o.after, KeyOf(PairKey(pairs[i]))) == Some(key)
            && PropKeyOf(k, o.after, key, k.keyOrder[i]) == Success(KeyOf(PairKey(pairs[i]))))
      && (forall name :: name !in k.keyOrder ==> PropKeyOf(k, o.after, key, name) == Failure(PropertyNotFound))
  {
    var o := Encode(k, json, parent, st);
    ObjectChildLinks(k, json, parent, st);
    PropKeysNamed(k, o.after, o.result.value, o.after.values[o.result.value].items, k.keyOrder);
  }

  /** `getPropKey` on an object node whose entries carry the names
      `names`, in order: a name finds the entry of its first occurrence,
      and a name that is not there fails. */
  lemma PropKeysNamed(k: Kind, st: Snapshot, key: Key, pairs: seq<FlatValue>, names: seq<string>)
    requires k.Object? && GetFlatValue(k, st, key) == Success(FList(pairs))
    requires |pairs| == |names| && forall i :: 0 <= i < |pairs| ==> PairName(pairs[i]) == names[i]
    ensures forall i :: 0 <= i < |names| && names[i] !in names[..i] ==>
      PropKeyOf(k, st, key, names[i]) == Success(KeyOf(PairKey(pairs[i])))
    ensures forall name :: name !in names ==> PropKeyOf(k, st, key, name) == Failure(PropertyNotFound)
  {
    forall i | 0 <= i < |names| && names[i] !in names[..i]
      ensures PropKeyOf(k, st, key, names[i]) == Success(KeyOf(PairKey(pairs[i])))
    {
      FirstNamed(pairs, names, i);
    }
    forall name | name !in names
      ensures PropKeyOf(k, st, key, name) == Failure(PropertyNotFound)
    {
      assert forall j :: 0 <= j < |pairs| ==> PairName(pairs[j]) == names[j];
    }
  }

  /** The first entry named `names[i]` is the `i`-th when the name does not
      occur earlier. */
  lemma FirstNamed(pairs: seq<FlatValue>, names: seq<string>, i: nat)
    requires |pairs| == |names| && forall j :: 0 <= j < |pairs| ==> PairName(pairs[j]) == names[j]
    requires i < |names| && names[i] !in names[..i]
    ensures FindPairNamed(pairs, names[i]) == Some(i)
  {
    assert forall j :: 0 <= j < i ==> names[..i][j] == names[j];
  }

  /** `updateValue` checks the node's current value, not the new one: the
      update replaces only that node's value, and the node reads back as
      the new value exactly when the new value passes the node's guard. */
  lemma UpdatedPrimitiveReads(k: Kind, st: Snapshot, key: Key, p: Primitive)
    requires k.Primitive? || k.Literal?
    requires UpdateValue(st, Validator(k), key, SetTo(FPrim(p))).Success?
    ensures var after := UpdateValue(st, Validator(k), key, SetTo(FPrim(p))).value;
      && Decode(k, after, key) == (if Validator(k)(FPrim(p)) then Success(JPrim(p)) else Failure(TypeMismatch))
      && forall other :: other != key ==> SameAt(st, after, other)
  {
  }

  /** `store` never fails on a value of the node's JSON type: the only
      failure is a union tag that names no variant. */
  lemma {:induction false} TypedEncodeSucceeds(k: Kind, json: Json, parent: Key, st: Snapshot)
    requires WellFormed(k) && !k.Root? && Fits(k, json, false) && Fits(k, json, true)
    ensures Encode(k, json, parent, st).result.Success?
    decreases k, 2, 0
  {
    var a := NextKey(st);
    match k
    case Primitive(_, _) =>
    case Literal(_, _) =>
    case Text(_) =>
    case Wrapped(_, _, child) =>
      TypedEncodeSucceeds(child, Get(json, "value").value, a.key, a.after);
    case Array(_, _) =>
      TypedItemsSucceed(k, json.items, a.key, a.after);
    case Object(_, _, _) =>
      TypedPropsSucceed(k, 0, json, a.key, a.after);
    case Union(_, variants, _) =>
      TypedEncodeSucceeds(variants[VariantOf(k, json).value], json, a.key, a.after);
  }

  lemma {:induction false} TypedItemsSucceed(k: Kind, items: seq<Json>, parent: Key, st: Snapshot)
    requires k.Array? && WellFormed(k)
    requires forall i :: 0 <= i < |items| ==> Fits(k.child, items[i], false) && Fits(k.child, items[i], true)
    ensures EncodeItems(k, items, parent, st).result.Success?
    decreases k, 1, |items|
  {
    if |items| > 0 {
      var c := Encode(k.child, items[0], parent, st);
      TypedEncodeSucceeds(k.child, items[0], parent, st);
      TypedItemsSucceed(k, items[1..], parent, c.after);
    }
  }

  lemma {:induction false} TypedPropsSucceed(k: Kind, from: nat, json: Json, parent: Key, st: Snapshot)
    requires k.Object? && WellFormed(k) && from <= |k.keyOrder|
    requires FitsProps(k, from, json, false) && FitsProps(k, from, json, true)
    ensures EncodeProps(k, from, json, parent, st).result.Success?
    decreases k, 1, |k.keyOrder| - from
  {
    if from < |k.keyOrder| {
      var name := k.keyOrder[from];
      var j := PropIndex(k.props, name).value;
      var c := Encode(k.props[j].1, Get(json, name).value, parent, st);
      TypedEncodeSucceeds(k.props[j].1, Get(json, name).value, parent, st);
      TypedPropsSucceed(k, from + 1, json, parent, c.after);
    }
  }
}
