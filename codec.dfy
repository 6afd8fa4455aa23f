/** `store` and `toJsonValue` of every node type, as functions on store
    snapshots. `Encode` gives the key it stored under together with the
    state it leaves behind; a failure leaves the writes made before it in
    place, since nothing is rolled back. */
module Codec {
  import opened Wrappers
  import opened Decimal
  import opened StoreTypes
  import opened Guards
  import opened JsonValues
  import opened Store
  import opened NodeKinds

  datatype Outcome<T> = Outcome(result: Result<T>, after: Snapshot)

  /** Puts `xs` in front of a successful list result. */
  function Prepend<T>(xs: seq<T>, o: Outcome<seq<T>>): Outcome<seq<T>> {
    if o.result.Success? then Outcome(Success(xs + o.result.value), o.after) else o
  }

  function KeyValues(keys: seq<Key>): (r: seq<FlatValue>)
    ensures |r| == |keys| && forall i :: 0 <= i < |keys| ==> r[i] == KeyValue(keys[i])
  {
    seq(|keys|, i requires 0 <= i < |keys| => KeyValue(keys[i]))
  }

  /** A `[prop, childKey]` entry of an object node. */
  function PairValue(name: string, key: Key): FlatValue {
    FList([FPrim(PString(name)), KeyValue(key)])
  }

  function PairValues(pairs: seq<(string, Key)>): (r: seq<FlatValue>)
    ensures |r| == |pairs| && forall i :: 0 <= i < |pairs| ==> r[i] == PairValue(pairs[i].0, pairs[i].1)
  {
    seq(|pairs|, i requires 0 <= i < |pairs| => PairValue(pairs[i].0, pairs[i].1))
  }

  function PairKeys(pairs: seq<(string, Key)>): (r: seq<Key>)
    ensures |r| == |pairs| && forall i :: 0 <= i < |pairs| ==> r[i] == pairs[i].1
  {
    seq(|pairs|, i requires 0 <= i < |pairs| => pairs[i].1)
  }

  function PairNames(pairs: seq<(string, Key)>): (r: seq<string>)
    ensures |r| == |pairs| && forall i :: 0 <= i < |pairs| ==> r[i] == pairs[i].0
  {
    seq(|pairs|, i requires 0 <= i < |pairs| => pairs[i].0)
  }

  /** `childTypes[name]` of an object node, for a declared `name`. */
  function PropKind(k: Kind, name: string): Kind
    requires k.Object?
  {
    var j := PropIndex(k.props, name);
    if j.Some? then k.props[j.value].1 else k
  }

  /** The end of `tx.insert` once `createValue(key)` has returned or raised. */
  function Complete(key: Key, typeName: string, parent: Key, value: Result<FlatValue>, after: Snapshot): Outcome<Key> {
    if value.Failure? then Outcome(Failure(value.error), after)
    else Outcome(Success(key), Record(after, key, typeName, parent, value.value))
  }

  function KeyResult(r: Result<Key>): Result<FlatValue> {
    if r.Success? then Success(KeyValue(r.value)) else Failure(r.error)
  }

  /** `store(tx, json, parentKey)` of a non-root node. */
  function Encode(k: Kind, json: Json, parent: Key, st: Snapshot): Outcome<Key>
    requires WellFormed(k) && !k.Root? && Fits(k, json, false)
    decreases k, 2, 0
  {
    match k
    case Primitive(tn, _) =>
      var a := NextKey(st);
      Complete(a.key, tn, parent, Success(FPrim(json.p)), a.after)
    case Literal(tn, _) =>
      var a := NextKey(st);
      Complete(a.key, tn, parent, Success(FPrim(json.p)), a.after)
    case Text(tn) =>
      var a := NextKey(st);
      Complete(a.key, tn, parent, Success(FText(json.p.s)), a.after)
    case Wrapped(_, tag, child) =>
      var a := NextKey(st);
      var c := Encode(child, Get(json, "value").value, a.key, a.after);
      Complete(a.key, tag, parent, KeyResult(c.result), c.after)
    case Array(tn, _) =>
      var a := NextKey(st);
      var c := EncodeItems(k, json.items, a.key, a.after);
      Complete(a.key, tn, parent,
        if c.result.Success? then Success(FList(KeyValues(c.result.value))) else Failure(c.result.error),
        c.after)
    case Object(tn, _, _) =>
      var a := NextKey(st);
      var c := EncodeProps(k, 0, json, a.key, a.after);
      Complete(a.key, tn, parent,
        if c.result.Success? then Success(FList(PairValues(c.result.value))) else Failure(c.result.error),
        c.after)
    case Union(tn, variants, _) =>
      var i := VariantOf(k, json);
      if i.None? then Outcome(Failure(UnknownVariant), st)
      else
        var a := NextKey(st);
        var c := Encode(variants[i.value], json, a.key, a.after);
        Complete(a.key, tn, parent, KeyResult(c.result), c.after)
  }

  /** `json.map((item) => childType.store(tx, item, key))`. */
  function EncodeItems(k: Kind, items: seq<Json>, parent: Key, st: Snapshot): Outcome<seq<Key>>
    requires k.Array? && WellFormed(k)
    requires forall i :: 0 <= i < |items| ==> Fits(k.child, items[i], false)
    decreases k, 1, |items|
  {
    if |items| == 0 then Outcome(Success([]), st)
    else
      var c := Encode(k.child, items[0], parent, st);
      if c.result.Failure? then Outcome(Failure(c.result.error), c.after)
      else Prepend([c.result.value], EncodeItems(k, items[1..], parent, c.after))
  }

  /** `keyOrder.map((prop) => [prop, childTypes[prop].store(tx, json[prop], key)])`,
      from position `from` on. */
  function EncodeProps(k: Kind, from: nat, json: Json, parent: Key, st: Snapshot): Outcome<seq<(string, Key)>>
    requires k.Object? && WellFormed(k) && from <= |k.keyOrder| && FitsProps(k, from, json, false)
    decreases k, 1, |k.keyOrder| - from
  {
    if from == |k.keyOrder| then Outcome(Success([]), st)
    else
      var name := k.keyOrder[from];
      var j := PropIndex(k.props, name).value;
      var c := Encode(k.props[j].1, Get(json, name).value, parent, st);
      if c.result.Failure? then Outcome(Failure(c.result.error), c.after)
      else Prepend([(name, c.result.value)], EncodeProps(k, from + 1, json, parent, c.after))
  }

  /** `attachRoot(tx, rootKey, json)` of a root node: the child is stored
      first, and only then is the root checked for. */
  function AttachRootNode(k: Kind, json: Json, rootKey: Key, st: Snapshot): Outcome<()>
    requires k.Root? && WellFormed(k) && Fits(k, json, false)
  {
    var c := Encode(k.child, json, rootKey, st);
    if c.result.Failure? then Outcome(Failure(c.result.error), c.after)
    else
      var r := RootAttached(c.after, rootKey, c.result.value);
      if r.Failure? then Outcome(Failure(r.error), c.after)
      else Outcome(Success(()), r.value)
  }

  /** `toJsonValue(store, key)`. */
  function Decode(k: Kind, st: Snapshot, key: Key): Result<Json>
    decreases k, 2, 0
  {
    match k
    case Primitive(_, _) =>
      var v :- GetFlatValue(k, st, key);
      Success(JPrim(v.p))
    case Literal(_, _) =>
      var v :- GetFlatValue(k, st, key);
      Success(JPrim(v.p))
    case Text(_) =>
      var v :- GetFlatValue(k, st, key);
      Success(JString(v.text))
    case Wrapped(_, tag, child) =>
      var v :- GetFlatValue(k, st, key);
      var c :- Decode(child, st, KeyOf(v));
      Success(JObj([("type", JString(tag)), ("value", c)]))
    case Array(_, _) =>
      var v :- GetFlatValue(k, st, key);
      var items :- DecodeItems(k, v.items, st);
      Success(JArr(items))
    case Object(_, _, _) =>
      var v :- GetFlatValue(k, st, key);
      var entries :- DecodeProps(k, v.items, st);
      Success(FromEntries(entries))
    case Union(_, variants, _) =>
      var v :- GetFlatValue(k, st, key);
      var name :- GetTypeName(st, KeyOf(v));
      var i := FindVariant(variants, name);
      if i.None? then Failure(UnknownVariant)
      else Decode(variants[i.value], st, KeyOf(v))
    case Root(_, child) =>
      var v :- GetFlatValue(k, st, key);
      Decode(child, st, KeyOf(v))
  }

  /** `childKeys.map((childKey) => childType.toJsonValue(store, childKey))`. */
  function DecodeItems(k: Kind, keys: seq<FlatValue>, st: Snapshot): Result<seq<Json>>
    requires k.Array?
    decreases k, 1, |keys|
  {
    if |keys| == 0 then Success([])
    else
      var first :- Decode(k.child, st, KeyOf(keys[0]));
      var rest :- DecodeItems(k, keys[1..], st);
      Success([first] + rest)
  }

  /** The entries of an object node, decoded with the node type of their
      property. A name that is not declared cannot get past the flat-value
      guard; it is reported as `PropertyNotFound`. */
  function DecodeProps(k: Kind, pairs: seq<FlatValue>, st: Snapshot): Result<seq<(string, Json)>>
    requires k.Object?
    decreases k, 1, |pairs|
  {
    if |pairs| == 0 then Success([])
    else
      var name := PairName(pairs[0]);
      var j := PropIndex(k.props, name);
      if j.None? then Failure(PropertyNotFound)
      else
        var first :- Decode(k.props[j.value].1, st, KeyOf(PairKey(pairs[0])));
        var rest :- DecodeProps(k, pairs[1..], st);
        Success([(name, first)] + rest)
  }
}
