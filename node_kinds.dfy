/** The node types built by the `define…Node` helpers under src/nodes: one
    constructor per helper, holding the arguments the helper closes over
    (`typeName` is the name given to `finish`). The per-node methods that
    only read the store are functions here. */
module NodeKinds {
  import opened Wrappers
  import opened Decimal
  import opened StoreTypes
  import opened Guards
  import opened JsonValues
  import opened Store

  datatype Kind =
    /** `definePrimitiveNode(guard)`; `accepts` is the guard on primitives. */
    | Primitive(typeName: string, accepts: Primitive -> bool)
    /** `defineLiteralNode(value)`: a primitive node whose guard is `=== value`. */
    | Literal(typeName: string, value: Primitive)
    /** `TextNode`: a text handle. */
    | Text(typeName: string)
    /** `defineWrappedNode(tag, child)`: `tag` is the name the node stores
        itself under and reports as `type`. */
    | Wrapped(typeName: string, tag: string, child: Kind)
    /** `defineArrayNode(child)`. */
    | Array(typeName: string, child: Kind)
    /** `defineObjectNode(childTypes, keyOrder)`, `childTypes` as a list of
        (property, node type) entries. */
    | Object(typeName: string, props: seq<(string, Kind)>, keyOrder: seq<string>)
    /** `defineUnionNode(variants, json => json[tagField])`. */
    | Union(typeName: string, variants: seq<Kind>, tagField: string)
    /** `defineRootNode(child)`. */
    | Root(typeName: string, child: Kind)

  /** `Index`: what `getIndexWithin` answers; `NoIndex` is the `undefined`
      of `NoIndexTrait`. */
  datatype Index = NoIndex | At(n: int)

  /** The `typeName` the node's `store` passes to `tx.insert`: a wrapped node
      uses its `tag`, every other node its own name. */
  function RecordedName(k: Kind): string {
    if k.Wrapped? then k.tag else k.typeName
  }

  /** `childTypes[name]`: the first entry called `name`. */
  function PropIndex(props: seq<(string, Kind)>, name: string): (r: Option<nat>)
    ensures r.Some? ==> r.value < |props| && props[r.value].0 == name
    ensures r.Some? ==> forall j :: 0 <= j < r.value ==> props[j].0 != name
    ensures r.None? <==> forall j :: 0 <= j < |props| ==> props[j].0 != name
    decreases |props|
  {
    if |props| == 0 then None
    else if props[0].0 == name then Some(0)
    else
      var r := PropIndex(props[1..], name);
      if r.None? then None else Some(r.value + 1)
  }

  /** `getChildType(name)` of a union: the first variant called `name`. */
  function FindVariant(variants: seq<Kind>, name: string): (r: Option<nat>)
    ensures r.Some? ==> r.value < |variants| && variants[r.value].typeName == name
    ensures r.Some? ==> forall j :: 0 <= j < r.value ==> variants[j].typeName != name
    ensures r.None? <==> forall j :: 0 <= j < |variants| ==> variants[j].typeName != name
    decreases |variants|
  {
    if |variants| == 0 then None
    else if variants[0].typeName == name then Some(0)
    else
      var r := FindVariant(variants[1..], name);
      if r.None? then None else Some(r.value + 1)
  }

  /** `isIntersectionOf(isString, isKeyOf(childTypes))`. */
  function PropNameGuard(props: seq<(string, Kind)>): Guard {
    (v: FlatValue) => IsString(v) && PropIndex(props, v.p.s).Some?
  }

  /** `isValidFlatValue` of each node type. */
  function Validator(k: Kind): Guard {
    match k
    case Primitive(_, accepts) => (v: FlatValue) => v.FPrim? && accepts(v.p)
    case Literal(_, value) => (v: FlatValue) => v == FPrim(value)
    case Text(_) => (v: FlatValue) => v.FText?
    case Wrapped(_, _, _) => IsNonRootKey
    case Array(_, _) => IsArrayOf(IsNonRootKey)
    case Object(_, props, _) => IsArrayOf(IsTupleOf(PropNameGuard(props), IsNonRootKey))
    case Union(_, _, _) => IsNonRootKey
    case Root(_, _) => IsNonRootKey
  }

  /** `getFlatValue(store, key)`: the stored value, provided the node type's
      validator accepts it. */
  function GetFlatValue(k: Kind, st: Snapshot, key: Key): (r: Result<FlatValue>)
    ensures r.Success? <==> key in st.values && Validator(k)(st.values[key])
    ensures r.Success? ==> r.value == st.values[key]
    ensures r == Failure(NotFound) <==> key !in st.values
    ensures r == Failure(TypeMismatch) <==> key in st.values && !Validator(k)(st.values[key])
  {
    GetValue(st, Validator(k), key)
  }

  /** What each node type's validator accepts: a primitive what its guard
      accepts, a literal its own value, a text node a text handle, the
      wrapped, union and root nodes one non-root key, an array a list of
      non-root keys, and an object a list of `[name, key]` pairs whose name
      is a declared property and whose key is a non-root key. */
  lemma ValidatorAccepts(k: Kind, v: FlatValue)
    ensures k.Primitive? ==> (Validator(k)(v) <==> v.FPrim? && k.accepts(v.p))
    ensures k.Literal? ==> (Validator(k)(v) <==> v == FPrim(k.value))
    ensures k.Text? ==> (Validator(k)(v) <==> v.FText?)
    ensures (k.Wrapped? || k.Union? || k.Root?) ==> (Validator(k)(v) <==> IsNonRootKey(v))
    ensures k.Array? ==>
      (Validator(k)(v) <==> v.FList? && forall i :: 0 <= i < |v.items| ==> IsNonRootKey(v.items[i]))
    ensures k.Object? ==>
      (Validator(k)(v) <==> v.FList? && forall i :: 0 <= i < |v.items| ==> PropPair(k.props, v.items[i]))
  {
    match k
    case Array(_, _) => IsArrayOfIff(IsNonRootKey, v);
    case Object(_, props, _) =>
      IsArrayOfIff(IsTupleOf(PropNameGuard(props), IsNonRootKey), v);
      if v.FList? {
        forall i | 0 <= i < |v.items|
          ensures IsTupleOf(PropNameGuard(props), IsNonRootKey)(v.items[i]) <==> PropPair(props, v.items[i])
        {
        }
      }
    case _ =>
  }

  /** A `[name, key]` entry of an object node's flat value: a declared
      property name and a non-root key. */
  predicate PropPair(props: seq<(string, Kind)>, e: FlatValue) {
    && e.FList? && |e.items| == 2
    && IsString(e.items[0]) && PropIndex(props, e.items[0].p.s).Some?
    && IsNonRootKey(e.items[1])
  }

  /** `getParentKey(store, key)`: the root node passes the store's answer
      on; every other node insists that there is a parent. */
  function ParentKeyOf(k: Kind, st: Snapshot, key: Key): (r: Result<Option<Key>>)
    ensures k.Root? ==> r == Success(GetParentKey(st, key))
    ensures !k.Root? ==> (r.Success? <==> key in st.parentKeys && st.parentKeys[key].Some?)
    ensures !k.Root? && r.Success? ==> r.value == st.parentKeys[key]
    ensures r.Failure? ==> r.error == MissingParent
  {
    var parent := GetParentKey(st, key);
    if !k.Root? && parent.None? then Failure(MissingParent) else Success(parent)
  }

  /** `Array.prototype.indexOf` on a list of keys. */
  function IndexOf(items: seq<FlatValue>, child: Key): (r: int)
    ensures -1 <= r < |items|
    ensures r >= 0 ==> items[r] == KeyValue(child) && KeyValue(child) !in items[..r]
    ensures r == -1 <==> KeyValue(child) !in items
    decreases |items|
  {
    if |items| == 0 then -1
    else if items[0] == KeyValue(child) then 0
    else
      var r := IndexOf(items[1..], child);
      assert items[1..][..if r >= 0 then r else 0] == items[1..if r >= 0 then r + 1 else 1];
      assert items == [items[0]] + items[1..];
      if r == -1 then -1 else r + 1
  }

  /** The second element of a (property, key) pair. */
  function PairKey(pair: FlatValue): FlatValue {
    if pair.FList? && |pair.items| == 2 then pair.items[1] else FList([])
  }

  /** `entries.findIndex(([, k]) => k === childKey)`. */
  function FindPair(pairs: seq<FlatValue>, child: Key): (r: Option<nat>)
    ensures r.Some? ==> r.value < |pairs| && PairKey(pairs[r.value]) == KeyValue(child)
    ensures r.Some? ==> forall j :: 0 <= j < r.value ==> PairKey(pairs[j]) != KeyValue(child)
    ensures r.None? <==> forall j :: 0 <= j < |pairs| ==> PairKey(pairs[j]) != KeyValue(child)
    decreases |pairs|
  {
    if |pairs| == 0 then None
    else if PairKey(pairs[0]) == KeyValue(child) then Some(0)
    else
      var r := FindPair(pairs[1..], child);
      if r.None? then None else Some(r.value + 1)
  }

  /** The property name of a `[prop, childKey]` entry. */
  function PairName(pair: FlatValue): string {
    if pair.FList? && |pair.items| == 2 && IsString(pair.items[0]) then pair.items[0].p.s else ""
  }

  /** `entries.find(([p]) => p === prop)`, as a position. */
  function FindPairNamed(pairs: seq<FlatValue>, prop: string): (r: Option<nat>)
    ensures r.Some? ==> r.value < |pairs| && PairName(pairs[r.value]) == prop
    ensures r.Some? ==> forall j :: 0 <= j < r.value ==> PairName(pairs[j]) != prop
    ensures r.None? <==> forall j :: 0 <= j < |pairs| ==> PairName(pairs[j]) != prop
    decreases |pairs|
  {
    if |pairs| == 0 then None
    else if PairName(pairs[0]) == prop then Some(0)
    else
      var r := FindPairNamed(pairs[1..], prop);
      if r.None? then None else Some(r.value + 1)
  }

  /** `getPropKey(store, key, prop)` of an object node: the key of the first
      entry named `prop`; reading the entries fails as `getFlatValue` does,
      and a property without an entry fails the `invariant`. */
  function PropKeyOf(k: Kind, st: Snapshot, key: Key, prop: string): (r: Result<Key>)
    requires k.Object?
    ensures GetFlatValue(k, st, key).Failure? ==> r == Failure(GetFlatValue(k, st, key).error)
    ensures var f := GetFlatValue(k, st, key);
      f.Success? && f.value.FList? ==>
        && (r == Failure(PropertyNotFound) <==> forall j :: 0 <= j < |f.value.items| ==> PairName(f.value.items[j]) != prop)
        && (r.Success? ==> exists i :: 0 <= i < |f.value.items| && PairName(f.value.items[i]) == prop
                                       && r.value == KeyOf(PairKey(f.value.items[i]))
                                       && forall j :: 0 <= j < i ==> PairName(f.value.items[j]) != prop)
  {
    var pairs :- GetFlatValue(k, st, key);
    var i := FindPairNamed(pairs.items, prop);
    if i.None? then Failure(PropertyNotFound) else Success(KeyOf(PairKey(pairs.items[i.value])))
  }

  /** `getIndexWithin(store, key, childKey)`: an array answers the child's
      position (-1 when absent) after insisting that the child key is a
      non-root key; an object answers the position of the child's entry or
      fails; text, wrapped and root nodes answer `NoIndex`; a union answers
      `NoIndex` too (see the findings); primitive and literal nodes have no
      such method. */
  function IndexWithin(k: Kind, st: Snapshot, key: Key, child: Key): (r: Result<Index>)
    ensures k.Array? ==> (r == Failure(ChildIsRootKey) <==> !IsDigitString(child))
    ensures k.Array? && IsDigitString(child) ==>
      (r.Success? <==> GetFlatValue(k, st, key).Success?)
    ensures k.Array? && r.Success? ==>
      var items := st.values[key].items;
      && r.value.At? && -1 <= r.value.n < |items|
      && (r.value.n >= 0 ==> items[r.value.n] == KeyValue(child) && KeyValue(child) !in items[..r.value.n])
      && (r.value.n == -1 <==> KeyValue(child) !in items)
    ensures k.Object? && r.Success? ==>
      var f := GetFlatValue(k, st, key);
      && f.Success? && f.value.FList?
      && r.value.At? && 0 <= r.value.n < |f.value.items|
      && PairKey(f.value.items[r.value.n]) == KeyValue(child)
      && forall j :: 0 <= j < r.value.n ==> PairKey(f.value.items[j]) != KeyValue(child)
    ensures k.Object? ==>
      var f := GetFlatValue(k, st, key);
      f.Success? && f.value.FList? ==>
        (r == Failure(ChildNotFound) <==> forall j :: 0 <= j < |f.value.items| ==> PairKey(f.value.items[j]) != KeyValue(child))
    ensures (k.Text? || k.Wrapped? || k.Root? || k.Union?) ==> r == Success(NoIndex)
    ensures (k.Primitive? || k.Literal?) ==> r == Failure(NoIndexLookup)
  {
    match k
    case Array(_, _) =>
      if !IsNonRootKey(KeyValue(child)) then Failure(ChildIsRootKey)
      else
        var keys :- GetFlatValue(k, st, key);
        Success(At(IndexOf(keys.items, child)))
    case Object(_, _, _) =>
      var pairs :- GetFlatValue(k, st, key);
      var i := FindPair(pairs.items, child);
      if i.None? then Failure(ChildNotFound) else Success(At(i.value))
    case Text(_) => Success(NoIndex)
    case Wrapped(_, _, _) => Success(NoIndex)
    case Root(_, _) => Success(NoIndex)
    case Union(_, _, _) => Success(NoIndex)
    case Primitive(_, _) => Failure(NoIndexLookup)
    case Literal(_, _) => Failure(NoIndexLookup)
  }

  /** `getIndexWithin` as the code stands: `defineUnionNode` defines none, so
      asking a union fails like asking a primitive. */
  function IndexWithinAsWritten(k: Kind, st: Snapshot, key: Key, child: Key): (r: Result<Index>)
    ensures k.Union? ==> r == Failure(NoIndexLookup)
    ensures !k.Union? ==> r == IndexWithin(k, st, key, child)
  {
    if k.Union? then Failure(NoIndexLookup) else IndexWithin(k, st, key, child)
  }

  // ---------------------------------------------------------------------
  // Which node types and which JSON values the operations are defined for.

  /** The value of `json[tagField]` when it is a string. */
  function TagOf(json: Json, field: string): (r: Option<string>)
    ensures r.Some? ==> Get(json, field) == Some(JString(r.value))
    ensures r.None? <==>
      Get(json, field).None? || !Get(json, field).value.JPrim? || !Get(json, field).value.p.PString?
  {
    var v := Get(json, field);
    if v.Some? && v.value.JPrim? && v.value.p.PString? then Some(v.value.p.s) else None
  }

  /** The variant a union's `store` picks for `json`: the first whose type
      name is the value's tag, and none when the tag is missing or names no
      variant. */
  function VariantOf(k: Kind, json: Json): (r: Option<nat>)
    requires k.Union?
    ensures r.Some? ==>
      && r.value < |k.variants|
      && TagOf(json, k.tagField).Some?
      && k.variants[r.value].typeName == TagOf(json, k.tagField).value
      && forall j :: 0 <= j < r.value ==> k.variants[j].typeName != TagOf(json, k.tagField).value
    ensures r.None? <==>
      || TagOf(json, k.tagField).None?
      || forall i :: 0 <= i < |k.variants| ==> k.variants[i].typeName != TagOf(json, k.tagField).value
  {
    var tag := TagOf(json, k.tagField);
    if tag.None? then None else FindVariant(k.variants, tag.value)
  }

  /** What the node-type definitions take for granted: children are never
      root nodes, every property in `keyOrder` is declared, and a union's
      variants store themselves under their own names (so that the name a
      union reads back finds the variant that wrote it). */
  predicate WellFormed(k: Kind)
    decreases k, 0
  {
    match k
    case Primitive(_, _) => true
    case Literal(_, _) => true
    case Text(_) => true
    case Wrapped(_, _, child) => !child.Root? && WellFormed(child)
    case Array(_, child) => !child.Root? && WellFormed(child)
    case Object(_, props, keyOrder) =>
      && (forall i :: 0 <= i < |keyOrder| ==> PropIndex(props, keyOrder[i]).Some?)
      && (forall i :: 0 <= i < |props| ==> !props[i].1.Root? && WellFormed(props[i].1))
    case Union(_, variants, _) =>
      forall i :: 0 <= i < |variants| ==>
        && !variants[i].Root?
        && RecordedName(variants[i]) == variants[i].typeName
        && WellFormed(variants[i])
    case Root(_, child) => !child.Root? && WellFormed(child)
  }

  /** `json` has the shape a node's `store` reads (`typed` false), or also
      the static JSON type of the node (`typed` true: a literal holds its
      value, a primitive passes its guard and a union's tag names one of
      its variants). `store` checks none of the first two; a union whose
      tag names no variant fails in `store`, so untyped values with such
      a tag are admitted. */
  predicate Fits(k: Kind, json: Json, typed: bool)
    requires WellFormed(k)
    decreases k, 2, 0
  {
    match k
    case Primitive(_, accepts) => json.JPrim? && (typed ==> accepts(json.p))
    case Literal(_, value) => json.JPrim? && (typed ==> json.p == value)
    case Text(_) => json.JPrim? && json.p.PString?
    case Wrapped(_, _, child) => var v := Get(json, "value"); v.Some? && Fits(child, v.value, typed)
    case Array(_, child) =>
      json.JArr? && forall i :: 0 <= i < |json.items| ==> Fits(child, json.items[i], typed)
    case Object(_, props, keyOrder) => json.JObj? && FitsProps(k, 0, json, typed)
    case Union(_, variants, _) =>
      var i := VariantOf(k, json);
      && (typed ==> i.Some?)
      && (i.Some? ==> Fits(variants[i.value], json, typed))
    case Root(_, child) => Fits(child, json, typed)
  }

  /** Every property of `keyOrder[from..]` is present and fits. */
  predicate FitsProps(k: Kind, from: nat, json: Json, typed: bool)
    requires k.Object? && WellFormed(k) && from <= |k.keyOrder|
    decreases k, 1, |k.keyOrder| - from
  {
    from == |k.keyOrder| ||
      (var j := PropIndex(k.props, k.keyOrder[from]).value;
       var v := Get(json, k.keyOrder[from]);
       && v.Some? && Fits(k.props[j].1, v.value, typed)
       && FitsProps(k, from + 1, json, typed))
  }

  /** Typed values are storable. */
  lemma {:induction false} TypedFits(k: Kind, json: Json)
    requires WellFormed(k) && Fits(k, json, true)
    ensures Fits(k, json, false)
    decreases k, 2, 0
  {
    match k
    case Wrapped(_, _, child) => TypedFits(child, Get(json, "value").value);
    case Array(_, child) =>
      forall i | 0 <= i < |json.items| ensures Fits(child, json.items[i], false) {
        TypedFits(child, json.items[i]);
      }
    case Object(_, _, _) => TypedFitsProps(k, 0, json);
    case Union(_, variants, _) =>
      var i := VariantOf(k, json);
      if i.Some? {
        TypedFits(variants[i.value], json);
      }
    case Root(_, child) => TypedFits(child, json);
    case _ =>
  }

  lemma {:induction false} TypedFitsProps(k: Kind, from: nat, json: Json)
    requires k.Object? && WellFormed(k) && from <= |k.keyOrder| && FitsProps(k, from, json, true)
    ensures FitsProps(k, from, json, false)
    decreases k, 1, |k.keyOrder| - from
  {
    if from < |k.keyOrder| {
      var j := PropIndex(k.props, k.keyOrder[from]).value;
      TypedFits(k.props[j].1, Get(json, k.keyOrder[from]).value);
      TypedFitsProps(k, from + 1, json);
    }
  }

  /** The JSON value `toJsonValue` gives back for a node stored from `json`:
      primitives and text unchanged, a wrapped node rebuilt as
      `{type: tag, value}`, an array item by item, an object from the
      properties of `keyOrder` in that order, a union as its variant. */
  function Normalize(k: Kind, json: Json): Json
    requires WellFormed(k) && Fits(k, json, false)
    decreases k, 2, 0
  {
    match k
    case Primitive(_, _) => json
    case Literal(_, _) => json
    case Text(_) => json
    case Wrapped(_, tag, child) =>
      JObj([("type", JString(tag)), ("value", Normalize(child, Get(json, "value").value))])
    case Array(_, child) => JArr(NormalizeItems(k, json.items))
    case Object(_, _, _) => FromEntries(NormalizeProps(k, 0, json))
    case Union(_, variants, _) =>
      var i := VariantOf(k, json);
      if i.Some? then Normalize(variants[i.value], json) else json
    case Root(_, child) => Normalize(child, json)
  }

  function NormalizeItems(k: Kind, items: seq<Json>): (r: seq<Json>)
    requires k.Array? && WellFormed(k)
    requires forall i :: 0 <= i < |items| ==> Fits(k.child, items[i], false)
    ensures |r| == |items|
    decreases k, 1, |items|
  {
    if |items| == 0 then []
    else [Normalize(k.child, items[0])] + NormalizeItems(k, items[1..])
  }

  function NormalizeProps(k: Kind, from: nat, json: Json): (r: seq<(string, Json)>)
    requires k.Object? && WellFormed(k) && from <= |k.keyOrder| && FitsProps(k, from, json, false)
    ensures |r| == |k.keyOrder| - from
    ensures forall i :: 0 <= i < |r| ==> r[i].0 == k.keyOrder[from + i]
    decreases k, 1, |k.keyOrder| - from
  {
    if from == |k.keyOrder| then []
    else
      var name := k.keyOrder[from];
      var j := PropIndex(k.props, name).value;
      [(name, Normalize(k.props[j].1, Get(json, name).value))] + NormalizeProps(k, from + 1, json)
  }
}
