/** The node types' `store`, `attachRoot` and `updateValue` methods, which
    write through a transaction; each is proved to do what the matching
    function of `Codec` describes. */
module NodeStore {
  import opened Wrappers
  import opened StoreTypes
  import opened JsonValues
  import opened Store
  import opened NodeKinds
  import Codec

  /** Appending one more key to the keys gathered so far. */
  lemma PrependPrepend<T>(xs: seq<T>, ys: seq<T>, o: Codec.Outcome<seq<T>>)
    ensures Codec.Prepend(xs, Codec.Prepend(ys, o)) == Codec.Prepend(xs + ys, o)
  {
    if o.result.Success? {
      assert xs + (ys + o.result.value) == (xs + ys) + o.result.value;
    }
  }

  /** The `i`-th item's `store`, then the rest of the items'. */
  lemma EncodeItemsAt(k: Kind, items: seq<Json>, i: nat, parent: Key, st: Snapshot)
    requires k.Array? && WellFormed(k) && i < |items|
    requires forall j :: 0 <= j < |items| ==> Fits(k.child, items[j], false)
    ensures var c := Codec.Encode(k.child, items[i], parent, st);
      Codec.EncodeItems(k, items[i..], parent, st)
      == if c.result.Failure? then Codec.Outcome(Failure(c.result.error), c.after)
         else Codec.Prepend([c.result.value], Codec.EncodeItems(k, items[i + 1..], parent, c.after))
  {
    assert items[i..][0] == items[i];
    assert items[i..][1..] == items[i + 1..];
  }

  /** The `from`-th property's `store`, then the rest of the properties'. */
  lemma EncodePropsAt(k: Kind, from: nat, json: Json, parent: Key, st: Snapshot)
    requires k.Object? && WellFormed(k) && from < |k.keyOrder| && FitsProps(k, from, json, false)
    ensures var name := k.keyOrder[from];
      var j := PropIndex(k.props, name);
      var v := Get(json, name);
      && j.Some? && v.Some? && Fits(k.props[j.value].1, v.value, false)
      && FitsProps(k, from + 1, json, false)
      && var c := Codec.Encode(k.props[j.value].1, v.value, parent, st);
      Codec.EncodeProps(k, from, json, parent, st)
      == if c.result.Failure? then Codec.Outcome(Failure(c.result.error), c.after)
         else Codec.Prepend([(name, c.result.value)], Codec.EncodeProps(k, from + 1, json, parent, c.after))
  {
  }

  lemma PrependNothing<T>(o: Codec.Outcome<seq<T>>)
    ensures Codec.Prepend([], o) == o
  {
    if o.result.Success? {
      assert [] + o.result.value == o.result.value;
    }
  }

  /** `store(tx, json, parentKey)`: allocate the key, store the children
      below it, then record the node. */
  method StoreNode(tx: Transaction, k: Kind, json: Json, parent: Key) returns (r: Result<Key>)
    requires WellFormed(k) && !k.Root? && Fits(k, json, false)
    modifies tx.store`values, tx.store`parentKeys, tx.store`typeNames, tx.store`lastKeyNumber
    ensures Codec.Outcome(r, tx.store.State()) == Codec.Encode(k, json, parent, old(tx.store.State()))
    decreases k, 2, 0
  {
    match k
    case Primitive(tn, _) =>
      var key := tx.BeginInsert();
      key := tx.FinishInsert(key, tn, parent, FPrim(json.p));
      r := Success(key);
    case Literal(tn, _) =>
      var key := tx.BeginInsert();
      key := tx.FinishInsert(key, tn, parent, FPrim(json.p));
      r := Success(key);
    case Text(tn) =>
      var key := tx.BeginInsert();
      key := tx.FinishInsert(key, tn, parent, FText(json.p.s));
      r := Success(key);
    case Wrapped(_, tag, child) =>
      var key := tx.BeginInsert();
      var c := StoreNode(tx, child, Get(json, "value").value, key);
      if c.Failure? {
        return Failure(c.error);
      }
      key := tx.FinishInsert(key, tag, parent, KeyValue(c.value));
      r := Success(key);
    case Array(tn, _) =>
      var key := tx.BeginInsert();
      var c := StoreItems(tx, k, json.items, key);
      if c.Failure? {
        return Failure(c.error);
      }
      key := tx.FinishInsert(key, tn, parent, FList(Codec.KeyValues(c.value)));
      r := Success(key);
    case Object(tn, _, _) =>
      var key := tx.BeginInsert();
      var c := StoreProps(tx, k, json, key);
      if c.Failure? {
        return Failure(c.error);
      }
      key := tx.FinishInsert(key, tn, parent, FList(Codec.PairValues(c.value)));
      r := Success(key);
    case Union(tn, variants, _) =>
      var i := VariantOf(k, json);
      if i.None? {
        return Failure(UnknownVariant);
      }
      var key := tx.BeginInsert();
      var c := StoreNode(tx, variants[i.value], json, key);
      if c.Failure? {
        return Failure(c.error);
      }
      key := tx.FinishInsert(key, tn, parent, KeyValue(c.value));
      r := Success(key);
  }

  /** `json.map((item) => childType.store(tx, item, key))` of an array node. */
  method StoreItems(tx: Transaction, k: Kind, items: seq<Json>, parent: Key) returns (r: Result<seq<Key>>)
    requires k.Array? && WellFormed(k)
    requires forall i :: 0 <= i < |items| ==> Fits(k.child, items[i], false)
    modifies tx.store`values, tx.store`parentKeys, tx.store`typeNames, tx.store`lastKeyNumber
    ensures Codec.Outcome(r, tx.store.State()) == Codec.EncodeItems(k, items, parent, old(tx.store.State()))
    decreases k, 1, 0
  {
    var keys: seq<Key> := [];
    var i := 0;
    PrependNothing(Codec.EncodeItems(k, items, parent, tx.store.State()));
    while i < |items|
      invariant 0 <= i <= |items|
      invariant Codec.EncodeItems(k, items, parent, old(tx.store.State()))
        == Codec.Prepend(keys, Codec.EncodeItems(k, items[i..], parent, tx.store.State()))
      decreases |items| - i
    {
      EncodeItemsAt(k, items, i, parent, tx.store.State());
      var c := StoreNode(tx, k.child, items[i], parent);
      if c.Failure? {
        return Failure(c.error);
      }
      PrependPrepend(keys, [c.value], Codec.EncodeItems(k, items[i + 1..], parent, tx.store.State()));
      keys := keys + [c.value];
      i := i + 1;
    }
    assert items[i..] == [];
    assert keys + [] == keys;
    r := Success(keys);
  }

  /** `keyOrder.map((prop) => [prop, childTypes[prop].store(tx, json[prop], key)])`
      of an object node. */
  method StoreProps(tx: Transaction, k: Kind, json: Json, parent: Key) returns (r: Result<seq<(string, Key)>>)
    requires k.Object? && WellFormed(k) && FitsProps(k, 0, json, false)
    modifies tx.store`values, tx.store`parentKeys, tx.store`typeNames, tx.store`lastKeyNumber
    ensures Codec.Outcome(r, tx.store.State()) == Codec.EncodeProps(k, 0, json, parent, old(tx.store.State()))
    decreases k, 1, 0
  {
    var pairs: seq<(string, Key)> := [];
    var i := 0;
    PrependNothing(Codec.EncodeProps(k, 0, json, parent, tx.store.State()));
    while i < |k.keyOrder|
      invariant 0 <= i <= |k.keyOrder| && FitsProps(k, i, json, false)
      invariant Codec.EncodeProps(k, 0, json, parent, old(tx.store.State()))
        == Codec.Prepend(pairs, Codec.EncodeProps(k, i, json, parent, tx.store.State()))
      decreases |k.keyOrder| - i
    {
      EncodePropsAt(k, i, json, parent, tx.store.State());
      var name := k.keyOrder[i];
      var j := PropIndex(k.props, name).value;
      var c := StoreNode(tx, k.props[j].1, Get(json, name).value, parent);
      if c.Failure? {
        return Failure(c.error);
      }
      PrependPrepend(pairs, [(name, c.value)], Codec.EncodeProps(k, i + 1, json, parent, tx.store.State()));
      pairs := pairs + [(name, c.value)];
      i := i + 1;
    }
    assert pairs + [] == pairs;
    r := Success(pairs);
  }

  /** `attachRoot(tx, rootKey, json)` of a root node. */
  method AttachRootNode(tx: Transaction, k: Kind, json: Json, rootKey: Key) returns (r: Result<()>)
    requires k.Root? && WellFormed(k) && Fits(k, json, false)
    modifies tx.store`values, tx.store`parentKeys, tx.store`typeNames, tx.store`lastKeyNumber
    ensures Codec.Outcome(r, tx.store.State()) == Codec.AttachRootNode(k, json, rootKey, old(tx.store.State()))
  {
    var c := StoreNode(tx, k.child, json, rootKey);
    if c.Failure? {
      return Failure(c.error);
    }
    var a := tx.AttachRoot(rootKey, c.value);
    if a.Failure? {
      return Failure(a.error);
    }
    r := Success(());
  }

  /** `updateValue(tx, key, newValue)` of a primitive or literal node: the
      node's guard checks the current value, not the new one. */
  method UpdatePrimitive(tx: Transaction, k: Kind, key: Key, newValue: Primitive) returns (r: Result<()>)
    requires k.Primitive? || k.Literal?
    modifies tx.store`values
    ensures var o := UpdateValue(old(tx.store.State()), Validator(k), key, SetTo(FPrim(newValue)));
      && (r.Success? <==> o.Success?)
      && (o.Success? ==> tx.store.State() == o.value)
      && (o.Failure? ==> r.error == o.error && tx.store.State() == old(tx.store.State()))
  {
    r := tx.Update(Validator(k), key, SetTo(FPrim(newValue)));
  }
}
