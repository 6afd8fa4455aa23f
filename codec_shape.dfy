/** What `store` leaves in the store: writes only under freshly numbered
    keys, records the key it returns under the given parent, and hands out
    increasing key numbers to siblings. */
module CodecShape {
  import opened Wrappers
  import opened Decimal
  import opened StoreTypes
  import opened JsonValues
  import opened Store
  import opened NodeKinds
  import opened Codec

  /** `key` holds a value, the parent `parent` and the type name `name`. */
  ghost predicate StoredUnder(st: Snapshot, key: Key, parent: Key, name: string) {
    && Find(st.values, key).Some?
    && Find(st.parentKeys, key) == Some(Some(parent))
    && Find(st.typeNames, key) == Some(name)
  }

  /** The key numbers in `keys` lie in `lo + 1` to `hi` and increase. */
  ghost predicate FreshKeys(keys: seq<Key>, lo: nat, hi: nat) {
    && (forall i :: 0 <= i < |keys| ==> Written(keys[i], lo, hi))
    && (forall i, j :: 0 <= i < j < |keys| ==> DigitsValue(keys[i]) < DigitsValue(keys[j]))
  }

  /** An entry written at or below `a`'s counter survives an extension. */
  lemma StoredUnderKept(a: Snapshot, b: Snapshot, key: Key, parent: Key, name: string)
    requires Extends(a, b) && StoredUnder(a, key, parent, name)
    requires IsDigitString(key) && DigitsValue(key) <= a.lastKeyNumber
    ensures StoredUnder(b, key, parent, name)
  {
    assert !Written(key, a.lastKeyNumber, b.lastKeyNumber);
    assert SameAt(a, b, key);
  }

  /** Completing an insert under the key just allocated. */
  lemma CompleteShape(st: Snapshot, mid: Snapshot, typeName: string, parent: Key, value: Result<FlatValue>)
    requires Extends(NextKey(st).after, mid)
    ensures var o := Complete(NextKey(st).key, typeName, parent, value, mid);
      && Extends(st, o.after)
      && o.after.lastKeyNumber == mid.lastKeyNumber
      && (o.result.Success? ==>
            && o.result.value == NatToDecimal(st.lastKeyNumber + 1)
            && StoredUnder(o.after, o.result.value, parent, typeName)
            && o.after.values[o.result.value] == value.value)
  {
    var a := NextKey(st);
    NextKeyExtends(st);
    ExtendsTransitive(st, a.after, mid);
    if value.Success? {
      RecordExtends(st, mid, a.key, typeName, parent, value.value);
    }
  }

  /** A stored node sits under the next key number, below its parent and
      with the name its node type stores it under; on failure, too, only
      fresh keys were written. */
  lemma {:induction false} EncodeShape(k: Kind, json: Json, parent: Key, st: Snapshot)
    requires WellFormed(k) && !k.Root? && Fits(k, json, false)
    ensures var o := Encode(k, json, parent, st);
      && Extends(st, o.after)
      && (o.result.Success? ==>
            && o.result.value == NatToDecimal(st.lastKeyNumber + 1)
            && st.lastKeyNumber + 1 <= o.after.lastKeyNumber
            && StoredUnder(o.after, o.result.value, parent, RecordedName(k)))
    decreases k, 2, 0
  {
    var a := NextKey(st);
    match k
    case Primitive(tn, _) =>
      ExtendsReflexive(a.after);
      CompleteShape(st, a.after, tn, parent, Success(FPrim(json.p)));
    case Literal(tn, _) =>
      ExtendsReflexive(a.after);
      CompleteShape(st, a.after, tn, parent, Success(FPrim(json.p)));
    case Text(tn) =>
      ExtendsReflexive(a.after);
      CompleteShape(st, a.after, tn, parent, Success(FText(json.p.s)));
    case Wrapped(_, tag, child) =>
      var c := Encode(child, Get(json, "value").value, a.key, a.after);
      EncodeShape(child, Get(json, "value").value, a.key, a.after);
      CompleteShape(st, c.after, tag, parent, KeyResult(c.result));
    case Array(tn, _) =>
      var c := EncodeItems(k, json.items, a.key, a.after);
      EncodeItemsShape(k, json.items, a.key, a.after);
      CompleteShape(st, c.after, tn, parent,
        if c.result.Success? then Success(FList(KeyValues(c.result.value))) else Failure(c.result.error));
    case Object(tn, _, _) =>
      var c := EncodeProps(k, 0, json, a.key, a.after);
      EncodePropsShape(k, 0, json, a.key, a.after);
      CompleteShape(st, c.after, tn, parent,
        if c.result.Success? then Success(FList(PairValues(c.result.value))) else Failure(c.result.error));
    case Union(tn, variants, _) =>
      var i := VariantOf(k, json);
      if i.None? {
        ExtendsReflexive(st);
      } else {
        var c := Encode(variants[i.value], json, a.key, a.after);
        EncodeShape(variants[i.value], json, a.key, a.after);
        CompleteShape(st, c.after, tn, parent, KeyResult(c.result));
      }
  }

  /** Every key of `keys` is stored below `parent` under `name`. */
  ghost predicate AllStoredUnder(st: Snapshot, keys: seq<Key>, parent: Key, name: string) {
    forall i :: 0 <= i < |keys| ==> StoredUnder(st, keys[i], parent, name)
  }

  /** Every entry of `pairs` is stored below `parent` under the name of its
      property's node type. */
  ghost predicate PropsStoredUnder(st: Snapshot, k: Kind, pairs: seq<(string, Key)>, parent: Key)
    requires k.Object?
  {
    forall i :: 0 <= i < |pairs| ==> StoredUnder(st, pairs[i].1, parent, RecordedName(PropKind(k, pairs[i].0)))
  }

  lemma FreshKeysCons(first: Key, rest: seq<Key>, lo: nat, mid: nat, hi: nat)
    requires Written(first, lo, mid) && FreshKeys(rest, mid, hi) && mid <= hi
    ensures FreshKeys([first] + rest, lo, hi)
  {
    var keys := [first] + rest;
    forall i | 0 <= i < |keys|
      ensures Written(keys[i], lo, hi)
    {
      if i > 0 {
        assert keys[i] == rest[i - 1];
      }
    }
    forall i, j | 0 <= i < j < |keys|
      ensures DigitsValue(keys[i]) < DigitsValue(keys[j])
    {
      assert keys[j] == rest[j - 1];
      if i > 0 {
        assert keys[i] == rest[i - 1];
      }
    }
  }

  lemma AllStoredUnderCons(st: Snapshot, first: Key, rest: seq<Key>, parent: Key, name: string)
    requires StoredUnder(st, first, parent, name) && AllStoredUnder(st, rest, parent, name)
    ensures AllStoredUnder(st, [first] + rest, parent, name)
  {
    var keys := [first] + rest;
    forall i | 0 <= i < |keys|
      ensures StoredUnder(st, keys[i], parent, name)
    {
      if i > 0 {
        assert keys[i] == rest[i - 1];
      }
    }
  }

  lemma PropsStoredUnderCons(st: Snapshot, k: Kind, first: (string, Key), rest: seq<(string, Key)>, parent: Key)
    requires k.Object?
    requires StoredUnder(st, first.1, parent, RecordedName(PropKind(k, first.0)))
    requires PropsStoredUnder(st, k, rest, parent)
    ensures PropsStoredUnder(st, k, [first] + rest, parent)
  {
    var pairs := [first] + rest;
    forall i | 0 <= i < |pairs|
      ensures StoredUnder(st, pairs[i].1, parent, RecordedName(PropKind(k, pairs[i].0)))
    {
      if i > 0 {
        assert pairs[i] == rest[i - 1];
      }
    }
  }

  /** The items of an array are stored in order under increasing fresh keys,
      each below the array. */
  lemma {:induction false} EncodeItemsShape(k: Kind, items: seq<Json>, parent: Key, st: Snapshot)
    requires k.Array? && WellFormed(k)
    requires forall i :: 0 <= i < |items| ==> Fits(k.child, items[i], false)
    ensures var o := EncodeItems(k, items, parent, st);
      && Extends(st, o.after)
      && (o.result.Success? ==>
            && |o.result.value| == |items|
            && FreshKeys(o.result.value, st.lastKeyNumber, o.after.lastKeyNumber)
            && AllStoredUnder(o.after, o.result.value, parent, RecordedName(k.child)))
    decreases k, 1, |items|
  {
    if |items| == 0 {
      ExtendsReflexive(st);
    } else {
      var c := Encode(k.child, items[0], parent, st);
      EncodeShape(k.child, items[0], parent, st);
      if c.result.Success? {
        var rest := EncodeItems(k, items[1..], parent, c.after);
        EncodeItemsShape(k, items[1..], parent, c.after);
        ExtendsTransitive(st, c.after, rest.after);
        if rest.result.Success? {
          StoredUnderKept(c.after, rest.after, c.result.value, parent, RecordedName(k.child));
          AllStoredUnderCons(rest.after, c.result.value, rest.result.value, parent, RecordedName(k.child));
          FreshKeysCons(c.result.value, rest.result.value, st.lastKeyNumber, c.after.lastKeyNumber, rest.after.lastKeyNumber);
        }
      }
    }
  }

  /** The properties of `keyOrder[from..]` are stored in that order under
      increasing fresh keys, each below the object. */
  lemma {:induction false} EncodePropsShape(k: Kind, from: nat, json: Json, parent: Key, st: Snapshot)
    requires k.Object? && WellFormed(k) && from <= |k.keyOrder| && FitsProps(k, from, json, false)
    ensures var o := EncodeProps(k, from, json, parent, st);
      && Extends(st, o.after)
      && (o.result.Success? ==>
            var pairs := o.result.value;
            && |pairs| == |k.keyOrder| - from
            && PairNames(pairs) == k.keyOrder[from..]
            && FreshKeys(PairKeys(pairs), st.lastKeyNumber, o.after.lastKeyNumber)
            && PropsStoredUnder(o.after, k, pairs, parent))
    decreases k, 1, |k.keyOrder| - from
  {
    if from == |k.keyOrder| {
      ExtendsReflexive(st);
    } else {
      var name := k.keyOrder[from];
      var j := PropIndex(k.props, name).value;
      var c := Encode(k.props[j].1, Get(json, name).value, parent, st);
      EncodeShape(k.props[j].1, Get(json, name).value, parent, st);
      if c.result.Success? {
        var rest := EncodeProps(k, from + 1, json, parent, c.after);
        EncodePropsShape(k, from + 1, json, parent, c.after);
        PropsStep(k, from, parent, st, c, rest);
      }
    }
  }

  /** One step of `EncodePropsShape`: the first property stored, then the rest. */
  lemma PropsStep(k: Kind, from: nat, parent: Key, st: Snapshot, c: Outcome<Key>, rest: Outcome<seq<(string, Key)>>)
    requires k.Object? && from < |k.keyOrder|
    requires c.result.Success? && c.result.value == NatToDecimal(st.lastKeyNumber + 1)
    requires st.lastKeyNumber + 1 <= c.after.lastKeyNumber
    requires StoredUnder(c.after, c.result.value, parent, RecordedName(PropKind(k, k.keyOrder[from])))
    requires Extends(st, c.after) && Extends(c.after, rest.after)
    requires rest.result.Success? ==>
      var pairs := rest.result.value;
      && |pairs| == |k.keyOrder| - (from + 1)
      && PairNames(pairs) == k.keyOrder[from + 1..]
      && FreshKeys(PairKeys(pairs), c.after.lastKeyNumber, rest.after.lastKeyNumber)
      && PropsStoredUnder(rest.after, k, pairs, parent)
    ensures var o := Prepend([(k.keyOrder[from], c.result.value)], rest);
      && Extends(st, o.after)
      && (o.result.Success? ==>
            var pairs := o.result.value;
            && |pairs| == |k.keyOrder| - from
            && PairNames(pairs) == k.keyOrder[from..]
            && FreshKeys(PairKeys(pairs), st.lastKeyNumber, o.after.lastKeyNumber)
            && PropsStoredUnder(o.after, k, pairs, parent))
  {
    ExtendsTransitive(st, c.after, rest.after);
    if rest.result.Success? {
      var name := k.keyOrder[from];
      var pairs := [(name, c.result.value)] + rest.result.value;
      StoredUnderKept(c.after, rest.after, c.result.value, parent, RecordedName(PropKind(k, name)));
      PropsStoredUnderCons(rest.after, k, (name, c.result.value), rest.result.value, parent);
      PairsCons((name, c.result.value), rest.result.value);
      FreshKeysCons(c.result.value, PairKeys(rest.result.value), st.lastKeyNumber, c.after.lastKeyNumber, rest.after.lastKeyNumber);
      SliceCons(k.keyOrder, from);
    }
  }

  lemma SliceCons<T>(s: seq<T>, from: nat)
    requires from < |s|
    ensures s[from..] == [s[from]] + s[from + 1..]
  {
  }

  lemma PairsCons(pair: (string, Key), pairs: seq<(string, Key)>)
    ensures PairKeys([pair] + pairs) == [pair.1] + PairKeys(pairs)
    ensures PairNames([pair] + pairs) == [pair.0] + PairNames(pairs)
  {
    PairKeysCons(pair, pairs);
    PairNamesCons(pair, pairs);
  }

  lemma PairKeysCons(pair: (string, Key), pairs: seq<(string, Key)>)
    ensures PairKeys([pair] + pairs) == [pair.1] + PairKeys(pairs)
  {
    var all := [pair] + pairs;
    var a := PairKeys(all);
    var b := [pair.1] + PairKeys(pairs);
    forall i | 0 <= i < |a| ensures a[i] == b[i] {
      if i > 0 {
        assert all[i] == pairs[i - 1];
      }
    }
  }

  lemma PairNamesCons(pair: (string, Key), pairs: seq<(string, Key)>)
    ensures PairNames([pair] + pairs) == [pair.0] + PairNames(pairs)
  {
    var all := [pair] + pairs;
    var a := PairNames(all);
    var b := [pair.0] + PairNames(pairs);
    forall i | 0 <= i < |a| ensures a[i] == b[i] {
      if i > 0 {
        assert all[i] == pairs[i - 1];
      }
    }
  }
}
