/** The flat store of src/store/store.ts: four maps, a key counter, an update
    counter and a re-entrant transaction handle. The store's readers are
    functions of a `Snapshot` of its state; the writers are methods of the
    `EditorStore` and `Transaction` classes, each tied to a transition
    function on snapshots. */
module Store {
  import opened Wrappers
  import opened Decimal
  import opened StoreTypes
  import opened Guards

  /** The store's state: the `values`, `parentKeys` and `typeNames` maps and
      the three entries of the `state` map. */
  datatype Snapshot = Snapshot(
    values: map<Key, FlatValue>,
    parentKeys: map<Key, Option<Key>>,
    typeNames: map<Key, string>,
    lastKeyNumber: nat,
    updateCount: nat,
    cursor: Option<Cursor>)

  /** A fresh document: empty maps, and the `?? 0` / `?? null` defaults. */
  const EmptyState := Snapshot(map[], map[], map[], 0, 0, None)

  function Find<V>(m: map<Key, V>, k: Key): Option<V> {
    if k in m then Some(m[k]) else None
  }

  /** `getValue(guard, key)`. */
  function GetValue(st: Snapshot, guard: Guard, key: Key): (r: Result<FlatValue>)
    ensures r.Success? <==> key in st.values && guard(st.values[key])
    ensures r.Success? ==> r.value == st.values[key] && guard(r.value)
    ensures r == Failure(NotFound) <==> key !in st.values
    ensures r == Failure(TypeMismatch) <==> key in st.values && !guard(st.values[key])
  {
    if key !in st.values then Failure(NotFound)
    else if !guard(st.values[key]) then Failure(TypeMismatch)
    else Success(st.values[key])
  }

  /** `getTypeName(key)`. */
  function GetTypeName(st: Snapshot, key: Key): (r: Result<string>)
    ensures r.Success? <==> key in st.typeNames
    ensures r.Success? ==> r.value == st.typeNames[key]
    ensures r.Failure? ==> r.error == TypeNameNotFound
  {
    if key in st.typeNames then Success(st.typeNames[key]) else Failure(TypeNameNotFound)
  }

  /** `getParentKey(key)`: `parentKeys.get(key) ?? null`. */
  function GetParentKey(st: Snapshot, key: Key): (r: Option<Key>)
    ensures r.None? <==> key !in st.parentKeys || st.parentKeys[key].None?
    ensures r.Some? ==> st.parentKeys[key] == r
  {
    if key in st.parentKeys then st.parentKeys[key] else None
  }

  /** `has(key)` consults the `values` map only. */
  predicate Has(st: Snapshot, key: Key) {
    key in st.values
  }

  datatype Allocation = Allocation(key: Key, after: Snapshot)

  /** `generateNextKey`: bumps `lastKeyNumber` by one and returns its numeral,
      a non-root key that differs from every key handed out before. */
  function NextKey(st: Snapshot): (a: Allocation)
    ensures a.after == st.(lastKeyNumber := st.lastKeyNumber + 1)
    ensures IsNonRootKey(KeyValue(a.key)) && a.key != RootKey
    ensures DigitsValue(a.key) == a.after.lastKeyNumber
    ensures forall m: nat :: m <= st.lastKeyNumber ==> NatToDecimal(m) != a.key
  {
    var next := st.lastKeyNumber + 1;
    GeneratedKeyIsNonRoot(next);
    Allocation(NatToDecimal(next), st.(lastKeyNumber := next))
  }

  /** The three writes `insert` makes once the value is created. */
  function Record(st: Snapshot, key: Key, typeName: string, parent: Key, value: FlatValue): Snapshot {
    st.(values := st.values[key := value],
        parentKeys := st.parentKeys[key := Some(parent)],
        typeNames := st.typeNames[key := typeName])
  }

  /** The second argument of `tx.update`: a literal or a function of the
      current value. */
  datatype Updater = SetTo(value: FlatValue) | Apply(f: FlatValue -> FlatValue)

  function NewValue(u: Updater, current: FlatValue): FlatValue {
    match u
    case SetTo(v) => v
    case Apply(f) => f(current)
  }

  /** `tx.update(guard, key, updateFn)`: fails as `getValue` does, otherwise
      replaces only the value under `key`. */
  function UpdateValue(st: Snapshot, guard: Guard, key: Key, u: Updater): (r: Result<Snapshot>)
    ensures r.Success? <==> GetValue(st, guard, key).Success?
    ensures r.Failure? ==> r.error == GetValue(st, guard, key).error
    ensures r.Success? ==> r.value == st.(values := st.values[key := NewValue(u, st.values[key])])
  {
    var current :- GetValue(st, guard, key);
    Success(st.(values := st.values[key := NewValue(u, current)]))
  }

  /** `tx.attachRoot(rootKey, value)`. */
  function RootAttached(st: Snapshot, rootKey: Key, value: Key): (r: Result<Snapshot>)
    ensures r.Failure? <==> Has(st, rootKey)
    ensures r.Failure? ==> r.error == RootAlreadyExists
    ensures r.Success? ==>
      && GetValue(r.value, IsNonRootKey, rootKey) == (if IsNonRootKey(KeyValue(value)) then Success(KeyValue(value)) else Failure(TypeMismatch))
      && GetParentKey(r.value, rootKey).None?
      && GetTypeName(r.value, rootKey) == Success("root")
      && forall k :: k != rootKey ==> SameAt(st, r.value, k)
  {
    if Has(st, rootKey) then Failure(RootAlreadyExists)
    else
      Success(st.(values := st.values[rootKey := KeyValue(value)],
                  parentKeys := st.parentKeys[rootKey := None],
                  typeNames := st.typeNames[rootKey := "root"]))
  }

  function IncrementUpdateCount(st: Snapshot): Snapshot {
    st.(updateCount := st.updateCount + 1)
  }

  // ---------------------------------------------------------------------
  // What a run of inserts leaves untouched. Inserts only ever write under
  // freshly numbered keys, so everything below the counter stays put.

  /** Both states hold the same entry for `key` in all three maps. */
  ghost predicate SameAt(a: Snapshot, b: Snapshot, key: Key) {
    && Find(a.values, key) == Find(b.values, key)
    && Find(a.parentKeys, key) == Find(b.parentKeys, key)
    && Find(a.typeNames, key) == Find(b.typeNames, key)
  }

  /** Both states agree on the keys numbered `lo + 1` to `hi`. */
  ghost predicate Agree(a: Snapshot, b: Snapshot, lo: nat, hi: nat) {
    forall n: nat :: lo < n <= hi ==> SameAt(a, b, NatToDecimal(n))
  }

  /** `key` is a numeral naming a number in `lo + 1` to `hi`. */
  ghost predicate Written(key: Key, lo: nat, hi: nat) {
    IsDigitString(key) && lo < DigitsValue(key) <= hi
  }

  /** `b` is `a` after inserts: only keys numbered above `a`'s counter, up to
      `b`'s counter, may differ, and the `state` entries other than the
      counter are unchanged. */
  ghost predicate Extends(a: Snapshot, b: Snapshot) {
    && a.lastKeyNumber <= b.lastKeyNumber
    && a.updateCount == b.updateCount
    && a.cursor == b.cursor
    && forall key :: !Written(key, a.lastKeyNumber, b.lastKeyNumber) ==> SameAt(a, b, key)
  }

  lemma ExtendsReflexive(a: Snapshot)
    ensures Extends(a, a)
  {
  }

  lemma ExtendsTransitive(a: Snapshot, b: Snapshot, c: Snapshot)
    requires Extends(a, b) && Extends(b, c)
    ensures Extends(a, c)
  {
    forall key | !Written(key, a.lastKeyNumber, c.lastKeyNumber)
      ensures SameAt(a, c, key)
    {
      assert SameAt(a, b, key);
      assert SameAt(b, c, key);
    }
  }

  /** Allocating a key extends the state. */
  lemma NextKeyExtends(st: Snapshot)
    ensures Extends(st, NextKey(st).after)
  {
  }

  /** Recording an entry under a key numbered in the extension keeps it an
      extension. */
  lemma RecordExtends(a: Snapshot, b: Snapshot, key: Key, typeName: string, parent: Key, value: FlatValue)
    requires Extends(a, b)
    requires Written(key, a.lastKeyNumber, b.lastKeyNumber)
    ensures Extends(a, Record(b, key, typeName, parent, value))
  {
    var c := Record(b, key, typeName, parent, value);
    forall k | !Written(k, a.lastKeyNumber, c.lastKeyNumber)
      ensures SameAt(a, c, k)
    {
      assert k != key;
      assert SameAt(a, b, k);
    }
  }

  /** What an extension leaves alone: every key numbered at most the old
      counter. */
  lemma ExtendsAgree(a: Snapshot, b: Snapshot, lo: nat)
    requires Extends(a, b)
    ensures Agree(a, b, lo, a.lastKeyNumber)
  {
    forall n: nat | lo < n <= a.lastKeyNumber
      ensures SameAt(a, b, NatToDecimal(n))
    {
      assert !Written(NatToDecimal(n), a.lastKeyNumber, b.lastKeyNumber);
    }
  }

  /** Recording under key number `n` leaves the keys numbered above `n` alone. */
  lemma RecordAgree(b: Snapshot, n: nat, typeName: string, parent: Key, value: FlatValue, hi: nat)
    ensures Agree(b, Record(b, NatToDecimal(n), typeName, parent, value), n, hi)
  {
    forall m: nat | n < m <= hi
      ensures SameAt(b, Record(b, NatToDecimal(n), typeName, parent, value), NatToDecimal(m))
    {
      DecimalInjective(m, n);
    }
  }

  lemma AgreeTransitive(a: Snapshot, b: Snapshot, c: Snapshot, lo: nat, hi: nat)
    requires Agree(a, b, lo, hi) && Agree(b, c, lo, hi)
    ensures Agree(a, c, lo, hi)
  {
    forall n: nat | lo < n <= hi
      ensures SameAt(a, c, NatToDecimal(n))
    {
      assert SameAt(a, b, NatToDecimal(n));
      assert SameAt(b, c, NatToDecimal(n));
    }
  }

  lemma AgreeNarrow(a: Snapshot, b: Snapshot, lo: nat, hi: nat, lo': nat, hi': nat)
    requires Agree(a, b, lo, hi)
    requires lo <= lo' && hi' <= hi
    ensures Agree(a, b, lo', hi')
  {
  }

  // ---------------------------------------------------------------------

  class EditorStore {
    var values: map<Key, FlatValue>
    var parentKeys: map<Key, Option<Key>>
    var typeNames: map<Key, string>
    var lastKeyNumber: nat
    var updateCount: nat
    var cursor: Option<Cursor>
    var currentTransaction: Transaction?

    function State(): Snapshot
      reads this
    {
      Snapshot(values, parentKeys, typeNames, lastKeyNumber, updateCount, cursor)
    }

    /** An open transaction always writes to this store. */
    ghost predicate Valid()
      reads this
    {
      currentTransaction != null ==> currentTransaction.store == this
    }

    /** `new EditorStore(ydoc)`: every map, the key counter included, lives
        in the document, which by default is the process-wide one; a second
        store over it sees what the first wrote and goes on numbering keys
        where the first stopped. A fresh document is `EmptyState`. */
    constructor (doc: Snapshot)
      ensures Valid() && State() == doc && currentTransaction == null
    {
      values, parentKeys, typeNames := doc.values, doc.parentKeys, doc.typeNames;
      lastKeyNumber, updateCount := doc.lastKeyNumber, doc.updateCount;
      cursor := doc.cursor;
      currentTransaction := null;
    }

    /** The `updateCount` getter. */
    function UpdateCount(): nat
      reads this
    {
      updateCount
    }

    /** `generateNextKey`. */
    method GenerateNextKey() returns (key: Key)
      modifies this`lastKeyNumber
      ensures Allocation(key, State()) == NextKey(old(State()))
    {
      lastKeyNumber := lastKeyNumber + 1;
      key := NatToDecimal(lastKeyNumber);
    }

    /** The entry half of `update(updateFn)`: a nested call reuses the open
        transaction; the outermost call opens a fresh one. */
    method BeginUpdate() returns (tx: Transaction, outermost: bool)
      requires Valid()
      modifies this`currentTransaction
      ensures Valid() && tx.store == this
      ensures outermost <==> old(currentTransaction) == null
      ensures outermost ==> fresh(tx) && currentTransaction == tx
      ensures !outermost ==> tx == old(currentTransaction) && currentTransaction == old(currentTransaction)
    {
      if currentTransaction != null {
        tx, outermost := currentTransaction, false;
      } else {
        tx := new Transaction(this);
        currentTransaction, outermost := tx, true;
      }
    }

    /** The exit half of `update(updateFn)`, after the body has run to
        completion or raised. Only the outermost call counts the update (and
        only on completion) and always clears the handle; writes made before
        a failure stay in place. */
    method EndUpdate(outermost: bool, completed: bool)
      requires Valid()
      modifies this`updateCount, this`currentTransaction
      ensures Valid()
      ensures outermost ==> currentTransaction == null
      ensures outermost && completed ==> State() == IncrementUpdateCount(old(State()))
      ensures !(outermost && completed) ==> State() == old(State())
      ensures !outermost ==> currentTransaction == old(currentTransaction)
    {
      if outermost {
        if completed {
          updateCount := updateCount + 1;
        }
        currentTransaction := null;
      }
    }
  }

  /** The object `createNewTransaction` returns: closures over the store. */
  class Transaction {
    const store: EditorStore

    constructor (store: EditorStore)
      ensures this.store == store
    {
      this.store := store;
    }

    /** `tx.update(guard, key, updateFn)`. */
    method Update(guard: Guard, key: Key, u: Updater) returns (r: Result<()>)
      modifies store`values
      ensures var o := UpdateValue(old(store.State()), guard, key, u);
        && (r.Success? <==> o.Success?)
        && (o.Success? ==> store.State() == o.value)
        && (o.Failure? ==> r.error == o.error && store.State() == old(store.State()))
    {
      var current := GetValue(store.State(), guard, key);
      if current.Failure? {
        return Failure(current.error);
      }
      store.values := store.values[key := NewValue(u, current.value)];
      r := Success(());
    }

    /** `tx.attachRoot(rootKey, value)`. */
    method AttachRoot(rootKey: Key, value: Key) returns (r: Result<Key>)
      modifies store`values, store`parentKeys, store`typeNames
      ensures var o := RootAttached(old(store.State()), rootKey, value);
        && (o.Success? ==> r == Success(rootKey) && store.State() == o.value)
        && (o.Failure? ==> r == Failure(o.error) && store.State() == old(store.State()))
    {
      if rootKey in store.values {
        return Failure(RootAlreadyExists);
      }
      store.values := store.values[rootKey := KeyValue(value)];
      store.parentKeys := store.parentKeys[rootKey := None];
      store.typeNames := store.typeNames[rootKey := "root"];
      r := Success(rootKey);
    }

    /** The first half of `tx.insert(typeName, parentKey, createValue)`: the
        key is allocated before `createValue` runs. */
    method BeginInsert() returns (key: Key)
      modifies store`lastKeyNumber
      ensures Allocation(key, store.State()) == NextKey(old(store.State()))
    {
      key := store.GenerateNextKey();
    }

    /** The second half of `tx.insert`: once `createValue(key)` has produced
        `value`, record value, parent and type name under `key`. */
    method FinishInsert(key: Key, typeName: string, parent: Key, value: FlatValue) returns (k: Key)
      modifies store`values, store`parentKeys, store`typeNames
      ensures k == key
      ensures store.State() == Record(old(store.State()), key, typeName, parent, value)
    {
      store.values := store.values[key := value];
      store.parentKeys := store.parentKeys[key := Some(parent)];
      store.typeNames := store.typeNames[key := typeName];
      k := key;
    }

    /** `tx.setCursor(cursor)`: replaces the `cursor` entry only. */
    method SetCursor(c: Cursor)
      modifies store`cursor
      ensures store.State() == old(store.State()).(cursor := Some(c))
    {
      store.cursor := Some(c);
    }

    /** `tx.setCaret(point)`: a collapsed cursor at `point`. */
    method SetCaret(p: Point)
      modifies store`cursor
      ensures store.State() == old(store.State()).(cursor := Some(Cursor(p, p)))
    {
      SetCursor(Cursor(p, p));
    }
  }

  /** Two nested `update` calls around one body: the count moves by one. */
  method NestedUpdateCountsOnce(s: EditorStore)
    requires s.Valid() && s.currentTransaction == null
    modifies s
    ensures s.Valid() && s.currentTransaction == null
    ensures s.State() == IncrementUpdateCount(old(s.State()))
  {
    var outer, outermost := s.BeginUpdate();
    var inner, innermost := s.BeginUpdate();
    assert inner == outer && !innermost;
    s.EndUpdate(innermost, true);
    s.EndUpdate(outermost, true);
  }
}
