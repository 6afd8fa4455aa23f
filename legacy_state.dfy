/** The earlier, self-contained state of src/state: one `entries` map of
    `{type, key, parentKey, value}` records, a key counter kept in the
    instance (starting at -1) and an update counter. Keys are written
    `type:n`. The readers are functions of a `LegacySnapshot`; the writers
    are methods of `EditorState` and of its `Transaction`, each proved equal
    to a function on snapshots. */
module LegacyState {
  import opened Wrappers
  import opened Decimal

  // ---------------------------------------------------------------------
  // Keys `type:n`.

  /** The key `generateKey(type)` makes from counter value `n`. */
  function LegacyKey(typeName: string, n: nat): string {
    typeName + ":" + NatToDecimal(n)
  }

  predicate NoColon(s: string) {
    forall i :: 0 <= i < |s| ==> s[i] != ':'
  }

  /** The characters of `k` before its first colon (all of `k` if none). */
  function Prefix(k: string): (r: string)
    ensures |r| <= |k| && NoColon(r)
    decreases |k|
  {
    if |k| == 0 || k[0] == ':' then "" else [k[0]] + Prefix(k[1..])
  }

  /** The characters of `k` after its first colon ("" if none). */
  function Suffix(k: string): (r: string)
    ensures |r| < |k| || r == ""
    decreases |k|
  {
    if |k| == 0 then "" else if k[0] == ':' then k[1..] else Suffix(k[1..])
  }

  /** A key splits at its first colon into the type and the numeral. */
  lemma {:induction false} KeyParts(typeName: string, rest: string)
    requires NoColon(typeName)
    ensures Prefix(typeName + ":" + rest) == typeName
    ensures Suffix(typeName + ":" + rest) == rest
    decreases |typeName|
  {
    var k := typeName + ":" + rest;
    if |typeName| == 0 {
      assert k == ":" + rest;
      assert k[1..] == rest;
    } else {
      assert k[1..] == typeName[1..] + ":" + rest;
      KeyParts(typeName[1..], rest);
      assert [typeName[0]] + typeName[1..] == typeName;
    }
  }

  /** Generated keys name their type and counter value: two are equal only
      when both agree. */
  lemma LegacyKeyInjective(t: string, n: nat, t': string, m: nat)
    requires NoColon(t) && NoColon(t')
    ensures Prefix(LegacyKey(t, n)) == t && Suffix(LegacyKey(t, n)) == NatToDecimal(n)
    ensures LegacyKey(t, n) == LegacyKey(t', m) <==> t == t' && n == m
  {
    KeyParts(t, NatToDecimal(n));
    KeyParts(t', NatToDecimal(m));
    assert t + ":" + NatToDecimal(n) == LegacyKey(t, n);
    assert t' + ":" + NatToDecimal(m) == LegacyKey(t', m);
    if LegacyKey(t, n) == LegacyKey(t', m) {
      DecimalInjective(n, m);
    }
  }

  /** A key of type `Key<RootNode>`: `root:` followed by a number. */
  predicate IsRootEntryKey(k: string) {
    |k| >= 5 && k[..5] == "root:"
  }

  lemma RootEntryKeyPrefix(k: string)
    requires IsRootEntryKey(k)
    ensures Prefix(k) == "root"
  {
    assert k == "root" + ":" + k[5..];
    KeyParts("root", k[5..]);
  }

  // ---------------------------------------------------------------------
  // Entries and the state they live in.

  /** `EntryValue`: a text handle (held as its characters), the key of the
      one child, or the keys of the children. */
  datatype EntryValue = LText(text: string) | LKey(child: string) | LKeys(children: seq<string>)

  /** `Entry`: the record stored under a key; the root's parent is `null`. */
  datatype Entry = Entry(typeName: string, key: string, parentKey: Option<string>, value: EntryValue)

  datatype LegacySnapshot = LegacySnapshot(entries: map<string, Entry>, lastKey: int, updateCount: nat)

  /** Each entry is stored under its own key, and every key is a root key or
      was generated with a counter value the counter has reached. */
  ghost predicate ValidState(st: LegacySnapshot) {
    && st.lastKey >= -1
    && forall k :: k in st.entries ==>
        && st.entries[k].key == k
        && (Prefix(k) == "root" || (IsDigitString(Suffix(k)) && DigitsValue(Suffix(k)) <= st.lastKey))
  }

  /** `get(key)`: the entry, or a failure when there is none. */
  function GetEntry(st: LegacySnapshot, key: string): (r: Result<Entry>)
    ensures r.Success? <==> key in st.entries
    ensures r.Success? ==> r.value == st.entries[key]
    ensures r.Failure? ==> r.error == EntryNotFound
  {
    if key in st.entries then Success(st.entries[key]) else Failure(EntryNotFound)
  }

  /** `has(key)`. */
  predicate HasEntry(st: LegacySnapshot, key: string) {
    key in st.entries
  }

  datatype KeyAllocation = KeyAllocation(key: string, after: LegacySnapshot)

  /** `generateKey(type)`: the counter moves up by one and names the key. */
  function GenerateKey(st: LegacySnapshot, typeName: string): (a: KeyAllocation)
    requires st.lastKey >= -1
    ensures a.after == st.(lastKey := st.lastKey + 1)
    ensures a.key == LegacyKey(typeName, st.lastKey + 1)
  {
    KeyAllocation(LegacyKey(typeName, st.lastKey + 1), st.(lastKey := st.lastKey + 1))
  }

  /** A generated key of a type other than `root` is not yet stored. */
  lemma GeneratedKeyFresh(st: LegacySnapshot, typeName: string)
    requires ValidState(st) && NoColon(typeName) && typeName != "root"
    ensures GenerateKey(st, typeName).key !in st.entries
    ensures ValidState(GenerateKey(st, typeName).after)
  {
    var n: nat := st.lastKey + 1;
    var key := LegacyKey(typeName, n);
    LegacyKeyInjective(typeName, n, typeName, n);
  }

  /** `set(key, entry)`. */
  function SetEntry(st: LegacySnapshot, key: string, e: Entry): LegacySnapshot {
    st.(entries := st.entries[key := e])
  }

  /** The second argument of `update`: a new value or a function of the old. */
  datatype EntryUpdater = SetValue(value: EntryValue) | MapValue(f: EntryValue -> EntryValue)

  function ApplyUpdater(u: EntryUpdater, current: EntryValue): EntryValue {
    if u.SetValue? then u.value else u.f(current)
  }

  /** `tx.update(key, updateFn)`: fails without an entry; otherwise keeps the
      entry's type and parent and replaces its value. */
  function UpdateEntry(st: LegacySnapshot, key: string, u: EntryUpdater): (r: Result<LegacySnapshot>)
    ensures r.Failure? <==> key !in st.entries
    ensures r.Failure? ==> r.error == EntryNotFound
    ensures r.Success? ==>
      var old_ := st.entries[key];
      && r.value.entries.Keys == st.entries.Keys
      && r.value.entries[key] == Entry(old_.typeName, key, old_.parentKey, ApplyUpdater(u, old_.value))
      && (forall k :: k in st.entries && k != key ==> r.value.entries[k] == st.entries[k])
      && r.value.lastKey == st.lastKey && r.value.updateCount == st.updateCount
  {
    var e :- GetEntry(st, key);
    Success(SetEntry(st, key, Entry(e.typeName, key, e.parentKey, ApplyUpdater(u, e.value))))
  }

  /** `tx.insertRoot(key, value)`: writes the root entry, whatever was there. */
  function RootInserted(st: LegacySnapshot, key: string, value: string): (r: LegacySnapshot)
    ensures r.entries == st.entries[key := Entry("root", key, None, LKey(value))]
    ensures r.lastKey == st.lastKey && r.updateCount == st.updateCount
  {
    SetEntry(st, key, Entry("root", key, None, LKey(value)))
  }

  /** The state invariant survives `update` and `insertRoot`. */
  lemma UpdateKeepsValid(st: LegacySnapshot, key: string, u: EntryUpdater)
    requires ValidState(st) && UpdateEntry(st, key, u).Success?
    ensures ValidState(UpdateEntry(st, key, u).value)
  {
  }

  lemma RootInsertedKeepsValid(st: LegacySnapshot, key: string, value: string)
    requires ValidState(st) && IsRootEntryKey(key)
    ensures ValidState(RootInserted(st, key, value))
  {
    RootEntryKeyPrefix(key);
  }

  // ---------------------------------------------------------------------
  // The objects.

  class EditorState {
    var entries: map<string, Entry>
    var lastKey: int
    var updateCount: nat

    function State(): LegacySnapshot
      reads this
    {
      LegacySnapshot(entries, lastKey, updateCount)
    }

    /** `new EditorState(ydoc)`: the entries and the update count live in
        the document, which by default is the process-wide one and may
        already hold entries; the key counter belongs to the instance and
        starts at -1. The state invariant holds from the start exactly when
        the document holds no generated keys, as a fresh document does. */
    constructor (doc: LegacySnapshot)
      ensures State() == doc.(lastKey := -1)
      ensures ValidState(State()) <==>
        forall k :: k in doc.entries ==> doc.entries[k].key == k && Prefix(k) == "root"
      ensures doc.entries == map[] ==> ValidState(State())
    {
      entries := doc.entries;
      lastKey := -1;
      updateCount := doc.updateCount;
    }

    /** The `updateCount` getter: 0 until the first update. */
    function UpdateCount(): nat
      reads this
    {
      updateCount
    }

    /** `set(key, entry)`. */
    method Set(key: string, e: Entry)
      modifies this`entries
      ensures State() == SetEntry(old(State()), key, e)
    {
      entries := entries[key := e];
    }

    /** `generateKey(type)`. */
    method NewKey(typeName: string) returns (key: string)
      requires lastKey >= -1
      modifies this`lastKey
      ensures KeyAllocation(key, State()) == GenerateKey(old(State()), typeName)
    {
      lastKey := lastKey + 1;
      key := typeName + ":" + NatToDecimal(lastKey);
    }

    /** The entry half of `update(updateFn)`: every call gets a fresh
        transaction over this state, nested or not. */
    method BeginUpdate() returns (tx: Transaction)
      ensures fresh(tx) && tx.state == this
    {
      tx := new Transaction(this);
    }

    /** The exit half of `update(updateFn)`, once the body has returned:
        every call counts. */
    method EndUpdate()
      modifies this`updateCount
      ensures State() == old(State()).(updateCount := old(updateCount) + 1)
    {
      updateCount := updateCount + 1;
    }
  }

  /** `Transaction`: `has` and `get` read the state, `set` and `generateKey`
      write it. */
  class Transaction {
    const state: EditorState

    constructor (state: EditorState)
      ensures this.state == state
    {
      this.state := state;
    }

    /** `has` and `get`, passed through from the state. */
    function Has(key: string): (r: bool)
      reads state
      ensures r <==> HasEntry(state.State(), key)
    {
      key in state.entries
    }

    function Get(key: string): (r: Result<Entry>)
      reads state
      ensures r == GetEntry(state.State(), key)
    {
      if key in state.entries then Success(state.entries[key]) else Failure(EntryNotFound)
    }

    /** `update(key, updateFn)`. */
    method Update(key: string, u: EntryUpdater) returns (r: Result<()>)
      modifies state`entries
      ensures var o := UpdateEntry(old(state.State()), key, u);
        && (r.Success? <==> o.Success?)
        && (o.Success? ==> state.State() == o.value)
        && (o.Failure? ==> r.error == o.error && state.State() == old(state.State()))
    {
      var e := Get(key);
      if e.Failure? {
        return Failure(e.error);
      }
      state.Set(key, Entry(e.value.typeName, key, e.value.parentKey, ApplyUpdater(u, e.value.value)));
      r := Success(());
    }

    /** `insertRoot(key, value)`. */
    method InsertRoot(key: string, value: string) returns (k: string)
      modifies state`entries
      ensures k == key && state.State() == RootInserted(old(state.State()), key, value)
    {
      state.Set(key, Entry("root", key, None, LKey(value)));
      k := key;
    }

    /** The first half of `insert(type, parentKey, createValue)`: the key is
        generated before `createValue` runs. */
    method BeginInsert(typeName: string) returns (key: string)
      requires state.lastKey >= -1
      modifies state`lastKey
      ensures KeyAllocation(key, state.State()) == GenerateKey(old(state.State()), typeName)
    {
      key := state.NewKey(typeName);
    }

    /** The second half of `insert`: the entry made of the type, the key, the
        parent and the value `createValue(key)` returned. */
    method FinishInsert(key: string, typeName: string, parent: string, value: EntryValue) returns (k: string)
      modifies state`entries
      ensures k == key
      ensures state.State() == SetEntry(old(state.State()), key, Entry(typeName, key, Some(parent), value))
    {
      state.Set(key, Entry(typeName, key, Some(parent), value));
      k := key;
    }
  }

  /** A second `EditorState` over a document an earlier one wrote to: its
      counter starts again at -1, so the first key it generates for a type
      is the key the earlier instance generated first for that type, and
      `insert` overwrites that entry. */
  lemma SecondStateReusesKeys(doc: LegacySnapshot, typeName: string)
    requires LegacyKey(typeName, 0) in doc.entries
    ensures var a := GenerateKey(doc.(lastKey := -1), typeName);
      && a.key in doc.entries
      && a.key == LegacyKey(typeName, 0)
  {
  }

  /** Two nested `update` calls: each counts, so the count moves by two. */
  method NestedUpdatesCountTwice(s: EditorState)
    modifies s
    ensures s.State() == old(s.State()).(updateCount := old(s.updateCount) + 2)
  {
    var outer := s.BeginUpdate();
    var inner := s.BeginUpdate();
    assert inner != outer;
    s.EndUpdate();
    s.EndUpdate();
  }
}
