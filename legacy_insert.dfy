/** `insert` and `insertRoot` of src/operations/insert.ts, over the earlier
    state of src/state: a document's JSON value is written into the entries
    map depth first, each node's key generated before its children's. The
    methods run on a `Transaction` and are proved equal to the functions
    `InsertSpec` and `InsertRootSpec`; the lemmas state the shape of what
    they write. */
module LegacyInsert {
  import opened Wrappers
  import opened Decimal
  import opened StoreTypes
  import opened JsonValues
  import opened LegacyState

  // ---------------------------------------------------------------------
  // The JSON values `insert` accepts (`JSONValue<N>` of src/types.ts).

  predicate IsText(v: Json) {
    v.JPrim? && v.p.PString?
  }

  /** `JSONValue<N>` for the node type named `t`: a text is a string, a
      paragraph `{type: 'paragraph', value: string}`, a content an array of
      paragraphs. */
  predicate LegacyTyped(t: string, v: Json)
    decreases Rank(t)
  {
    if t == "text" then IsText(v)
    else if t == "paragraph" then
      && v.JObj?
      && Get(v, "type") == Some(JString("paragraph"))
      && Get(v, "value").Some? && IsText(Get(v, "value").value)
    else if t == "content" then
      v.JArr? && forall i :: 0 <= i < |v.items| ==> LegacyTyped("paragraph", v.items[i])
    else false
  }

  /** `JSONValue<RootNode>`: `{type: 'document', document: <content>}`. */
  predicate RootTyped(v: Json) {
    && v.JObj?
    && Get(v, "type") == Some(JString("document"))
    && Get(v, "document").Some? && LegacyTyped("content", Get(v, "document").value)
  }

  /** How many levels of node types lie below `t`. */
  function Rank(t: string): nat {
    if t == "content" then 2 else if t == "paragraph" then 1 else 0
  }

  // ---------------------------------------------------------------------
  // What `insert` and `insertRoot` compute.

  datatype Inserted = Inserted(key: string, after: LegacySnapshot)
  datatype InsertedAll = InsertedAll(keys: seq<string>, after: LegacySnapshot)

  /** `insert(state, type, parentKey, value)`: an array is a content whose
      children are inserted in order, a string a node of type `type`, and
      anything else a paragraph whose text child holds `value.value`. */
  function InsertSpec(t: string, parent: string, v: Json, st: LegacySnapshot): (r: Inserted)
    requires st.lastKey >= -1 && LegacyTyped(t, v)
    ensures r.after.lastKey > st.lastKey
    decreases Rank(t), 2, 0
  {
    if t == "content" && v.JArr? then
      var a := GenerateKey(st, "content");
      var c := InsertAllSpec(v.items, a.key, a.after);
      Inserted(a.key, SetEntry(c.after, a.key, Entry("content", a.key, Some(parent), LKeys(c.keys))))
    else if IsText(v) then
      var a := GenerateKey(st, t);
      Inserted(a.key, SetEntry(a.after, a.key, Entry(t, a.key, Some(parent), LText(v.p.s))))
    else
      var a := GenerateKey(st, "paragraph");
      var c := InsertSpec("text", a.key, Get(v, "value").value, a.after);
      Inserted(a.key, SetEntry(c.after, a.key, Entry("paragraph", a.key, Some(parent), LKey(c.key))))
  }

  /** `value.map(child => insert(state, 'paragraph', key, child))`. */
  function InsertAllSpec(items: seq<Json>, parent: string, st: LegacySnapshot): (r: InsertedAll)
    requires st.lastKey >= -1
    requires forall i :: 0 <= i < |items| ==> LegacyTyped("paragraph", items[i])
    ensures |r.keys| == |items| && r.after.lastKey >= st.lastKey
    decreases Rank("content"), 1, |items|
  {
    if |items| == 0 then InsertedAll([], st)
    else
      var c := InsertSpec("paragraph", parent, items[0], st);
      var rest := InsertAllSpec(items[1..], parent, c.after);
      InsertedAll([c.key] + rest.keys, rest.after)
  }

  /** `insertRoot(state, key, value)`: refuses a key already stored, before
      writing anything; otherwise inserts the document's content under `key`
      and then the root entry pointing at it. */
  function InsertRootSpec(key: string, v: Json, st: LegacySnapshot): (r: Result<Inserted>)
    requires st.lastKey >= -1 && RootTyped(v)
    ensures r.Failure? <==> key in st.entries
    ensures r.Failure? ==> r.error == RootAlreadyStored
    ensures r.Success? ==> r.value.key == key
  {
    if key in st.entries then Failure(RootAlreadyStored)
    else
      var c := InsertSpec("content", key, Get(v, "document").value, st);
      Success(Inserted(key, RootInserted(c.after, key, c.key)))
  }

  /** `keys` put in front of the keys of `r`. */
  function Prepend(keys: seq<string>, r: InsertedAll): InsertedAll {
    InsertedAll(keys + r.keys, r.after)
  }

  /** One step of the `map`: the `i`-th item, then the rest. */
  lemma InsertAllUnfold(items: seq<Json>, i: nat, parent: string, st: LegacySnapshot)
    requires i < |items| && st.lastKey >= -1
    requires forall j :: 0 <= j < |items| ==> LegacyTyped("paragraph", items[j])
    ensures var c := InsertSpec("paragraph", parent, items[i], st);
      InsertAllSpec(items[i..], parent, st) == Prepend([c.key], InsertAllSpec(items[i + 1..], parent, c.after))
  {
    assert items[i..][0] == items[i];
    assert items[i..][1..] == items[i + 1..];
  }

  lemma PrependPrepend(a: seq<string>, b: seq<string>, r: InsertedAll)
    ensures Prepend(a, Prepend(b, r)) == Prepend(a + b, r)
  {
    assert a + (b + r.keys) == (a + b) + r.keys;
  }

  // ---------------------------------------------------------------------
  // The operations.

  /** `insert(state, type, parentKey, value)`. */
  method Insert(tx: Transaction, t: string, parent: string, v: Json) returns (key: string)
    requires tx.state.lastKey >= -1 && LegacyTyped(t, v)
    modifies tx.state`entries, tx.state`lastKey
    ensures Inserted(key, tx.state.State()) == InsertSpec(t, parent, v, old(tx.state.State()))
    decreases Rank(t), 2, 0
  {
    if t == "content" && v.JArr? {
      var k := tx.BeginInsert("content");
      var keys := InsertAll(tx, v.items, k);
      key := tx.FinishInsert(k, "content", parent, LKeys(keys));
    } else if IsText(v) {
      var k := tx.BeginInsert(t);
      key := tx.FinishInsert(k, t, parent, LText(v.p.s));
    } else {
      var k := tx.BeginInsert("paragraph");
      var child := Insert(tx, "text", k, Get(v, "value").value);
      key := tx.FinishInsert(k, "paragraph", parent, LKey(child));
    }
  }

  /** `value.map(child => insert(state, 'paragraph', key, child))`, in
      order. */
  method InsertAll(tx: Transaction, items: seq<Json>, parent: string) returns (keys: seq<string>)
    requires tx.state.lastKey >= -1
    requires forall i :: 0 <= i < |items| ==> LegacyTyped("paragraph", items[i])
    modifies tx.state`entries, tx.state`lastKey
    ensures InsertedAll(keys, tx.state.State()) == InsertAllSpec(items, parent, old(tx.state.State()))
    decreases Rank("content"), 1, |items|
  {
    ghost var start := tx.state.State();
    keys := [];
    var i := 0;
    while i < |items|
      invariant 0 <= i <= |items| && tx.state.lastKey >= -1
      invariant InsertAllSpec(items, parent, start) == Prepend(keys, InsertAllSpec(items[i..], parent, tx.state.State()))
    {
      InsertAllUnfold(items, i, parent, tx.state.State());
      var child := Insert(tx, "paragraph", parent, items[i]);
      PrependPrepend(keys, [child], InsertAllSpec(items[i + 1..], parent, tx.state.State()));
      keys := keys + [child];
      i := i + 1;
    }
    assert keys + [] == keys;
  }

  /** `insertRoot(state, key, value)`; the refusal leaves the state as it
      was. */
  method InsertRoot(tx: Transaction, key: string, v: Json) returns (r: Result<string>)
    requires tx.state.lastKey >= -1 && RootTyped(v)
    modifies tx.state`entries, tx.state`lastKey
    ensures var o := InsertRootSpec(key, v, old(tx.state.State()));
      && (r.Success? <==> o.Success?)
      && (o.Success? ==> r.value == key && tx.state.State() == o.value.after)
      && (o.Failure? ==> r.error == o.error && tx.state.State() == old(tx.state.State()))
  {
    if tx.Has(key) {
      return Failure(RootAlreadyStored);
    }
    var content := Insert(tx, "content", key, Get(v, "document").value);
    var k := tx.InsertRoot(key, content);
    r := Success(k);
  }
}
