/** What `insert` and `insertRoot` leave in the entries map: the entries
    already there are untouched, every new key is a fresh `type:n` with `n`
    above the old counter, the state invariant holds, and the new entries
    mirror the JSON value (a content lists its paragraphs in order, each
    paragraph points at a text entry holding the paragraph's `value`). */
module LegacyInsertProperties {
  import opened Wrappers
  import opened Decimal
  import opened JsonValues
  import opened LegacyState
  import opened LegacyInsert

  /** The counter value a generated key carries. */
  function KeyNumber(k: string): nat {
    DigitsValue(Suffix(k))
  }

  lemma KeyNumberOf(t: string, n: nat)
    requires NoColon(t)
    ensures Prefix(LegacyKey(t, n)) == t && Suffix(LegacyKey(t, n)) == NatToDecimal(n)
    ensures KeyNumber(LegacyKey(t, n)) == n
  {
    LegacyKeyInjective(t, n, t, n);
  }

  lemma NodeTypeNames()
    ensures NoColon("text") && NoColon("paragraph") && NoColon("content")
  {
    assert forall i :: 0 <= i < |"text"| ==> "text"[i] in "ext";
    assert forall i :: 0 <= i < |"paragraph"| ==> "paragraph"[i] in "parghp";
    assert forall i :: 0 <= i < |"content"| ==> "content"[i] in "conte";
  }

  /** Every entry of `a` is in `b`, unchanged. */
  ghost predicate Keeps(a: LegacySnapshot, b: LegacySnapshot) {
    forall k :: k in a.entries ==> k in b.entries && b.entries[k] == a.entries[k]
  }

  /** `b` is `a` with entries added under keys generated after `a`'s
      counter. */
  ghost predicate Grows(a: LegacySnapshot, b: LegacySnapshot) {
    && a.lastKey <= b.lastKey
    && b.updateCount == a.updateCount
    && Keeps(a, b)
    && forall k :: k in b.entries && k !in a.entries ==>
        Prefix(k) != "root" && a.lastKey < KeyNumber(k) <= b.lastKey
  }

  lemma GrowsTrans(a: LegacySnapshot, b: LegacySnapshot, c: LegacySnapshot)
    requires Grows(a, b) && Grows(b, c)
    ensures Grows(a, c)
  {
  }

  // ---------------------------------------------------------------------
  // The entries a JSON value becomes.

  /** `key` holds a text entry under `parent` whose text is `text`. */
  ghost predicate TextStored(s: LegacySnapshot, key: string, parent: string, text: string) {
    key in s.entries && s.entries[key] == Entry("text", key, Some(parent), LText(text))
  }

  /** `key` holds a paragraph under `parent` whose one child is a text entry
      holding `v.value`. */
  ghost predicate ParagraphStored(s: LegacySnapshot, key: string, parent: string, v: Json) {
    && key in s.entries
    && s.entries[key].key == key
    && s.entries[key].typeName == "paragraph"
    && s.entries[key].parentKey == Some(parent)
    && s.entries[key].value.LKey?
    && var text := s.entries[key].value.child;
      && text in s.entries
      && s.entries[text].typeName == "text"
      && s.entries[text].key == text
      && s.entries[text].parentKey == Some(key)
      && s.entries[text].value.LText?
      && Get(v, "value") == Some(JString(s.entries[text].value.text))
  }

  /** `key` holds a content under `parent` listing, in the order of the
      array `v`, the paragraphs made of its items; each paragraph's key was
      generated after the content's and before the next paragraph's. */
  ghost predicate ContentStored(s: LegacySnapshot, key: string, parent: string, v: Json) {
    && key in s.entries
    && s.entries[key].key == key
    && s.entries[key].typeName == "content"
    && s.entries[key].parentKey == Some(parent)
    && s.entries[key].value.LKeys?
    && v.JArr?
    && |s.entries[key].value.children| == |v.items|
    && (forall i :: 0 <= i < |v.items| ==>
          && ParagraphStored(s, s.entries[key].value.children[i], key, v.items[i])
          && KeyNumber(key) < KeyNumber(s.entries[key].value.children[i]))
    && (forall i, j :: 0 <= i < j < |v.items| ==>
          KeyNumber(s.entries[key].value.children[i]) < KeyNumber(s.entries[key].value.children[j]))
  }

  /** The node of type `t` made of `v` sits under `key`. */
  ghost predicate Stored(s: LegacySnapshot, t: string, key: string, parent: string, v: Json) {
    if t == "text" then IsText(v) && TextStored(s, key, parent, v.p.s)
    else if t == "paragraph" then ParagraphStored(s, key, parent, v)
    else ContentStored(s, key, parent, v)
  }

  lemma ParagraphStoredKept(a: LegacySnapshot, b: LegacySnapshot, key: string, parent: string, v: Json)
    requires ParagraphStored(a, key, parent, v) && Keeps(a, b)
    ensures ParagraphStored(b, key, parent, v)
  {
  }

  lemma StoredKept(a: LegacySnapshot, b: LegacySnapshot, t: string, key: string, parent: string, v: Json)
    requires Stored(a, t, key, parent, v) && Keeps(a, b)
    ensures Stored(b, t, key, parent, v)
  {
    if t == "content" {
      var e := a.entries[key];
      forall i | 0 <= i < |v.items|
        ensures ParagraphStored(b, e.value.children[i], key, v.items[i])
      {
        ParagraphStoredKept(a, b, e.value.children[i], key, v.items[i]);
      }
    }
  }

  // ---------------------------------------------------------------------
  // Writing one generated key.

  /** Writing the entry of a key generated from `st` over a state grown
      from the generation keeps the invariant and grows `st`. */
  lemma WriteGenerated(st: LegacySnapshot, mid: LegacySnapshot, t: string, e: Entry)
    requires ValidState(st) && NoColon(t) && t != "root"
    requires ValidState(mid) && Grows(GenerateKey(st, t).after, mid)
    requires e.key == LegacyKey(t, st.lastKey + 1)
    ensures var fin := SetEntry(mid, e.key, e);
      && e.key !in st.entries && e.key !in mid.entries
      && ValidState(fin) && Grows(st, fin) && Keeps(mid, fin)
      && e.key in fin.entries && fin.entries[e.key] == e
  {
    var n: nat := st.lastKey + 1;
    GeneratedKeyFresh(st, t);
    KeyNumberOf(t, n);
    var fin := SetEntry(mid, e.key, e);
    forall k | k in fin.entries
      ensures fin.entries[k].key == k
      ensures Prefix(k) == "root" || (IsDigitString(Suffix(k)) && DigitsValue(Suffix(k)) <= fin.lastKey)
    {
    }
    forall k | k in fin.entries && k !in st.entries
      ensures Prefix(k) != "root" && st.lastKey < KeyNumber(k) <= fin.lastKey
    {
      if k != e.key {
        assert k in mid.entries;
      }
    }
  }

  // ---------------------------------------------------------------------
  // `insert`.

  /** `insert` adds the node made of `v` under a fresh key `t:n`, `n` one
      above the counter, and keeps everything else. */
  lemma {:induction false} InsertWrites(t: string, parent: string, v: Json, st: LegacySnapshot)
    requires ValidState(st) && LegacyTyped(t, v)
    ensures var r := InsertSpec(t, parent, v, st);
      && ValidState(r.after) && Grows(st, r.after)
      && r.key == LegacyKey(t, st.lastKey + 1) && r.key !in st.entries
      && Stored(r.after, t, r.key, parent, v)
    decreases Rank(t), 3, 0
  {
    NodeTypeNames();
    var a := GenerateKey(st, t);
    GeneratedKeyFresh(st, t);
    if t == "content" {
      InsertContent(parent, v, st);
    } else if t == "text" {
      WriteGenerated(st, a.after, t, Entry(t, a.key, Some(parent), LText(v.p.s)));
    } else {
      InsertParagraph(parent, v, st);
    }
  }

  lemma {:induction false} InsertParagraph(parent: string, v: Json, st: LegacySnapshot)
    requires ValidState(st) && LegacyTyped("paragraph", v)
    ensures var r := InsertSpec("paragraph", parent, v, st);
      && ValidState(r.after) && Grows(st, r.after)
      && r.key == LegacyKey("paragraph", st.lastKey + 1) && r.key !in st.entries
      && ParagraphStored(r.after, r.key, parent, v)
    decreases Rank("paragraph"), 1, 0
  {
    NodeTypeNames();
    var r := InsertSpec("paragraph", parent, v, st);
    var a := GenerateKey(st, "paragraph");
    GeneratedKeyFresh(st, "paragraph");
    var value := Get(v, "value").value;
    var c := InsertSpec("text", a.key, value, a.after);
    InsertWrites("text", a.key, value, a.after);
    var e := Entry("paragraph", a.key, Some(parent), LKey(c.key));
    WriteGenerated(st, c.after, "paragraph", e);
    assert r.after == SetEntry(c.after, a.key, e);
    assert TextStored(c.after, c.key, a.key, value.p.s);
    assert c.key in c.after.entries;
    assert r.after.entries[c.key] == c.after.entries[c.key];
  }

  lemma {:induction false} InsertContent(parent: string, v: Json, st: LegacySnapshot)
    requires ValidState(st) && LegacyTyped("content", v)
    ensures var r := InsertSpec("content", parent, v, st);
      && ValidState(r.after) && Grows(st, r.after)
      && r.key == LegacyKey("content", st.lastKey + 1) && r.key !in st.entries
      && ContentStored(r.after, r.key, parent, v)
    decreases Rank("content"), 2, 0
  {
    NodeTypeNames();
    var r := InsertSpec("content", parent, v, st);
    var a := GenerateKey(st, "content");
    GeneratedKeyFresh(st, "content");
    KeyNumberOf("content", st.lastKey + 1);
    var c := InsertAllSpec(v.items, a.key, a.after);
    InsertAllWrites(v.items, a.key, a.after);
    var e := Entry("content", a.key, Some(parent), LKeys(c.keys));
    WriteGenerated(st, c.after, "content", e);
    assert r.after == SetEntry(c.after, a.key, e);
    forall i | 0 <= i < |v.items|
      ensures ParagraphStored(r.after, c.keys[i], a.key, v.items[i])
    {
      ParagraphStoredKept(c.after, r.after, c.keys[i], a.key, v.items[i]);
    }
  }

  /** What the `map` over `items` leaves from `st`: one paragraph per item,
      in order, under fresh keys with increasing counter values. */
  ghost predicate AllStored(st: LegacySnapshot, r: InsertedAll, items: seq<Json>, parent: string) {
    && |r.keys| == |items|
    && ValidState(r.after) && Grows(st, r.after)
    && (forall i :: 0 <= i < |items| ==>
          && ParagraphStored(r.after, r.keys[i], parent, items[i])
          && st.lastKey < KeyNumber(r.keys[i]))
    && (forall i, j :: 0 <= i < j < |items| ==> KeyNumber(r.keys[i]) < KeyNumber(r.keys[j]))
  }

  /** The `map` over a content's items adds, in order, one paragraph per
      item under fresh keys with increasing counter values. */
  lemma {:induction false} InsertAllWrites(items: seq<Json>, parent: string, st: LegacySnapshot)
    requires ValidState(st)
    requires forall i :: 0 <= i < |items| ==> LegacyTyped("paragraph", items[i])
    ensures AllStored(st, InsertAllSpec(items, parent, st), items, parent)
    decreases Rank("content"), 1, |items|
  {
    if |items| == 0 {
    } else {
      NodeTypeNames();
      var r := InsertAllSpec(items, parent, st);
      var c := InsertSpec("paragraph", parent, items[0], st);
      InsertParagraph(parent, items[0], st);
      KeyNumberOf("paragraph", st.lastKey + 1);
      var rest := InsertAllSpec(items[1..], parent, c.after);
      assert r == InsertedAll([c.key] + rest.keys, rest.after);
      assert forall i :: 0 <= i < |items[1..]| ==> items[1..][i] == items[i + 1];
      InsertAllWrites(items[1..], parent, c.after);
      AllWritesCons(items, parent, st, c.after, c.key, rest);
    }
  }

  /** The `map`'s first step followed by the rest. */
  lemma AllWritesCons(items: seq<Json>, parent: string, st: LegacySnapshot, mid: LegacySnapshot,
                      first: string, rest: InsertedAll)
    requires |items| > 0 && ValidState(st)
    requires Grows(st, mid)
    requires ParagraphStored(mid, first, parent, items[0]) && st.lastKey < KeyNumber(first) <= mid.lastKey
    requires AllStored(mid, rest, items[1..], parent)
    ensures AllStored(st, InsertedAll([first] + rest.keys, rest.after), items, parent)
  {
    GrowsTrans(st, mid, rest.after);
    ParagraphStoredKept(mid, rest.after, first, parent, items[0]);
    ConsKeys(items, parent, st.lastKey, first, rest.keys, mid.lastKey, rest.after);
  }

  /** The keys of the `map` after its first step: the first item's key,
      then those of the rest, all generated later. */
  lemma ConsKeys(items: seq<Json>, parent: string, last: int, first: string, rest: seq<string>,
                 mid: int, s: LegacySnapshot)
    requires |items| > 0 && |rest| == |items| - 1
    requires ParagraphStored(s, first, parent, items[0]) && last < KeyNumber(first) <= mid
    requires forall i :: 0 <= i < |items[1..]| ==>
      ParagraphStored(s, rest[i], parent, items[1..][i]) && mid < KeyNumber(rest[i])
    requires forall i, j :: 0 <= i < j < |items[1..]| ==> KeyNumber(rest[i]) < KeyNumber(rest[j])
    ensures var keys := [first] + rest;
      && (forall i :: 0 <= i < |items| ==> ParagraphStored(s, keys[i], parent, items[i]) && last < KeyNumber(keys[i]))
      && (forall i, j :: 0 <= i < j < |items| ==> KeyNumber(keys[i]) < KeyNumber(keys[j]))
  {
    var keys := [first] + rest;
    forall i | 0 <= i < |items|
      ensures ParagraphStored(s, keys[i], parent, items[i]) && last < KeyNumber(keys[i])
    {
      if i > 0 {
        assert keys[i] == rest[i - 1] && items[i] == items[1..][i - 1];
      }
    }
    forall i, j | 0 <= i < j < |items|
      ensures KeyNumber(keys[i]) < KeyNumber(keys[j])
    {
      assert keys[j] == rest[j - 1];
      if i > 0 {
        assert keys[i] == rest[i - 1];
      }
    }
  }

  // ---------------------------------------------------------------------
  // `insertRoot`.

  /** `insertRoot` refuses a stored key; otherwise it stores the root entry,
      without parent, pointing at the content made of `value.document`,
      and keeps every entry that was there. */
  lemma InsertRootWrites(key: string, v: Json, st: LegacySnapshot)
    requires ValidState(st) && RootTyped(v) && IsRootEntryKey(key)
    ensures var r := InsertRootSpec(key, v, st);
      && (r.Failure? <==> key in st.entries)
      && (r.Success? ==>
            && ValidState(r.value.after) && Keeps(st, r.value.after)
            && key in r.value.after.entries
            && r.value.after.entries[key].typeName == "root"
            && r.value.after.entries[key].parentKey == None
            && r.value.after.entries[key].value.LKey?
            && ContentStored(r.value.after, r.value.after.entries[key].value.child, key, Get(v, "document").value))
  {
    if key !in st.entries {
      var r := InsertRootSpec(key, v, st);
      var document := Get(v, "document").value;
      var c := InsertSpec("content", key, document, st);
      InsertContent(key, document, st);
      RootEntryKeyPrefix(key);
      assert key !in c.after.entries;
      RootInsertedKeepsValid(c.after, key, c.key);
      assert r.value.after == RootInserted(c.after, key, c.key);
      StoredKept(c.after, r.value.after, "content", c.key, key, document);
    }
  }
}
