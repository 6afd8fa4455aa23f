/** Plain JSON values, as produced by `toJsonValue` and consumed by `store`. */
module JsonValues {
  import opened Wrappers
  import opened StoreTypes

  /** An object is its own-property list in insertion order. */
  datatype Json = JPrim(p: Primitive) | JArr(items: seq<Json>) | JObj(fields: seq<(string, Json)>)

  function JString(s: string): Json { JPrim(PString(s)) }

  /** The value of the first field called `name`. */
  function Lookup(fields: seq<(string, Json)>, name: string): Option<Json>
    decreases |fields|
  {
    if |fields| == 0 then None
    else if fields[0].0 == name then Some(fields[0].1)
    else Lookup(fields[1..], name)
  }

  /** A name no entry carries is not found. */
  lemma {:induction false} LookupAbsent(fields: seq<(string, Json)>, name: string)
    requires forall i :: 0 <= i < |fields| ==> fields[i].0 != name
    ensures Lookup(fields, name) == None
    decreases |fields|
  {
    if |fields| > 0 {
      LookupAbsent(fields[1..], name);
    }
  }

  /** With distinct names, every entry is found under its own name. */
  lemma {:induction false} LookupDistinct(fields: seq<(string, Json)>, m: nat)
    requires DistinctNames(fields) && m < |fields|
    ensures Lookup(fields, fields[m].0) == Some(fields[m].1)
    decreases m
  {
    if m > 0 {
      assert fields[0].0 != fields[m].0;
      assert fields[1..][m - 1] == fields[m];
      LookupDistinct(fields[1..], m - 1);
    }
  }

  /** `json[name]`; `None` stands for `undefined` (a missing property, or a
      non-object). */
  function Get(j: Json, name: string): Option<Json> {
    if j.JObj? then Lookup(j.fields, name) else None
  }

  predicate DistinctNames(fields: seq<(string, Json)>) {
    forall i, j :: 0 <= i < j < |fields| ==> fields[i].0 != fields[j].0
  }

  /** `obj[name] = v`: overwrite in place when present, append otherwise. */
  function SetField(fields: seq<(string, Json)>, name: string, v: Json): seq<(string, Json)>
    decreases |fields|
  {
    if |fields| == 0 then [(name, v)]
    else if fields[0].0 == name then [(name, v)] + fields[1..]
    else [fields[0]] + SetField(fields[1..], name, v)
  }

  /** `Object.fromEntries`: assigns the entries front to back. */
  function FromEntries(entries: seq<(string, Json)>): Json {
    JObj(AssignAll(entries))
  }

  function AssignAll(entries: seq<(string, Json)>): seq<(string, Json)>
    decreases |entries|
  {
    if |entries| == 0 then []
    else
      var last := entries[|entries| - 1];
      SetField(AssignAll(entries[..|entries| - 1]), last.0, last.1)
  }

  lemma {:induction false} SetFieldNew(fields: seq<(string, Json)>, name: string, v: Json)
    requires forall i :: 0 <= i < |fields| ==> fields[i].0 != name
    ensures SetField(fields, name, v) == fields + [(name, v)]
    decreases |fields|
  {
    if |fields| > 0 {
      SetFieldNew(fields[1..], name, v);
    }
  }

  /** With distinct property names, `Object.fromEntries` keeps every entry,
      in order. */
  lemma {:induction false} FromEntriesOfDistinct(entries: seq<(string, Json)>)
    requires DistinctNames(entries)
    ensures FromEntries(entries) == JObj(entries)
    decreases |entries|
  {
    if |entries| > 0 {
      var prefix := entries[..|entries| - 1];
      FromEntriesOfDistinct(prefix);
      SetFieldNew(prefix, entries[|entries| - 1].0, entries[|entries| - 1].1);
      assert prefix + [entries[|entries| - 1]] == entries;
    }
  }
}
