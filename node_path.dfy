/** Path resolution (src/nodes/node-path.ts): from a point's key up the
    parent links to the root, collecting root first the index each
    ancestor reports for the child on the way. The loops read the store and
    change nothing; each is proved equal to a recursive function on the
    store's state. Termination of the source's loops depends on the parent
    links being acyclic, so every operation takes a bound `n` on the length
    of the parent chain as a ghost argument. */
module NodePath {
  import opened Wrappers
  import opened StoreTypes
  import opened Store
  import opened NodeKinds

  /** `PathFrame`: a key and the index it reports for the next key down (for
      the last frame, the point's offset). */
  datatype Frame = Frame(key: Key, index: Index)

  /** `TreeCursor`: the index paths of a cursor's two ends, and a node path. */
  datatype TreeCursor = TreeCursor(selection: Option<IndexCursor>, nodePath: seq<Index>)
  /** `Cursor<IndexPath>`: a cursor whose ends are index paths. */
  datatype IndexCursor = IndexCursor(start: seq<Index>, end: seq<Index>)

  /** The position of the first node type recorded under `name`. */
  function KindNamed(schema: seq<Kind>, name: string): (r: Option<nat>)
    ensures r.Some? ==> r.value < |schema| && RecordedName(schema[r.value]) == name
    ensures r.Some? ==> forall j :: 0 <= j < r.value ==> RecordedName(schema[j]) != name
    ensures r.None? <==> forall j :: 0 <= j < |schema| ==> RecordedName(schema[j]) != name
    decreases |schema|
  {
    if |schema| == 0 then None
    else if RecordedName(schema[0]) == name then Some(0)
    else
      var r := KindNamed(schema[1..], name);
      if r.None? then None else Some(r.value + 1)
  }

  /** `getNodeType(store, key)`: the node type of the type name recorded
      under `key`, looked up in the registry `schema`. */
  function NodeTypeOf(schema: seq<Kind>, st: Snapshot, key: Key): (r: Result<Kind>)
    ensures r.Success? ==>
      key in st.typeNames && r.value in schema && RecordedName(r.value) == st.typeNames[key]
    ensures r == Failure(TypeNameNotFound) <==> key !in st.typeNames
    ensures r == Failure(UnknownNodeType) <==>
      key in st.typeNames && forall j :: 0 <= j < |schema| ==> RecordedName(schema[j]) != st.typeNames[key]
  {
    var name :- GetTypeName(st, key);
    var i := KindNamed(schema, name);
    if i.None? then Failure(UnknownNodeType) else Success(schema[i.value])
  }

  /** `getNodeType(store, parent).getIndexWithin(store, parent, child)`. */
  function Step(schema: seq<Kind>, st: Snapshot, parent: Key, child: Key): Result<Index> {
    var k :- NodeTypeOf(schema, st, parent);
    IndexWithin(k, st, parent, child)
  }

  /** The same step with the union node type as the source defines it. */
  function StepAsWritten(schema: seq<Kind>, st: Snapshot, parent: Key, child: Key): Result<Index> {
    var k :- NodeTypeOf(schema, st, parent);
    IndexWithinAsWritten(k, st, parent, child)
  }

  /** The parent chain from `key` reaches a key without parent in at most
      `n` steps. */
  predicate ChainEndsWithin(st: Snapshot, key: Key, n: nat)
    decreases n
  {
    var p := GetParentKey(st, key);
    p.None? || (n > 0 && ChainEndsWithin(st, p.value, n - 1))
  }

  /** The ancestors of `key`, root first. */
  function Ancestors(st: Snapshot, key: Key, n: nat): (r: seq<Key>)
    requires ChainEndsWithin(st, key, n)
    ensures |r| <= n
    ensures |r| == 0 <==> GetParentKey(st, key).None?
    decreases n
  {
    var p := GetParentKey(st, key);
    if p.None? then [] else Ancestors(st, p.value, n - 1) + [p.value]
  }

  /** The frames of the ancestors of `key`, root first, each with the index
      it reports for the next key down; fails with the first failing lookup
      going up. */
  function AncestorFrames(schema: seq<Kind>, st: Snapshot, key: Key, n: nat): Result<seq<Frame>>
    requires ChainEndsWithin(st, key, n)
    decreases n
  {
    var p := GetParentKey(st, key);
    if p.None? then Success([])
    else
      var index :- Step(schema, st, p.value, key);
      var above :- AncestorFrames(schema, st, p.value, n - 1);
      Success(above + [Frame(p.value, index)])
  }

  /** The index of a point's own frame: its character offset, if any. */
  function PointIndex(point: Point): (r: Index)
    ensures point.index.None? <==> r == NoIndex
    ensures point.index.Some? ==> r == At(point.index.value)
  {
    if point.index.None? then NoIndex else At(point.index.value)
  }

  /** What `getPathToRoot(store, point)` returns. */
  function PathToRoot(schema: seq<Kind>, st: Snapshot, point: Point, n: nat): Result<seq<Frame>>
    requires ChainEndsWithin(st, point.key, n)
  {
    var above :- AncestorFrames(schema, st, point.key, n);
    Success(above + [Frame(point.key, PointIndex(point))])
  }

  /** `AncestorFrames` with the union node type as the source defines it. */
  function AncestorFramesAsWritten(schema: seq<Kind>, st: Snapshot, key: Key, n: nat): Result<seq<Frame>>
    requires ChainEndsWithin(st, key, n)
    decreases n
  {
    var p := GetParentKey(st, key);
    if p.None? then Success([])
    else
      var index :- StepAsWritten(schema, st, p.value, key);
      var above :- AncestorFramesAsWritten(schema, st, p.value, n - 1);
      Success(above + [Frame(p.value, index)])
  }

  /** `getPathToRoot` with the union node type as the source defines it. */
  function PathToRootAsWritten(schema: seq<Kind>, st: Snapshot, point: Point, n: nat): Result<seq<Frame>>
    requires ChainEndsWithin(st, point.key, n)
  {
    var above :- AncestorFramesAsWritten(schema, st, point.key, n);
    Success(above + [Frame(point.key, PointIndex(point))])
  }

  /** What `getIndexPath(store, point)` returns. */
  function IndexPath(schema: seq<Kind>, st: Snapshot, key: Key, n: nat): Result<seq<Index>>
    requires ChainEndsWithin(st, key, n)
    decreases n
  {
    var p := GetParentKey(st, key);
    if p.None? then Success([])
    else
      var index :- Step(schema, st, p.value, key);
      var above :- IndexPath(schema, st, p.value, n - 1);
      Success(above + [index])
  }

  /** `getIndexPath` with the union node type as the source defines it. */
  function IndexPathAsWritten(schema: seq<Kind>, st: Snapshot, key: Key, n: nat): Result<seq<Index>>
    requires ChainEndsWithin(st, key, n)
    decreases n
  {
    var p := GetParentKey(st, key);
    if p.None? then Success([])
    else
      var index :- StepAsWritten(schema, st, p.value, key);
      var above :- IndexPathAsWritten(schema, st, p.value, n - 1);
      Success(above + [index])
  }

  /** `r` with `tail` appended to its value. */
  function Then<T>(r: Result<seq<T>>, tail: seq<T>): Result<seq<T>> {
    if r.Success? then Success(r.value + tail) else Failure(r.error)
  }

  lemma ThenNothing<T>(r: Result<seq<T>>)
    ensures Then(r, []) == r
  {
    if r.Success? {
      assert r.value + [] == r.value;
    }
  }

  lemma ThenThen<T>(r: Result<seq<T>>, a: seq<T>, b: seq<T>)
    ensures Then(Then(r, a), b) == Then(r, a + b)
  {
    if r.Success? {
      assert (r.value + a) + b == r.value + (a + b);
    }
  }

  /** `getPathToRoot(store, point)`. */
  method GetPathToRoot(store: EditorStore, schema: seq<Kind>, point: Point, ghost n: nat) returns (r: Result<seq<Frame>>)
    requires ChainEndsWithin(store.State(), point.key, n)
    ensures r == PathToRoot(schema, store.State(), point, n)
  {
    var st := store.State();
    var path := [Frame(point.key, PointIndex(point))];
    var parentKey := GetParentKey(st, point.key);
    ghost var m := n;
    while parentKey.Some?
      invariant |path| > 0 && ChainEndsWithin(st, path[0].key, m)
      invariant parentKey == GetParentKey(st, path[0].key)
      invariant PathToRoot(schema, st, point, n) == Then(AncestorFrames(schema, st, path[0].key, m), path)
      decreases m
    {
      var index := Step(schema, st, parentKey.value, path[0].key);
      if index.Failure? {
        assert AncestorFrames(schema, st, path[0].key, m) == Failure(index.error);
        return Failure(index.error);
      }
      ThenThen(AncestorFrames(schema, st, parentKey.value, m - 1), [Frame(parentKey.value, index.value)], path);
      path := [Frame(parentKey.value, index.value)] + path;
      parentKey := GetParentKey(st, parentKey.value);
      m := m - 1;
    }
    assert [] + path == path;
    r := Success(path);
  }

  /** `getIndexPath(store, point)`. */
  method GetIndexPath(store: EditorStore, schema: seq<Kind>, point: Point, ghost n: nat) returns (r: Result<seq<Index>>)
    requires ChainEndsWithin(store.State(), point.key, n)
    ensures r == IndexPath(schema, store.State(), point.key, n)
  {
    var st := store.State();
    var result: seq<Index> := [];
    var currentKey := point.key;
    ghost var m := n;
    ThenNothing(IndexPath(schema, st, point.key, n));
    while true
      invariant ChainEndsWithin(st, currentKey, m)
      invariant IndexPath(schema, st, point.key, n) == Then(IndexPath(schema, st, currentKey, m), result)
      decreases m
    {
      var parentKey := GetParentKey(st, currentKey);
      if parentKey.None? {
        break;
      }
      var index := Step(schema, st, parentKey.value, currentKey);
      if index.Failure? {
        assert IndexPath(schema, st, currentKey, m) == Failure(index.error);
        return Failure(index.error);
      }
      ThenThen(IndexPath(schema, st, parentKey.value, m - 1), [index.value], result);
      result := [index.value] + result;
      currentKey := parentKey.value;
      m := m - 1;
    }
    assert [] + result == result;
    r := Success(result);
  }

  /** `getTreeCursor(store)`: no selection without a cursor; otherwise the
      index paths of both ends, with an empty node path. */
  method GetTreeCursor(store: EditorStore, schema: seq<Kind>, ghost n: nat) returns (r: Result<TreeCursor>)
    requires store.cursor.Some? ==>
      ChainEndsWithin(store.State(), store.cursor.value.start.key, n) &&
      ChainEndsWithin(store.State(), store.cursor.value.end.key, n)
    ensures store.cursor.None? ==> r == Success(TreeCursor(None, []))
    ensures store.cursor.Some? ==>
      var st := store.State();
      var c := store.cursor.value;
      var start := IndexPath(schema, st, c.start.key, n);
      var end := IndexPath(schema, st, c.end.key, n);
      && (r.Success? <==> start.Success? && end.Success?)
      && (r.Success? ==> r.value == TreeCursor(Some(IndexCursor(start.value, end.value)), []))
  {
    if store.cursor.None? {
      return Success(TreeCursor(None, []));
    }
    var c := store.cursor.value;
    var start := GetIndexPath(store, schema, c.start, n);
    if start.Failure? {
      return Failure(start.error);
    }
    var end := GetIndexPath(store, schema, c.end, n);
    if end.Failure? {
      return Failure(end.error);
    }
    r := Success(TreeCursor(Some(IndexCursor(start.value, end.value)), []));
  }

  /** `pushIndex(cursor, index)`: the selection is kept and the node path
      grows by `index` at its end. */
  function PushIndex(c: TreeCursor, index: Index): (r: TreeCursor)
    ensures r.selection == c.selection
    ensures |r.nodePath| == |c.nodePath| + 1
    ensures r.nodePath[..|c.nodePath|] == c.nodePath && r.nodePath[|c.nodePath|] == index
  {
    TreeCursor(c.selection, c.nodePath + [index])
  }
}
