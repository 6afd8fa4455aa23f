/** What path resolution promises: the frames of `getPathToRoot` follow the
    parent links from the root down to the point, each ancestor carrying the
    index its node type reports for the next key; `getIndexPath` is the list
    of those indices; and the answers do not depend on the bound given for
    the chain. */
module NodePathProperties {
  import opened Wrappers
  import opened StoreTypes
  import opened Store
  import opened NodeKinds
  import opened NodePath

  /** The indices of a list of frames. */
  function Indices(frames: seq<Frame>): (r: seq<Index>)
    ensures |r| == |frames|
    ensures forall i :: 0 <= i < |r| ==> r[i] == frames[i].index
  {
    if |frames| == 0 then [] else [frames[0].index] + Indices(frames[1..])
  }

  /** The ancestors run from a key without parent down to `key`'s parent,
      each the parent of the next. */
  lemma {:induction false} AncestorsLinked(st: Snapshot, key: Key, n: nat)
    requires ChainEndsWithin(st, key, n)
    ensures var anc := Ancestors(st, key, n);
      && (|anc| > 0 ==> GetParentKey(st, key) == Some(anc[|anc| - 1]) && GetParentKey(st, anc[0]).None?)
      && (forall i :: 0 <= i < |anc| - 1 ==> GetParentKey(st, anc[i + 1]) == Some(anc[i]))
    decreases n
  {
    var p := GetParentKey(st, key);
    if p.Some? {
      AncestorsLinked(st, p.value, n - 1);
      var anc := Ancestors(st, key, n);
      var anc' := Ancestors(st, p.value, n - 1);
      assert anc == anc' + [p.value];
      forall i | 0 <= i < |anc| - 1 ensures GetParentKey(st, anc[i + 1]) == Some(anc[i]) {
        if i + 1 < |anc'| {
          assert anc[i] == anc'[i] && anc[i + 1] == anc'[i + 1];
        }
      }
    }
  }

  /** A longer bound also covers the chain. */
  lemma {:induction false} ChainLonger(st: Snapshot, key: Key, n: nat, n': nat)
    requires ChainEndsWithin(st, key, n) && n <= n'
    ensures ChainEndsWithin(st, key, n')
    decreases n
  {
    var p := GetParentKey(st, key);
    if p.Some? {
      ChainLonger(st, p.value, n - 1, n' - 1);
    }
  }

  /** The frames above `key` answer the index path of `key`, and neither
      depends on the bound. */
  lemma {:induction false} FramesAndIndices(schema: seq<Kind>, st: Snapshot, key: Key, n: nat, n': nat)
    requires ChainEndsWithin(st, key, n) && n <= n'
    ensures ChainEndsWithin(st, key, n')
    ensures AncestorFrames(schema, st, key, n') == AncestorFrames(schema, st, key, n)
    ensures Ancestors(st, key, n') == Ancestors(st, key, n)
    ensures var f := AncestorFrames(schema, st, key, n);
      IndexPath(schema, st, key, n') == if f.Success? then Success(Indices(f.value)) else Failure(f.error)
    decreases n
  {
    ChainLonger(st, key, n, n');
    var p := GetParentKey(st, key);
    if p.Some? {
      FramesAndIndices(schema, st, p.value, n - 1, n' - 1);
      var above := AncestorFrames(schema, st, p.value, n - 1);
      var index := Step(schema, st, p.value, key);
      if above.Success? && index.Success? {
        assert Indices(above.value + [Frame(p.value, index.value)]) == Indices(above.value) + [index.value];
      }
    }
  }

  /** The frames above `key` lie along its ancestors, root first, and each
      carries the index its node type reports for the next key down. */
  lemma {:induction false} AncestorFramesShape(schema: seq<Kind>, st: Snapshot, key: Key, n: nat)
    requires ChainEndsWithin(st, key, n) && AncestorFrames(schema, st, key, n).Success?
    ensures var fs := AncestorFrames(schema, st, key, n).value;
      var keys := Ancestors(st, key, n) + [key];
      && |fs| == |keys| - 1
      && (forall i :: 0 <= i < |fs| ==> fs[i].key == keys[i])
      && (forall i :: 0 <= i < |fs| ==> Step(schema, st, keys[i], keys[i + 1]) == Success(fs[i].index))
    decreases n
  {
    var p := GetParentKey(st, key);
    if p.Some? {
      var q := p.value;
      AncestorFramesShape(schema, st, q, n - 1);
      var above := AncestorFrames(schema, st, q, n - 1).value;
      var index := Step(schema, st, q, key).value;
      var fs := AncestorFrames(schema, st, key, n).value;
      assert fs == above + [Frame(q, index)];
      var keys' := Ancestors(st, q, n - 1) + [q];
      var keys := Ancestors(st, key, n) + [key];
      assert keys == keys' + [key];
      forall i | 0 <= i < |fs|
        ensures fs[i].key == keys[i] && Step(schema, st, keys[i], keys[i + 1]) == Success(fs[i].index)
      {
        if i < |above| {
          assert fs[i] == above[i] && keys[i] == keys'[i] && keys[i + 1] == keys'[i + 1];
        } else {
          assert fs[i] == Frame(q, index) && keys[i] == q && keys[i + 1] == key;
        }
      }
    }
  }

  /** `getPathToRoot`: the last frame is the point with its offset; the
      first has no parent; each frame's key is the parent of the next one's
      and its index is what its node type reports for the next key; there is
      one frame per ancestor and one for the point. */
  lemma PathToRootShape(schema: seq<Kind>, st: Snapshot, point: Point, n: nat)
    requires ChainEndsWithin(st, point.key, n) && PathToRoot(schema, st, point, n).Success?
    ensures var path := PathToRoot(schema, st, point, n).value;
      && |path| == |Ancestors(st, point.key, n)| + 1
      && path[|path| - 1] == Frame(point.key, PointIndex(point))
      && GetParentKey(st, path[0].key).None?
      && (forall i :: 0 <= i < |path| - 1 ==> GetParentKey(st, path[i + 1].key) == Some(path[i].key))
      && (forall i :: 0 <= i < |path| - 1 ==> Step(schema, st, path[i].key, path[i + 1].key) == Success(path[i].index))
  {
    AncestorFramesShape(schema, st, point.key, n);
    AncestorsLinked(st, point.key, n);
    var path := PathToRoot(schema, st, point, n).value;
    var keys := Ancestors(st, point.key, n) + [point.key];
    assert forall i :: 0 <= i < |path| ==> path[i].key == keys[i];
  }

  /** `getIndexPath` is the index list of all frames of `getPathToRoot` but
      the last; it fails exactly when `getPathToRoot` does, and is empty for
      a key without parent. */
  lemma IndexPathIsPathIndices(schema: seq<Kind>, st: Snapshot, point: Point, n: nat)
    requires ChainEndsWithin(st, point.key, n)
    ensures var path := PathToRoot(schema, st, point, n);
      var ip := IndexPath(schema, st, point.key, n);
      && (ip.Success? <==> path.Success?)
      && (ip.Failure? ==> ip.error == path.error)
      && (ip.Success? ==> ip.value == Indices(path.value[..|path.value| - 1]))
    ensures GetParentKey(st, point.key).None? ==> IndexPath(schema, st, point.key, n) == Success([])
  {
    FramesAndIndices(schema, st, point.key, n, n);
    var f := AncestorFrames(schema, st, point.key, n);
    if f.Success? {
      var path := PathToRoot(schema, st, point, n).value;
      assert path[..|path| - 1] == f.value;
    }
  }

  /** The node type recorded under `key` is a union. */
  predicate IsUnionNode(schema: seq<Kind>, st: Snapshot, key: Key) {
    var t := NodeTypeOf(schema, st, key);
    t.Success? && t.value.Union?
  }

  /** Where the index path resolves, every ancestor's node type is found. */
  lemma {:induction false} AncestorTypesFound(schema: seq<Kind>, st: Snapshot, key: Key, n: nat)
    requires ChainEndsWithin(st, key, n) && IndexPath(schema, st, key, n).Success?
    ensures forall i :: 0 <= i < |Ancestors(st, key, n)| ==> NodeTypeOf(schema, st, Ancestors(st, key, n)[i]).Success?
    decreases n
  {
    var p := GetParentKey(st, key);
    if p.Some? {
      AncestorTypesFound(schema, st, p.value, n - 1);
      var anc := Ancestors(st, key, n);
      var anc' := Ancestors(st, p.value, n - 1);
      assert anc == anc' + [p.value];
      assert Step(schema, st, p.value, key).Success?;
      forall i | 0 <= i < |anc| ensures NodeTypeOf(schema, st, anc[i]).Success? {
        if i < |anc'| {
          assert anc[i] == anc'[i];
        }
      }
    }
  }

  /** As written, the index path of a key fails as soon as one of its
      ancestors is a union node, though the corrected one resolves. */
  lemma {:induction false} IndexPathAsWrittenFails(schema: seq<Kind>, st: Snapshot, key: Key, n: nat, i: nat)
    requires ChainEndsWithin(st, key, n) && IndexPath(schema, st, key, n).Success?
    requires i < |Ancestors(st, key, n)| && IsUnionNode(schema, st, Ancestors(st, key, n)[i])
    ensures IndexPathAsWritten(schema, st, key, n) == Failure(NoIndexLookup)
    decreases n
  {
    var p := GetParentKey(st, key);
    var q := p.value;
    var anc := Ancestors(st, key, n);
    var anc' := Ancestors(st, q, n - 1);
    assert anc == anc' + [q];
    IndexPathUp(schema, st, key, n);
    StepAsWrittenCases(schema, st, q, key);
    if i < |anc'| {
      assert anc[i] == anc'[i];
      IndexPathAsWrittenFails(schema, st, q, n - 1, i);
    }
    IndexPathAsWrittenUp(schema, st, key, n);
  }

  /** A resolving index path resolves its parent's step and its parent's
      path. */
  lemma IndexPathUp(schema: seq<Kind>, st: Snapshot, key: Key, n: nat)
    requires ChainEndsWithin(st, key, n) && GetParentKey(st, key).Some?
    requires IndexPath(schema, st, key, n).Success?
    ensures var q := GetParentKey(st, key).value;
      && n > 0 && ChainEndsWithin(st, q, n - 1)
      && Step(schema, st, q, key).Success? && IndexPath(schema, st, q, n - 1).Success?
  {
  }

  /** The index path as written fails as soon as the step to the parent or
      the parent's own path fails. */
  lemma IndexPathAsWrittenUp(schema: seq<Kind>, st: Snapshot, key: Key, n: nat)
    requires ChainEndsWithin(st, key, n) && GetParentKey(st, key).Some?
    requires var q := GetParentKey(st, key).value;
      || StepAsWritten(schema, st, q, key) == Failure(NoIndexLookup)
      || (StepAsWritten(schema, st, q, key).Success? && IndexPathAsWritten(schema, st, q, n - 1) == Failure(NoIndexLookup))
    ensures IndexPathAsWritten(schema, st, key, n) == Failure(NoIndexLookup)
  {
  }

  /** As written, the frames above a key fail exactly when its index path
      as written does, with the same error. */
  lemma {:induction false} FramesAsWrittenFailLikeIndices(schema: seq<Kind>, st: Snapshot, key: Key, n: nat)
    requires ChainEndsWithin(st, key, n)
    ensures var f := AncestorFramesAsWritten(schema, st, key, n);
      var ip := IndexPathAsWritten(schema, st, key, n);
      && (f.Success? <==> ip.Success?)
      && (f.Failure? ==> f.error == ip.error)
    decreases n
  {
    var p := GetParentKey(st, key);
    if p.Some? {
      FramesAsWrittenFailLikeIndices(schema, st, p.value, n - 1);
    }
  }

  /** As written, `getPathToRoot` of a point fails as soon as one of its
      ancestors is a union node, though the corrected one resolves. */
  lemma PathToRootAsWrittenFails(schema: seq<Kind>, st: Snapshot, point: Point, n: nat, i: nat)
    requires ChainEndsWithin(st, point.key, n) && PathToRoot(schema, st, point, n).Success?
    requires i < |Ancestors(st, point.key, n)| && IsUnionNode(schema, st, Ancestors(st, point.key, n)[i])
    ensures PathToRootAsWritten(schema, st, point, n) == Failure(NoIndexLookup)
  {
    IndexPathIsPathIndices(schema, st, point, n);
    IndexPathAsWrittenFails(schema, st, point.key, n, i);
    FramesAsWrittenFailLikeIndices(schema, st, point.key, n);
  }

  /** A step as written either fails on a union node or is the corrected
      step. */
  lemma StepAsWrittenCases(schema: seq<Kind>, st: Snapshot, parent: Key, child: Key)
    ensures IsUnionNode(schema, st, parent) ==> StepAsWritten(schema, st, parent, child) == Failure(NoIndexLookup)
    ensures !IsUnionNode(schema, st, parent) ==> StepAsWritten(schema, st, parent, child) == Step(schema, st, parent, child)
  {
  }

  /** Where no ancestor is a union node, the index path as written is the
      corrected one. */
  lemma {:induction false} IndexPathAsWrittenAgrees(schema: seq<Kind>, st: Snapshot, key: Key, n: nat)
    requires ChainEndsWithin(st, key, n)
    requires forall i :: 0 <= i < |Ancestors(st, key, n)| ==> !IsUnionNode(schema, st, Ancestors(st, key, n)[i])
    ensures IndexPathAsWritten(schema, st, key, n) == IndexPath(schema, st, key, n)
    decreases n
  {
    var p := GetParentKey(st, key);
    if p.Some? {
      var q := p.value;
      var anc := Ancestors(st, key, n);
      var anc' := Ancestors(st, q, n - 1);
      assert anc == anc' + [q];
      assert !IsUnionNode(schema, st, anc[|anc'|]);
      StepAsWrittenCases(schema, st, q, key);
      forall i | 0 <= i < |anc'| ensures !IsUnionNode(schema, st, anc'[i]) {
        assert anc[i] == anc'[i];
      }
      IndexPathAsWrittenAgrees(schema, st, q, n - 1);
    }
  }
}
