/** The editor's document schema (src/nodes/concrete-node-types.tsx): a
    document is a list of items, each a paragraph or a multiple choice
    exercise, under the root node. The exercise object declares a `type`
    property holding its own name, but its `keyOrder` leaves `type` out;
    the schema is given both as written and with `type` in `keyOrder`. */
module Schema {
  import opened Wrappers
  import opened Decimal
  import opened StoreTypes
  import opened JsonValues
  import opened Store
  import opened NodeKinds
  import opened Normalization
  import Codec
  import CodecRoundTrip
  import CodecProperties
  import CodecShape
  import opened NodePath
  import opened NodePathProperties

  const TextNode: Kind := Text("text")

  /** `definePrimitiveNode(isBoolean)`. */
  const BooleanNode: Kind := Primitive("boolean", (p: Primitive) => p.PBool?)

  const ParagraphNode: Kind := Wrapped("paragraph", "paragraph", TextNode)

  const ContentNode: Kind := Array("content", ParagraphNode)

  const MultipleChoiceAnswerNode: Kind :=
    Object("multipleChoiceAnswer", [("isCorrect", BooleanNode), ("text", TextNode)], ["isCorrect", "text"])

  const MultipleChoiceAnswersNode: Kind := Array("multipleChoiceAnswers", MultipleChoiceAnswerNode)

  /** The `type` property of the exercise: the literal of its own name. */
  const ExerciseTypeNode: Kind := Literal("literal:multipleChoiceExercise", PString("multipleChoiceExercise"))

  /** The exercise object with a given `keyOrder`. */
  function MultipleChoiceExercise(keyOrder: seq<string>): (r: Kind)
    ensures r.Object? && r.typeName == "multipleChoiceExercise" && r.keyOrder == keyOrder
  {
    Object("multipleChoiceExercise",
      [("type", ExerciseTypeNode), ("exercise", ContentNode), ("answers", MultipleChoiceAnswersNode)],
      keyOrder)
  }

  /** The exercise as the source declares it: `type` is not in `keyOrder`. */
  const ExerciseAsWritten: Kind := MultipleChoiceExercise(["exercise", "answers"])

  /** The exercise with every declared property in `keyOrder`. */
  const MultipleChoiceExerciseNode: Kind := MultipleChoiceExercise(["type", "exercise", "answers"])

  /** The document item union over a given exercise node type, dispatching
      on `json.type`. */
  function DocumentItem(exercise: Kind): (r: Kind)
    ensures r.Union? && r.typeName == "documentItem" && r.tagField == "type" && |r.variants| == 2
    ensures r.variants[0] == ParagraphNode && r.variants[1] == exercise
  {
    Union("documentItem", [ParagraphNode, exercise], "type")
  }

  const DocumentItemAsWritten: Kind := DocumentItem(ExerciseAsWritten)
  const DocumentItemNode: Kind := DocumentItem(MultipleChoiceExerciseNode)

  const DocumentAsWritten: Kind := Array("document", DocumentItemAsWritten)
  const DocumentNode: Kind := Array("document", DocumentItemNode)

  const RootAsWritten: Kind := Root("root", DocumentAsWritten)
  const RootNode: Kind := Root("root", DocumentNode)

  /** The node types `getNodeType` chooses from. */
  const NodeTypes: seq<Kind> := [
    TextNode, BooleanNode, ParagraphNode, ContentNode, MultipleChoiceAnswerNode,
    MultipleChoiceAnswersNode, ExerciseTypeNode, MultipleChoiceExerciseNode,
    DocumentItemNode, DocumentNode, RootNode]

  lemma AnswerWellFormed()
    ensures WellFormed(MultipleChoiceAnswerNode) && Complete(MultipleChoiceAnswerNode)
    ensures WellFormed(MultipleChoiceAnswersNode) && Complete(MultipleChoiceAnswersNode)
  {
    var props := MultipleChoiceAnswerNode.props;
    assert props[0].0 == "isCorrect" && props[1].0 == "text";
    assert PropIndex(props, "isCorrect").Some? && PropIndex(props, "text").Some?;
  }

  /** The exercise object is well formed for any `keyOrder` drawn from its
      declared properties. */
  lemma ExerciseWellFormed(keyOrder: seq<string>)
    requires forall i :: 0 <= i < |keyOrder| ==> keyOrder[i] == "type" || keyOrder[i] == "exercise" || keyOrder[i] == "answers"
    ensures WellFormed(MultipleChoiceExercise(keyOrder))
  {
    var props := MultipleChoiceExercise(keyOrder).props;
    assert props[0].0 == "type" && props[1].0 == "exercise" && props[2].0 == "answers";
    assert WellFormed(ContentNode);
    AnswerWellFormed();
    forall i | 0 <= i < |keyOrder| ensures PropIndex(props, keyOrder[i]).Some? {
    }
  }

  lemma ExerciseComplete()
    ensures WellFormed(MultipleChoiceExerciseNode) && Complete(MultipleChoiceExerciseNode)
    ensures SelfTagged(MultipleChoiceExerciseNode, "type")
  {
    ExerciseWellFormed(["type", "exercise", "answers"]);
    ExercisePropsComplete();
    ExerciseKeysDistinct();
    ExerciseSelfTagged();
  }

  lemma ExerciseKeysDistinct()
    ensures DistinctStrings(["type", "exercise", "answers"])
  {
  }

  /** Every declared property of the exercise is in its `keyOrder` and
      complete. */
  lemma ExercisePropsComplete()
    ensures var exercise := MultipleChoiceExerciseNode;
      forall i :: 0 <= i < |exercise.props| ==> exercise.props[i].0 in exercise.keyOrder && Complete(exercise.props[i].1)
  {
    AnswerWellFormed();
    assert Complete(ContentNode);
    var exercise := MultipleChoiceExerciseNode;
    assert exercise.props[0].0 == "type" && exercise.props[1].0 == "exercise" && exercise.props[2].0 == "answers";
  }

  /** The exercise's `type` property is the literal of its own name. */
  lemma ExerciseSelfTagged()
    ensures SelfTagged(MultipleChoiceExerciseNode, "type")
  {
    var exercise := MultipleChoiceExerciseNode;
    assert exercise.props[0].0 == "type";
    assert PropIndex(exercise.props, "type") == Some(0);
  }

  /** The document item union over an exercise node type is well formed. */
  lemma DocumentItemWellFormed(exercise: Kind)
    requires exercise.Object? && exercise.typeName == "multipleChoiceExercise" && WellFormed(exercise)
    ensures WellFormed(DocumentItem(exercise))
  {
    var u := DocumentItem(exercise);
    assert WellFormed(ParagraphNode);
    forall i | 0 <= i < |u.variants|
      ensures !u.variants[i].Root? && RecordedName(u.variants[i]) == u.variants[i].typeName && WellFormed(u.variants[i])
    {
    }
  }

  /** The corrected schema is well formed and lists every object property
      in `keyOrder`. */
  lemma SchemaWellFormed()
    ensures WellFormed(RootNode) && Complete(RootNode)
  {
    ExerciseComplete();
    DocumentItemWellFormed(MultipleChoiceExerciseNode);
    var u := DocumentItemNode;
    forall i | 0 <= i < |u.variants| ensures SelfTagged(u.variants[i], "type") && Complete(u.variants[i]) {
    }
  }

  /** The schema as written is well formed, but the exercise leaves its
      `type` property out of `keyOrder`. */
  lemma SchemaAsWrittenIncomplete()
    ensures WellFormed(RootAsWritten) && !Complete(RootAsWritten)
  {
    ExerciseWellFormed(["exercise", "answers"]);
    DocumentItemWellFormed(ExerciseAsWritten);
    assert !Complete(ExerciseAsWritten) by {
      assert ExerciseAsWritten.props[0].0 !in ExerciseAsWritten.keyOrder;
    }
    assert !Complete(DocumentItemAsWritten) by {
      assert !Complete(DocumentItemAsWritten.variants[1]);
    }
  }

  /** A document item's `store` picks the paragraph for tag `paragraph`, the
      exercise for tag `multipleChoiceExercise`, and fails for any other. */
  lemma DocumentItemDispatch(json: Json, parent: Key, st: Snapshot)
    ensures var tag := TagOf(json, "type");
      VariantOf(DocumentItemNode, json)
        == if tag == Some("paragraph") then Some(0)
           else if tag == Some("multipleChoiceExercise") then Some(1)
           else None
    ensures WellFormed(DocumentItemNode)
    ensures VariantOf(DocumentItemNode, json).None? ==>
      Codec.Encode(DocumentItemNode, json, parent, st).result == Failure(UnknownVariant)
  {
    SchemaWellFormed();
  }

  /** `json` is a value of the JSON type of node type `k`. */
  predicate Typed(k: Kind, json: Json) {
    WellFormed(k) && Fits(k, json, true)
  }

  /** As written: the normal form of an exercise has no `type` property. */
  lemma ExerciseNormalFormUntagged(exercise: Kind, json: Json)
    requires exercise.Object? && exercise.keyOrder == ["exercise", "answers"]
    requires WellFormed(exercise) && Fits(exercise, json, false)
    ensures Get(Normalize(exercise, json), "type") == None
  {
    assert exercise.keyOrder[0] != exercise.keyOrder[1];
    NormalFormLacks(exercise, json, "type");
  }

  /** The normal form of an object has no property outside its `keyOrder`. */
  lemma NormalFormLacks(k: Kind, json: Json, name: string)
    requires k.Object? && WellFormed(k) && DistinctStrings(k.keyOrder) && Fits(k, json, false)
    requires name !in k.keyOrder
    ensures Get(Normalize(k, json), name) == None
  {
    NormalizedObject(k, json);
    var entries := NormalizeProps(k, 0, json);
    forall i | 0 <= i < |entries| ensures entries[i].0 != name {
      assert entries[i].0 == k.keyOrder[i];
    }
    LookupAbsent(entries, name);
  }

  /** A value whose tag field is missing is not of a union's JSON type, and
      the union's `store` fails on it. */
  lemma UntaggedNotStorable(u: Kind, json: Json, parent: Key, st: Snapshot)
    requires u.Union? && WellFormed(u) && Get(json, u.tagField) == None
    ensures Fits(u, json, false) && !Fits(u, json, true)
    ensures Codec.Encode(u, json, parent, st).result == Failure(UnknownVariant)
  {
  }

  /** As written: a typed exercise item stored through the document item
      union reads back without its `type` property, so the value read back
      names no variant and storing it again fails. */
  lemma ExerciseLosesTypeAsWritten(json: Json, parent: Key, st: Snapshot, parent': Key, st': Snapshot)
    requires Typed(DocumentItemAsWritten, json) && TagOf(json, "type") == Some("multipleChoiceExercise")
    ensures Fits(DocumentItemAsWritten, json, false)
    ensures var o := Codec.Encode(DocumentItemAsWritten, json, parent, st);
      var back := Normalize(DocumentItemAsWritten, json);
      && o.result.Success?
      && Codec.Decode(DocumentItemAsWritten, o.after, o.result.value) == Success(back)
      && Get(back, "type") == None
      && Fits(DocumentItemAsWritten, back, false) && !Fits(DocumentItemAsWritten, back, true)
      && Codec.Encode(DocumentItemAsWritten, back, parent', st').result == Failure(UnknownVariant)
  {
    var u := DocumentItemAsWritten;
    TypedFits(u, json);
    CodecProperties.TypedEncodeSucceeds(u, json, parent, st);
    var o := Codec.Encode(u, json, parent, st);
    CodecRoundTrip.RoundTrip(u, json, parent, st, o.after);
    assert u.variants[0].typeName != "multipleChoiceExercise";
    assert VariantOf(u, json) == Some(1);
    ExerciseNormalFormUntagged(ExerciseAsWritten, json);
    UntaggedNotStorable(u, Normalize(u, json), parent', st');
  }

  /** Corrected: every typed document stored and read back is a typed
      document again; storing it once more and reading it back gives the
      same value, so the read-back is a fixed point of the round trip. */
  lemma DocumentReadBackStorable(json: Json, parent: Key, st: Snapshot, parent': Key, st': Snapshot)
    requires Typed(DocumentNode, json)
    ensures Fits(DocumentNode, json, false)
    ensures var o := Codec.Encode(DocumentNode, json, parent, st);
      var back := Normalize(DocumentNode, json);
      && o.result.Success?
      && Codec.Decode(DocumentNode, o.after, o.result.value) == Success(back)
      && Fits(DocumentNode, back, true) && Fits(DocumentNode, back, false)
      && var o' := Codec.Encode(DocumentNode, back, parent', st');
      && o'.result.Success?
      && Codec.Decode(DocumentNode, o'.after, o'.result.value) == Success(back)
  {
    SchemaWellFormed();
    TypedFits(DocumentNode, json);
    CodecProperties.TypedEncodeSucceeds(DocumentNode, json, parent, st);
    var o := Codec.Encode(DocumentNode, json, parent, st);
    CodecRoundTrip.RoundTrip(DocumentNode, json, parent, st, o.after);
    NormalizeIdempotent(DocumentNode, json);
    var back := Normalize(DocumentNode, json);
    CodecProperties.TypedEncodeSucceeds(DocumentNode, back, parent', st');
    var o' := Codec.Encode(DocumentNode, back, parent', st');
    CodecRoundTrip.RoundTrip(DocumentNode, back, parent', st', o'.after);
  }

  /** The registry finds the document item union under its name. */
  lemma DocumentItemRegistered()
    ensures KindNamed(NodeTypes, "documentItem") == Some(8) && NodeTypes[8] == DocumentItemNode
  {
    RegistryNames();
    var r := KindNamed(NodeTypes, "documentItem");
    assert r.Some?;
    assert r.value != 9 && r.value != 10;
  }

  /** The names the node types of the registry are recorded under. */
  lemma RegistryNames()
    ensures |NodeTypes| == 11
    ensures forall j :: 0 <= j < 8 ==> RecordedName(NodeTypes[j]) != "documentItem"
    ensures RecordedName(NodeTypes[8]) == "documentItem"
    ensures RecordedName(NodeTypes[9]) == "document" && RecordedName(NodeTypes[10]) == "root"
  {
    var names := ["text", "boolean", "paragraph", "content", "multipleChoiceAnswer",
      "multipleChoiceAnswers", "literal:multipleChoiceExercise", "multipleChoiceExercise",
      "documentItem", "document", "root"];
    forall j | 0 <= j < |NodeTypes| ensures RecordedName(NodeTypes[j]) == names[j] {
    }
  }

  /** A union stores the variant right after itself, as its child. */
  lemma UnionChildStored(u: Kind, json: Json, parent: Key, st: Snapshot)
    requires u.Union? && WellFormed(u) && Fits(u, json, false) && Codec.Encode(u, json, parent, st).result.Success?
    ensures var o := Codec.Encode(u, json, parent, st);
      var child := NatToDecimal(st.lastKeyNumber + 2);
      && GetParentKey(o.after, child) == Some(o.result.value)
      && GetTypeName(o.after, o.result.value) == Success(u.typeName)
  {
    CodecShape.EncodeShape(u, json, parent, st);
    var o := Codec.Encode(u, json, parent, st);
    var a := NextKey(st);
    var i := VariantOf(u, json).value;
    var c := Codec.Encode(u.variants[i], json, a.key, a.after);
    CodecShape.EncodeShape(u.variants[i], json, a.key, a.after);
    var child := NatToDecimal(st.lastKeyNumber + 2);
    assert c.result.value == child;
    assert child != a.key by {
      assert DigitsValue(child) != DigitsValue(a.key);
    }
    assert o.after == Record(c.after, a.key, u.typeName, parent, KeyValue(child));
  }

  /** The variant a document item stores is its child: as written, the
      index lookup from that child to the item fails, so does the index
      path of the child (and of every key below it); corrected, the item
      answers no index, as wrapped nodes do. */
  lemma DocumentItemChildAsWritten(json: Json, parent: Key, st: Snapshot)
    requires Typed(DocumentItemNode, json)
    ensures Fits(DocumentItemNode, json, false)
    ensures var o := Codec.Encode(DocumentItemNode, json, parent, st);
      var child := NatToDecimal(st.lastKeyNumber + 2);
      && o.result.Success?
      && GetParentKey(o.after, child) == Some(o.result.value)
      && IsUnionNode(NodeTypes, o.after, o.result.value)
      && StepAsWritten(NodeTypes, o.after, o.result.value, child) == Failure(NoIndexLookup)
      && Step(NodeTypes, o.after, o.result.value, child) == Success(NoIndex)
      && (forall n :: ChainEndsWithin(o.after, child, n) ==>
            IndexPathAsWritten(NodeTypes, o.after, child, n) == Failure(NoIndexLookup))
  {
    var u := DocumentItemNode;
    TypedFits(u, json);
    CodecProperties.TypedEncodeSucceeds(u, json, parent, st);
    UnionChildStored(u, json, parent, st);
    DocumentItemRegistered();
    var o := Codec.Encode(u, json, parent, st);
    assert NodeTypeOf(NodeTypes, o.after, o.result.value) == Success(u);
  }
}
