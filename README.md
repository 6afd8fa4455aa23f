# Flat-store document editor: a verified model

The editor keeps a JSON-shaped document in a flat key-value store. Each node
of the document sits under its own key. The store keeps three maps:

- `values`: the node's flat value;
- `parentKeys`: the key of the node's parent;
- `typeNames`: the name of the node's type.

A `state` map holds the update counter and the cursor. Non-root keys are the
decimal numerals of a counter that only goes up, and the root sits under
`"root"`.

Node types are built by a closed set of helpers: primitive, literal, text,
wrapped, array, object, union and root. Each node type has:

- a validator for its flat value;
- `store`, which writes a JSON value into the store through a transaction
  and returns the new key;
- `toJsonValue`, which reads the JSON value back;
- usually `getIndexWithin`, which says where a child sits inside its parent.

The concrete schema is Root → Document (array) → DocumentItem (a union of
Paragraph and MultipleChoiceExercise) → ….

Path resolution walks parent pointers from a point up to the root. On the
way it collects each ancestor's index of the child on the path, root first.

An earlier generation of the store is modelled on its own. It has one
`entries` map of `{type, key, parentKey, value}` records, keys of the form
`type:n`, and a recursive `insert` for content, paragraphs and text.

Modules:

- `Decimal`, `StoreTypes`, `Guards`, `JsonValues`: keys as decimal
  numerals, flat values, the guard combinators, and JSON values with
  `Object.fromEntries`.
- `Store`: the store as a `Snapshot` value with read functions. The class
  `EditorStore` carries the maps as fields, and `Transaction` holds the
  write operations. Re-entrant `update` is split into `BeginUpdate` and
  `EndUpdate` around a `currentTransaction` field.
- `NodeKinds`: the `Kind` datatype (one constructor per helper), the
  validators, `getFlatValue`, `getParentKey`, `getPropKey`,
  `getIndexWithin`, `getChildType`, and the normal form that
  `toJsonValue` gives back.
- `Codec`: `store` as the function `Encode` and `toJsonValue` as the
  function `Decode`. Each returns the result and the state after it, and a
  failure keeps what was written before it.
- `NodeStore`: the `store`, `attachRoot` and `updateValue` operations as
  methods on a transaction, each proved equal to its `Codec` function.
- `CodecShape`, `CodecProperties`, `CodecRoundTrip`, `Normalization`: what
  `store` writes and where, the links between parents and children, and
  the round trip `toJsonValue(store(json)) == normal form of json`.
- `Schema`: the concrete node types and the two findings below.
- `NodePath`, `NodePathProperties`: `getPathToRoot`, `getIndexPath`,
  `getTreeCursor` and `pushIndex`, as loop methods proved against
  recursive functions.
- `LegacyState`, `LegacyInsert`, `LegacyInsertProperties`: the earlier
  `EditorState`, its `Transaction`, and `insert`/`insertRoot`.

## Model

| member | source | states |
|---|---|---|
| Decimal.NatToDecimal | src/store/store.ts:142-150 | `String(n)` is a non-empty string of ASCII digits whose decimal value is `n` |
| Decimal.DecimalInjective | src/store/store.ts:142-150 | two counter values give the same key exactly when they are equal, so no key is handed out twice |
| StoreTypes.KeyValueRoundTrip | src/store/types.ts:5-10 | a key held in a flat value reads back unchanged; `isNonRootKey` accepts it iff it is one or more digits; `"root"` is never a non-root key |
| StoreTypes.GeneratedKeyIsNonRoot | src/store/types.ts:9-10 | every `String(n)` passes `isNonRootKey` and differs from the root key |
| Guards.EveryIffAll | src/guards.ts:6-9 | `every` holds exactly when each item passes the guard |
| Guards.IsArrayOfIff | src/guards.ts:6-9 | `isArrayOf(g)(v)` iff `v` is an array whose every element passes `g`; the empty array always passes; a non-array never does |
| Guards.IsTupleOfIff | src/guards.ts:11-17 | `isTupleOf(g1, g2)` accepts a two-element array iff `g1` accepts the first and `g2` the second, and rejects arrays of any other length |
| Guards.IsBoolean | src/guards.ts:3 | `isBoolean`: the value is a boolean |
| Guards.IsString | src/guards.ts:4 | `isString`: the value is a string |
| Guards.IsArrayOf | src/guards.ts:6-9 | `isArrayOf(itemGuard)`; what it accepts is stated by `IsArrayOfIff` |
| Guards.IsTupleOf | src/guards.ts:11-17 | `isTupleOf(guard1, guard2)`; what it accepts is stated by `IsTupleOfIff` |
| JsonValues.LookupDistinct | src/nodes/core/define-object-node.tsx:46-56 | in an object with distinct property names, each property reads back its own value |
| JsonValues.FromEntriesOfDistinct | src/nodes/core/define-object-node.tsx:46-56 | `Object.fromEntries` of entries with distinct names is the object with those entries in that order |
| JsonValues.FromEntries | src/nodes/core/define-object-node.tsx:53 | `Object.fromEntries` assigns the entries front to back, a later entry overwriting an earlier one of the same name; with distinct names it keeps every entry (`FromEntriesOfDistinct`) |
| Store.GetValue | src/store/store.ts:26-36 | fails with not-found for a key without a value, with a type mismatch when the guard rejects the stored value, and otherwise returns exactly the stored value |
| Store.GetTypeName | src/store/store.ts:38-44 | fails exactly when the key has no type name; otherwise returns the stored name |
| Store.GetParentKey | src/store/store.ts:46-48 | null exactly for a key without a parent entry or with a null parent; otherwise the stored parent |
| Store.Has | src/store/store.ts:50-52 | `has(key)`: the key holds a value |
| Store.NextKey | src/store/store.ts:142-150 | the counter goes up by exactly one and nothing else changes; the key is its numeral, a non-root key different from every key of a lower number |
| Store.UpdateValue | src/store/store.ts:100-106 | fails as `getValue` does; otherwise only the key's value changes, to the literal or to `fn(current)`, and parents, type names and counters stay |
| Store.RootAttached | src/store/store.ts:107-118 | fails exactly when the root key already has a value; otherwise the root holds the child key, has a null parent and type name `root`, and every other key is untouched |
| Store.EditorStore.constructor | src/store/store.ts:14-19 | a store works on the document's maps as they stand, counters included, with no open transaction: a second store over the shared default document sees what the first wrote and numbers keys on from there; a fresh document gives an empty store |
| Store.EditorStore.UpdateCount | src/store/store.ts:58-64 | the `updateCount` getter, which `EndUpdate` and `NestedUpdateCountsOnce` show moves once per outermost update |
| Store.EditorStore.GenerateNextKey | src/store/store.ts:142-150 | the method's key and new state are those of `NextKey` |
| Store.EditorStore.BeginUpdate | src/store/store.ts:74-83 | a nested call reuses the open transaction; an outermost call opens a fresh one |
| Store.EditorStore.EndUpdate | src/store/store.ts:85-91 | only an outermost call that completed raises `updateCount`, by one; an outermost call always clears the open transaction |
| Store.Transaction.Update | src/store/store.ts:100-106 | on success the new state is `UpdateValue`'s; on failure the error is `UpdateValue`'s and the state is unchanged |
| Store.Transaction.AttachRoot | src/store/store.ts:107-118 | on success it returns the root key and the state is `RootAttached`'s; on failure nothing changes |
| Store.Transaction.BeginInsert | src/store/store.ts:119-121 | `insert` allocates its key through `generateNextKey` before the value is built |
| Store.Transaction.FinishInsert | src/store/store.ts:121-127 | records the value, the parent and the type name under the key and returns it |
| Store.Transaction.SetCursor | src/store/store.ts:129-131 | replaces only the cursor |
| Store.Transaction.SetCaret | src/store/store.ts:132-134 | sets the cursor to `{start: p, end: p}` and changes nothing else |
| Store.NestedUpdateCountsOnce | src/store/store.ts:74-96 | an `update` nested inside another adds nothing to `updateCount`; the pair adds exactly one and leaves no open transaction |
| NodeKinds.FindVariant | src/nodes/core/define-union-node.ts:9-15 | `getChildType` finds the first variant with the name, and fails exactly when no variant has it |
| NodeKinds.VariantOf | src/nodes/core/define-union-node.ts:27-28 | the variant a union's `store` picks is the first whose type name equals `getTypeName(json)`, the value's tag; there is none exactly when the tag is missing or no variant has that name |
| NodeKinds.ParentKeyOf | src/nodes/core/define-non-root-node.ts:11-17 | the root passes the store's answer on; any other node fails exactly when the parent is missing or null, and otherwise returns the stored parent |
| NodeKinds.Validator | src/nodes/core/define-object-node.tsx:28-33 | `isValidFlatValue` of each node type; what each accepts is stated by `ValidatorAccepts` |
| NodeKinds.ValidatorAccepts | src/nodes/core/define-object-node.tsx:28-33 | a primitive accepts what its guard accepts, a literal only its own value, a text node a text handle, wrapped, union and root nodes one non-root key, an array a list of non-root keys, an object a list of `[declared name, non-root key]` pairs |
| NodeKinds.GetFlatValue | src/nodes/core/define-node.ts:8-10 | `getFlatValue` succeeds exactly when the key holds a value the node type's validator accepts, and returns that value; otherwise not-found or a type mismatch |
| NodeKinds.TagOf | src/nodes/core/define-union-node.ts:28 | `getTypeName(json)` of the document item union: `json[tagField]` when that is a string, and nothing otherwise |
| NodeKinds.IndexOf | src/nodes/define-array-node.tsx:48-49 | `indexOf` gives the first position holding the key, or -1 exactly when the key is absent |
| NodeKinds.FindPair | src/nodes/core/define-object-node.tsx:86-96 | finds the first entry whose key is the child's, and fails exactly when no entry holds it |
| NodeKinds.FindPairNamed | src/nodes/core/define-object-node.tsx:37-44 | finds the first entry named `prop`, and fails exactly when no entry has that name |
| NodeKinds.PropKeyOf | src/nodes/core/define-object-node.tsx:37-44 | `getPropKey` fails as `getFlatValue` does, fails with property-not-found exactly when no entry is named `prop`, and otherwise returns the key of the first such entry |
| NodeKinds.IndexWithin | src/nodes/define-array-node.tsx:43-50 | array: fails for a non-numeral child key, otherwise gives the child's first position or -1; object: the first matching entry's position, or child-not-found; text, wrapped, root and union: no index; primitive and literal: no lookup at all |
| NodeKinds.IndexWithinAsWritten | src/nodes/core/define-union-node.ts:17-41 | as written, asking a union for an index fails because it defines no `getIndexWithin`; every other node type answers as `IndexWithin` does |
| NodeKinds.NormalizeProps | src/nodes/core/define-object-node.tsx:46-56 | the object read back holds exactly the `keyOrder` properties, in `keyOrder` order |
| NodeKinds.NormalizeItems | src/nodes/define-array-node.tsx:15-20 | an array reads back with as many items as it was stored with |
| CodecShape.CompleteShape | src/store/store.ts:119-128 | `insert` returns the key it allocated first and records the value, parent and type name under it, touching only freshly numbered keys |
| Codec.Complete | src/store/store.ts:121-127 | the end of `insert`: a failure of `createValue` passes through with the writes made so far; otherwise the value, parent and type name are recorded under the key (`CompleteShape`) |
| Codec.Encode | src/nodes/core/define-primitive-node.ts:20-22 | `store` of each non-root node type as a function of the state: the key and the state after; its properties are `EncodeShape`, `TypedEncodeSucceeds` and `RoundTrip` |
| Codec.EncodeItems | src/nodes/define-array-node.tsx:22-26 | `json.map` storing each item under the array's key; stated by `EncodeItemsShape` |
| Codec.EncodeProps | src/nodes/core/define-object-node.tsx:58-67 | `keyOrder.map` storing each property under the object's key; stated by `EncodePropsShape` |
| Codec.AttachRootNode | src/nodes/define-root-node.tsx:31-33 | `attachRoot`: the child is stored first, then the root entry is attached; stated by `AttachRootRoundTrip` and `AttachRootTwice` |
| Codec.Decode | src/nodes/core/define-primitive-node.ts:12-14 | `toJsonValue` of each node type; what it gives back is stated by `RoundTrip` and the `Decode…Step` lemmas |
| Codec.DecodeItems | src/nodes/define-array-node.tsx:15-20 | the `map` over an array's child keys; stated by `RoundTripItems` |
| Codec.DecodeProps | src/nodes/core/define-object-node.tsx:46-56 | the `map` over an object's entries, each read with its property's node type; stated by `RoundTripProps` |
| CodecShape.EncodeShape | src/store/store.ts:119-128 | a node's `store` returns `String(lastKeyNumber + 1)`, stores it under the given parent and recorded name, and writes only under keys numbered above the old counter |
| CodecShape.EncodeItemsShape | src/nodes/define-array-node.tsx:22-26 | an array stores one child per element, in order, under fresh and increasing keys, each under the array's key |
| CodecShape.EncodePropsShape | src/nodes/core/define-object-node.tsx:58-67 | an object stores exactly one entry per `keyOrder` property, in `keyOrder` order, under fresh and increasing keys, each under the object's key with its property's type name |
| CodecProperties.AttachRootRoundTrip | src/nodes/define-root-node.tsx:26-33 | after `attachRoot`, the root reads back as the normal form of the document, has no parent and is named `root` |
| CodecProperties.AttachRootTwice | src/nodes/define-root-node.tsx:31-33 | on an existing root, `attachRoot` fails, but only after the child subtree has been written under new keys; the old root is untouched |
| CodecProperties.LiteralMismatch | src/nodes/core/define-literal-nodes.ts:5 | storing a value other than the literal succeeds, and reading it back fails with a type mismatch |
| CodecProperties.ArrayChildLinks | src/nodes/define-array-node.tsx:22-26 | after an array is stored, it holds one key per element; each child's parent is the array, and `getIndexWithin` finds child `i` at position `i` |
| CodecProperties.ObjectChildLinks | src/nodes/core/define-object-node.tsx:58-67 | after an object is stored, entry `i` is named `keyOrder[i]`; its child's parent is the object, and `getIndexWithin` finds it at position `i` |
| CodecProperties.ObjectPropKeys | src/nodes/core/define-object-node.tsx:37-44 | after an object is stored, `getPropKey` of a `keyOrder` property gives the child stored for its first occurrence, and of any other name fails |
| CodecProperties.PropKeysNamed | src/nodes/core/define-object-node.tsx:37-44 | over entries named `names`, `getPropKey` of `names[i]` returns entry `i`'s key when the name does not occur earlier, and fails for a name not listed |
| CodecProperties.UpdatedPrimitiveReads | src/nodes/core/define-primitive-node.ts:16-18 | `updateValue` checks only the current value: afterwards the node reads back as the new value iff the guard accepts it, and all other keys are untouched |
| CodecProperties.TypedEncodeSucceeds | src/nodes/core/define-union-node.ts:27-33 | `store` of a value of the node's JSON type always succeeds |
| CodecRoundTrip.RoundTrip | src/nodes/core/define-primitive-node.ts:12-22 | reading a stored node back gives the normal form of what was stored, in any later state that keeps the keys written |
| CodecRoundTrip.RoundTripWrapped | src/nodes/core/define-wrapped-node.tsx:17-28 | a wrapped node reads back as `{type: tag, value: child read back}` |
| CodecRoundTrip.WrappedStored | src/nodes/core/define-wrapped-node.tsx:24-28 | a wrapped node's flat value is the key of its only child, which is stored from `json.value` |
| CodecRoundTrip.DecodeWrappedStep | src/nodes/core/define-wrapped-node.tsx:17-22 | `toJsonValue` of a wrapped node is `{type: tag, value: child's toJsonValue}` |
| CodecRoundTrip.RoundTripUnion | src/nodes/core/define-union-node.ts:20-33 | a union whose variants record their own names reads back as the chosen variant's read-back |
| CodecRoundTrip.UnionStored | src/nodes/core/define-union-node.ts:27-33 | a union's flat value is the key of the chosen variant's node, which is recorded under that variant's name |
| CodecRoundTrip.DecodeUnionStep | src/nodes/core/define-union-node.ts:20-25 | `toJsonValue` of a union picks the variant by the child's stored type name and delegates to it |
| CodecRoundTrip.RoundTripArray | src/nodes/define-array-node.tsx:15-26 | an array reads back item by item as the normal forms of its elements |
| CodecRoundTrip.ArrayStored | src/nodes/define-array-node.tsx:22-26 | an array's flat value is the list of its children's keys |
| CodecRoundTrip.RoundTripItems | src/nodes/define-array-node.tsx:15-20 | the `map` over the children's keys reads back the stored elements in order |
| CodecRoundTrip.RoundTripObject | src/nodes/core/define-object-node.tsx:46-67 | an object reads back as its `keyOrder` properties, each the normal form of the stored property |
| CodecRoundTrip.RoundTripProps | src/nodes/core/define-object-node.tsx:46-56 | the entries read back are the stored properties, in `keyOrder` order |
| NodeStore.StoreNode | src/nodes/core/define-primitive-node.ts:20-22 | the node type's `store`, run on a transaction, returns and writes exactly what `Encode` describes |
| NodeStore.StoreItems | src/nodes/define-array-node.tsx:22-26 | the children's `store` calls, run in order, return and write exactly what `EncodeItems` describes |
| NodeStore.StoreProps | src/nodes/core/define-object-node.tsx:58-67 | the `keyOrder` loop returns and writes exactly what `EncodeProps` describes |
| NodeStore.AttachRootNode | src/nodes/define-root-node.tsx:31-33 | `attachRoot` returns and writes exactly what `AttachRootNode` of `Codec` describes |
| NodeStore.UpdatePrimitive | src/nodes/core/define-primitive-node.ts:16-18 | `updateValue` checks the current value with the node's guard and then writes the new value as `UpdateValue` does; on failure nothing changes |
| Normalization.NormalizedObject | src/nodes/core/define-object-node.tsx:46-56 | with distinct `keyOrder` names, `Object.fromEntries` keeps the entries read back as they are |
| Normalization.NormalizeFits | src/nodes/core/define-object-node.tsx:46-67 | in a schema where every object lists each declared property and every union variant tags itself, what is read back is again a value of the node's JSON type |
| Normalization.NormalizeIdempotent | src/nodes/core/define-object-node.tsx:46-67 | in such a schema, reading back is idempotent: the normal form of a normal form is itself, so a value read back comes back unchanged from a second store and read |
| Normalization.NormalizeKeepsTag | src/nodes/core/define-union-node.ts:20-33 | a self-tagging variant's read-back keeps the tag that made the union choose it |
| Schema.MultipleChoiceExercise | src/nodes/concrete-node-types.tsx:90-125 | the exercise is an object named `multipleChoiceExercise` with the given `keyOrder` |
| Schema.DocumentItem | src/nodes/concrete-node-types.tsx:127-130 | the document item is a union named `documentItem` of Paragraph and the exercise, dispatching on `type` |
| Schema.RegistryNames | src/nodes/concrete-node-types.tsx:13-134 | the eleven node types of the schema, from `TextNode` to `RootNode`, are recorded under the names `text` … `root`, with `documentItem` ninth and only there |
| Schema.AnswerWellFormed | src/nodes/concrete-node-types.tsx:65-88 | MultipleChoiceAnswer (`isCorrect`, then `text`) and the answers array are well formed and list every declared property |
| Schema.SchemaWellFormed | src/nodes/concrete-node-types.tsx:127-134 | the corrected schema from the root down is well formed, and every union variant tags itself |
| Schema.SchemaAsWrittenIncomplete | src/nodes/concrete-node-types.tsx:90-99 | the schema as written is well formed, but the exercise leaves a declared property out of `keyOrder` |
| Schema.DocumentItemDispatch | src/nodes/concrete-node-types.tsx:127-130 | a document item picks the paragraph for `paragraph`, the exercise for `multipleChoiceExercise`, and `store` fails for any other tag |
| Schema.ExerciseNormalFormUntagged | src/nodes/concrete-node-types.tsx:98 | as written, the exercise read back has no `type` property |
| Schema.NormalFormLacks | src/nodes/core/define-object-node.tsx:58-67 | a property outside `keyOrder` is not stored and is absent after reading back |
| Schema.UntaggedNotStorable | src/nodes/core/define-union-node.ts:27-28 | a union's `store` fails on a value without a tag |
| Schema.ExerciseLosesTypeAsWritten | src/nodes/concrete-node-types.tsx:90-99 | as written, an exercise stored as a document item reads back without `type`, and storing that value again fails |
| Schema.DocumentReadBackStorable | src/nodes/concrete-node-types.tsx:132 | with the corrected exercise, a document reads back as a value of its JSON type; storing that value again succeeds and reads back as the same value |
| Schema.UnionChildStored | src/nodes/core/define-union-node.ts:27-33 | the variant a union stores gets the key right after the union's and has the union as parent |
| Schema.DocumentItemChildAsWritten | src/nodes/core/define-union-node.ts:17-41 | as written, resolving the index of any node below a document item fails; with the no-index lookup it gives no index |
| NodePath.KindNamed | src/nodes/node-path.ts:4 | the type registry finds the first node type recorded under the name, and fails exactly when none is |
| NodePath.NodeTypeOf | src/nodes/node-path.ts:23 | `getNodeType` reads the key's type name and finds its node type; it fails for a key without a type name and for an unknown name |
| NodePath.Step | src/nodes/node-path.ts:74-75 | one step up: the parent's node type, found by its recorded name, answers `getIndexWithin` for the child (union corrected) |
| NodePath.StepAsWritten | src/nodes/node-path.ts:74-75 | the same step with the union as written; `StepAsWrittenCases` states where the two differ |
| NodePath.AncestorFrames | src/nodes/node-path.ts:22-32 | the frames the loop of `getPathToRoot` prepends; stated by `AncestorFramesShape` |
| NodePath.AncestorFramesAsWritten | src/nodes/node-path.ts:22-32 | the same frames with the union as written |
| NodePath.PathToRoot | src/nodes/node-path.ts:18-35 | `getPathToRoot` with the corrected union lookup of Findings row 2; stated by `PathToRootShape` |
| NodePath.PathToRootAsWritten | src/nodes/node-path.ts:18-35 | `getPathToRoot` with the union as written; stated by `PathToRootAsWrittenFails` |
| NodePath.IndexPath | src/nodes/node-path.ts:64-83 | `getIndexPath` with the corrected union lookup of Findings row 2; stated by `IndexPathIsPathIndices` |
| NodePath.IndexPathAsWritten | src/nodes/node-path.ts:64-83 | `getIndexPath` with the union as written; stated by `IndexPathAsWrittenFails` and `IndexPathAsWrittenAgrees` |
| NodePath.Ancestors | src/nodes/node-path.ts:20-32 | the parent chain has no entries exactly when the key has no parent |
| NodePath.GetPathToRoot | src/nodes/node-path.ts:18-35 | the `unshift` loop computes `PathToRoot`, with the corrected union lookup of Findings row 2 |
| NodePath.GetIndexPath | src/nodes/node-path.ts:64-83 | the `unshift` loop computes `IndexPath`, with the corrected union lookup of Findings row 2 |
| NodePath.GetTreeCursor | src/nodes/node-path.ts:42-58 | without a cursor, no selection and an empty node path; otherwise the start and end index paths with an empty node path, failing as either does; with the corrected union lookup of Findings row 2 |
| NodePath.PushIndex | src/nodes/node-path.ts:60-62 | appends the index to the node path and keeps the selection |
| NodePathProperties.AncestorsLinked | src/nodes/node-path.ts:20-32 | each ancestor is the parent of the next; the first has no parent, and the last is the point's parent |
| NodePathProperties.AncestorFramesShape | src/nodes/node-path.ts:22-32 | frame `i` holds ancestor `i` and that ancestor's `getIndexWithin` of the next key on the path |
| NodePathProperties.PathToRootShape | src/nodes/node-path.ts:18-35 | the path has one frame per ancestor plus the point; the last frame is the point with its offset; the first has no parent; consecutive frames are parent and child; each index is the parent's `getIndexWithin` of the child |
| NodePathProperties.IndexPathIsPathIndices | src/nodes/node-path.ts:64-83 | `getIndexPath` is the indices of all frames but the last of `getPathToRoot`, failing alike, and it is empty for a key without a parent |
| NodePathProperties.StepAsWrittenCases | src/nodes/node-path.ts:74-75 | as written, one step fails exactly at a union parent and otherwise agrees with the corrected step |
| NodePathProperties.IndexPathAsWrittenFails | src/nodes/node-path.ts:64-83 | as written, an index path through any union ancestor fails, even where the corrected one resolves |
| NodePathProperties.IndexPathAsWrittenAgrees | src/nodes/node-path.ts:64-83 | without union ancestors, the index path as written and the corrected one agree |
| NodePathProperties.FramesAsWrittenFailLikeIndices | src/nodes/node-path.ts:18-35 | as written, the frames above a key fail exactly when its index path fails, with the same error |
| NodePathProperties.PathToRootAsWrittenFails | src/nodes/node-path.ts:23-27 | as written, `getPathToRoot` of a point fails as soon as an ancestor is a union node, even where the corrected path resolves |
| LegacyState.LegacyKeyInjective | src/state/editor-state.ts:73-77 | a key `type:n` splits back into its type and number, so two keys are equal only for the same type and number |
| LegacyState.GetEntry | src/state/editor-state.ts:18-24 | `get` fails exactly when the key has no entry, and otherwise returns it |
| LegacyState.HasEntry | src/state/editor-state.ts:30-32 | `has(key)`: the key has an entry |
| LegacyState.SetEntry | src/state/editor-state.ts:68-71 | `set(key, entry)` replaces the entry under the key and nothing else |
| LegacyState.GenerateKey | src/state/editor-state.ts:73-77 | the counter goes up by one and the key is `type:counter` |
| LegacyState.GeneratedKeyFresh | src/state/editor-state.ts:73-77 | a generated key names no existing entry, and the counter still bounds every key |
| LegacyState.UpdateEntry | src/state/transaction.ts:25-33 | fails exactly when the key has no entry; otherwise keeps type, key and parent, replaces the value with the literal or `fn(old value)`, and leaves every other entry |
| LegacyState.RootInserted | src/state/transaction.ts:35-38 | writes the entry `{type: root, key, parentKey: null, value}` over whatever was there |
| LegacyState.UpdateKeepsValid | src/state/transaction.ts:25-33 | an update keeps every entry's key matching the key it is stored under, and the counter bounding the keys |
| LegacyState.RootInsertedKeepsValid | src/state/transaction.ts:35-38 | writing the root entry keeps those invariants |
| LegacyState.EditorState.constructor | src/state/editor-state.ts:7-16 | the entries and the update count are the document's, while the key counter belongs to the instance and starts at -1; the key invariant holds from the start exactly when the document holds root entries only, as a fresh one does |
| LegacyState.SecondStateReusesKeys | src/state/editor-state.ts:7-16 | a second state over a document an earlier state wrote to generates, as its first key for a type, the key the earlier one generated first, which is already in use |
| LegacyState.EditorState.Set | src/state/editor-state.ts:68-71 | overwrites the entry under the key |
| LegacyState.EditorState.NewKey | src/state/editor-state.ts:73-77 | the method's key and new state are those of `GenerateKey` |
| LegacyState.EditorState.BeginUpdate | src/state/editor-state.ts:42-51 | every `update` call hands the body a fresh transaction on this state |
| LegacyState.EditorState.EndUpdate | src/state/editor-state.ts:52 | raises the update count by one and changes nothing else |
| LegacyState.Transaction.constructor | src/state/transaction.ts:13-23 | the transaction works on the given state |
| LegacyState.Transaction.Has | src/state/editor-state.ts:30-32 | `has` is true iff the key has an entry |
| LegacyState.Transaction.Get | src/state/editor-state.ts:18-24 | `get` is passed through from the state unchanged |
| LegacyState.Transaction.Update | src/state/transaction.ts:25-33 | on success the new state is `UpdateEntry`'s; on failure nothing changes |
| LegacyState.Transaction.InsertRoot | src/state/transaction.ts:35-38 | returns the key, and the new state is `RootInserted`'s |
| LegacyState.Transaction.BeginInsert | src/state/transaction.ts:45 | `insert` generates its key before the value is built |
| LegacyState.Transaction.FinishInsert | src/state/transaction.ts:46-50 | stores `{type, key, parentKey, value}` under the key and returns it |
| LegacyState.NestedUpdatesCountTwice | src/state/editor-state.ts:42-54 | unlike the newer store, a nested `update` counts too: two nested calls add two |
| LegacyInsert.InsertSpec | src/operations/insert.ts:31-64 | `insert` always moves the key counter forward |
| LegacyInsert.InsertAllSpec | src/operations/insert.ts:37-45 | the `map` over a content's items returns one key per item |
| LegacyInsert.InsertRootSpec | src/operations/insert.ts:16-29 | `insertRoot` fails exactly when the key already exists, and otherwise returns that key |
| LegacyInsert.Insert | src/operations/insert.ts:31-64 | the recursive procedure returns and writes exactly what `InsertSpec` describes |
| LegacyInsert.InsertAll | src/operations/insert.ts:37-45 | the loop over a content's items returns and writes exactly what `InsertAllSpec` describes |
| LegacyInsert.InsertRoot | src/operations/insert.ts:16-29 | as `InsertRootSpec`; the refusal leaves the state untouched |
| LegacyInsertProperties.WriteGenerated | src/state/transaction.ts:40-51 | the entry `insert` writes goes under a key that was not in use before, and keeps every earlier entry |
| LegacyInsertProperties.InsertWrites | src/operations/insert.ts:31-64 | `insert` returns `type:(counter + 1)`, a key not in use before; it only adds entries under newly generated keys and stores the value under the requested type |
| LegacyInsertProperties.InsertParagraph | src/operations/insert.ts:51-63 | a paragraph is stored under its parent with the key of a text entry, whose parent is the paragraph and which holds `value.value` |
| LegacyInsertProperties.InsertContent | src/operations/insert.ts:37-45 | a content is stored under its parent, listing one paragraph per item in order, each under the content, with keys generated after the content's and increasing |
| LegacyInsertProperties.InsertAllWrites | src/operations/insert.ts:37-45 | the items become paragraphs in order under fresh and increasing keys |
| LegacyInsertProperties.InsertRootWrites | src/operations/insert.ts:16-29 | `insertRoot` fails exactly on an existing key; otherwise it keeps every entry, stores the root with a null parent, and points it at a content holding the document |

## Left out

- Rendering: every `render` method, `HtmlTag`, JSX and BooleanNode's `onChange` belong to the React UI.
- Yjs plumbing: `ydoc.transact`, update listeners, `getValueEntries`/`getEntries` and convergence are not modelled. The maps are plain maps, and a text handle is the string it holds.
- No rollback: a failure inside `update` or `store` keeps the writes made before it, as in the source. The model never undoes them.
- Exceptions thrown by the body of `update` appear as the `completed` flag of `EndUpdate`. The body itself is whatever the caller runs between `BeginUpdate` and `EndUpdate`.
- `invariant` failures are `Failure` results carrying an error constant; the messages are not modelled.
- Browser selection capture and restore are not modelled; only the point and cursor shapes are used.
- Command dispatch, `insertText` and `delete` handlers do not appear in the code. The default `onCommand` table (src/nodes/core/define-node.ts:16) is empty for every node type, so the model has no commands.
- `getNodeType` is imported by src/nodes/node-path.ts but not defined in the code; it is a lookup in a registry of node types by recorded name.
- A union's `getTypeName(json)` is modelled as `json[tagField]` when that is a string, which is how the document item union uses it.
- `isKeyOf(childTypes)` and `isIntersectionOf` appear only as the object validator's name guard `PropNameGuard`.
- Numbers are integers; floating point is not modelled. For the key counters this means the model does not capture that past 2^53 `lastKeyNumber + 1` (and `lastKey += 1`) can leave the counter unchanged, nor that from 10^21 on `String(n)` uses exponent notation, which `isNonRootKey` rejects. Decimal.DecimalInjective, and with it "no key is handed out twice", holds only below those bounds.
- The static JSON types (`JSONValue<T>`) are the predicate `Fits(k, json, true)`. `store` does not check them, and the model only assumes the shape `store` reads (`Fits(k, json, false)`).
- NodePath.GetPathToRoot: termination of the walk to the root rests on a ghost bound `n` on the length of the parent chain, which the source does not have; an endless parent cycle is not modelled.
- NodePath.GetIndexPath: same ghost bound as `GetPathToRoot`.
- src/nodes/concrete-node-types.tsx imports `./core/define-array-node` and `defineRootNode` from `./core/define-root-node`. Neither name exists there. The model uses src/nodes/define-array-node.tsx and src/nodes/define-root-node.tsx, which export them.
- LegacyInsert.Insert: the value must fit the JSON type of the requested node type (`LegacyTyped`); values of other shapes are not modelled.
- The `Index` type also allows strings; no node type in the code answers one, so `Index` holds numbers or no index.

## Findings

| source | as written | input that shows it | evidently intended | confidence | as-written member | corrected member |
|---|---|---|---|---|---|---|
| src/nodes/concrete-node-types.tsx:98 | MultipleChoiceExercise declares a `type` property but its `keyOrder` is `['exercise', 'answers']`, so `store` never writes `type` | store `{type: 'multipleChoiceExercise', exercise: [], answers: []}` as a document item and read it back: the result has no `type`, and storing it again fails because the union finds no variant | `keyOrder` lists `type` too, so a stored document reads back as a storable document | not executed | Schema.ExerciseLosesTypeAsWritten | Schema.DocumentReadBackStorable |
| src/nodes/core/define-union-node.ts:17-41 | the union node type defines no `getIndexWithin`, so path resolution through a document item calls a missing method | a paragraph inside a document item: `getIndexPath` of the paragraph's key, and so `getTreeCursor` of a cursor there, reaches the document item union and fails; `getPathToRoot` of a point there fails the same way (`PathToRootAsWrittenFails`) | the union answers no index, like the wrapped and root node types | not executed | NodePathProperties.IndexPathAsWrittenFails | NodeKinds.IndexWithin |
