# Mind-map editor core, modelled in Dafny

This project models the three parts of the mind-map editor that do real work:

- **the document runtime** (`MindmapRuntime`). It holds the current mind-map document, a table of named action handlers, a bounded undo history with a cursor, and a set of listeners;
- **the document actions** registered with it: `updateNodeProperty` with its aliases `setText`, `setNotes` and `setClass`, plus `addChild` and `removeNode`. Each one deep-copies the document, walks it with a short-circuiting `some` and edits the first match its walk finds;
- **the layout engine**, which turns the document into a scene:
  - a positioned, sized record for every visible node;
  - a connector for every parent–child edge shown;
  - the bounding box;
  - the Bézier geometry of a connector.

A document is a `DocTree.Node`: id, text, optional `class`, optional notes, children, and the remaining fields as a map. A node without children and a node with an empty child list are the same value (`children == []`).

The edits are described on two sequences read off the pre-order of a document:

- its labels, each node with its children dropped;
- its shape, each node's number of children.

Together the two determine the tree (`DocTree.LabelsAndShapeDetermineTree`, by decoding them back with `DocTree.DecodeForest`), so a lemma that gives both of them after an edit states the whole new document.

Modules:

- `Seqs` and `Wrappers`: generic sequence lemmas, `Option` and `Result`.
- `DocTree`: the document, its pre-order and its ids.
- `Runtime`:
  - the history discipline as pure functions over a `Timeline` (document, snapshots, cursor);
  - the class `MindmapRuntime`, whose methods update its fields in place and are proved to move the timeline as those functions say.
- `AppActions`:
  - the handlers as functions over documents;
  - the tree walks also as methods with the source's loops, proved equal to the functions.
- `Layout`:
  - the layout as the functions `LayoutTree`/`LayoutKids`/`LayoutScene`;
  - the class `SceneBuilder`, whose recursive `LayoutNode` and children loop fill its node and connector arrays and bounds in place, proved equal to those functions;
  - the class `LayoutEngine` with the defaults of `layout`'s arguments.

Inputs the model cannot see are parameters:

- the text width measured by the canvas (`Measurer`, a non-negative function of font and text);
- the id that `node-<time>-<random>` would give (`freshId`);
- the result of parsing JSON (`Option<Node>`).

## Model

| member | source | states |
|---|---|---|
| Runtime.FindNode | src/MindmapRuntime.js:25-34 | a node is returned exactly when the id occurs in the tree, and the node returned carries that id |
| Runtime.FindNodeIsFirstInPreOrder | src/MindmapRuntime.js:25-34 | the depth-first search returns the first node of the pre-order with the id, as a plain linear search of the pre-order does |
| Runtime.InitialTimeline | src/MindmapRuntime.js:2-9 | a new runtime holds the initial document, no snapshot and cursor -1, which is valid for every history bound |
| Runtime.Pushed | src/MindmapRuntime.js:54-62 | pushHistory keeps the history within its bound and the cursor inside it. The cursor ends on the newest snapshot, which is the current document, so nothing is left to redo. Below capacity, the snapshots up to the old cursor are kept and the cursor advances. At capacity, the oldest snapshot is evicted and the cursor stays put |
| Runtime.Undone | src/MindmapRuntime.js:72-78 | undo never changes the snapshots; it is a no-op unless the cursor is above 0. Otherwise the cursor steps back one, the document becomes the snapshot under it, and a redo becomes possible |
| Runtime.Redone | src/MindmapRuntime.js:80-86 | redo never changes the snapshots; it is a no-op unless snapshots lie after the cursor. Otherwise the cursor steps forward one, the document becomes the snapshot under it, and an undo becomes possible |
| Runtime.Dispatched | src/MindmapRuntime.js:36-52 | after dispatch or setState the document is the handler's result, or the old document when the result is undefined. The snapshots are those pushHistory leaves, and the cursor is on the newest |
| Runtime.UndoTimesMovesCursor | src/MindmapRuntime.js:72-78 | k undos (k at most the cursor) keep the snapshots, move the cursor back by k and restore the snapshot k places back |
| Runtime.UndoThenRedoReturns | src/MindmapRuntime.js:72-86 | k undos and then k redos give back the same snapshots and cursor, with the document replaced by the snapshot under the cursor |
| Runtime.UndoCannotRevertFirstDispatch | src/MindmapRuntime.js:42-45 | as written: on a fresh runtime, after one dispatch the history is just the initial document under cursor 0, undo is disabled and does nothing |
| Runtime.DispatchedResultIsNotSnapshotted | src/MindmapRuntime.js:42-48 | as written: a committed result that equals no earlier document is in no snapshot, so no redo can bring it back once undo has left it |
| Runtime.InitialSynced | src/MindmapRuntime.js:2-9 | corrected construction: the initial document is the snapshot under the cursor, valid for every bound of at least 1 |
| Runtime.Committed | src/MindmapRuntime.js:36-52 | corrected dispatch (commit, then push): the document is the result, or the old document when undefined, and it is the snapshot under the cursor |
| Runtime.UndoRedoKeepSynced | src/MindmapRuntime.js:72-86 | undo and redo keep the snapshot under the cursor equal to the document |
| Runtime.CommittedUndoRedo | src/MindmapRuntime.js:36-86 | corrected: with room for two snapshots, undo is possible right after a dispatch and restores the document from before it, and redo then restores the dispatched result |
| Runtime.SyncedUndoThenRedoIsIdentity | src/MindmapRuntime.js:72-86 | corrected: k undos followed by k redos give back exactly the same document, snapshots and cursor |
| Runtime.MindmapRuntime.constructor | src/MindmapRuntime.js:2-9 | the runtime starts from the initial document with no snapshots, cursor -1, the given handlers, the history bound (50 when not given), no listeners and nothing delivered |
| Runtime.MindmapRuntime.WithInitialSnapshot | src/MindmapRuntime.js:2-9 | corrected construction: as the constructor, but the initial document is already the snapshot under cursor 0 |
| Runtime.MindmapRuntime.PushHistory | src/MindmapRuntime.js:54-62 | the in-place slice, push and shift (or advance) leave exactly the timeline `Pushed` describes, and the history stays within bound |
| Runtime.MindmapRuntime.NotifyListeners | src/MindmapRuntime.js:106-108 | every notification hands the listeners the current document, recorded in `delivered` |
| Runtime.MindmapRuntime.SetState | src/MindmapRuntime.js:19-23 | push history, replace the document with the new data, notify with it |
| Runtime.MindmapRuntime.Dispatch | src/MindmapRuntime.js:36-52 | an unknown action type fails with UnknownAction and changes nothing. Otherwise the handler's result is returned, the timeline moves as `Dispatched` says, and the listeners receive the new document |
| Runtime.MindmapRuntime.DispatchCommitted | src/MindmapRuntime.js:36-52 | corrected dispatch: as Dispatch, but the timeline moves as `Committed` says, so the snapshot under the cursor is the new document |
| Runtime.MindmapRuntime.GetState | src/MindmapRuntime.js:15-17 | getState returns the current document of the timeline |
| Runtime.MindmapRuntime.CanUndo | src/MindmapRuntime.js:64-66 | true exactly when an undo would move the cursor |
| Runtime.MindmapRuntime.CanRedo | src/MindmapRuntime.js:68-70 | true exactly when a redo would move the cursor |
| Runtime.MindmapRuntime.Undo | src/MindmapRuntime.js:72-78 | the timeline moves as `Undone` says; listeners are notified exactly when undo was possible |
| Runtime.MindmapRuntime.Redo | src/MindmapRuntime.js:80-86 | the timeline moves as `Redone` says; listeners are notified exactly when redo was possible |
| Runtime.MindmapRuntime.ImportJson | src/MindmapRuntime.js:92-99 | text that does not parse fails with InvalidJson and changes nothing; a parsed document goes through setState |
| Runtime.MindmapRuntime.Subscribe | src/MindmapRuntime.js:101-102 | the listener is added to the set of listeners |
| Runtime.MindmapRuntime.Unsubscribe | src/MindmapRuntime.js:103 | the listener is removed from the set and no other is touched |
| AppActions.SetProp | src/App.js:34 | setting a property gives that field the value (`Some(value)` for notes and class) and changes nothing else of the node: the other two of text, notes and class, its id, children and other fields stay |
| AppActions.UpdateFirst | src/App.js:32-41 | the walk keeps the root id and, when it finds nothing, gives back the tree unchanged |
| AppActions.UpdateAmong | src/App.js:37-39 | the walk over siblings keeps their number and, when it finds nothing, gives them back unchanged |
| AppActions.UpdateFoundIff | src/App.js:32-41 | findAndUpdate reports success exactly when the id occurs in the tree |
| AppActions.UpdateAmongFoundIff | src/App.js:37-39 | `children.some(findAndUpdate)` succeeds exactly when the id occurs below one of the children |
| AppActions.FindAndUpdate | src/App.js:32-41 | the recursive method (a match sets the property, otherwise it hands the children to the `some` loop) computes the same tree and answer as the walk function |
| AppActions.SomeFindAndUpdate | src/App.js:37-39 | the `some` loop over the children, which stops at the first subtree that matched, computes the same children and answer as the walk over the siblings |
| AppActions.UpdateNodeProperty | src/App.js:31-46 | the root id is kept. Params of another shape, or an id not in the tree, leave the document as it is. Otherwise findNode of the id returns the old node with the property set |
| AppActions.SetText | src/App.js:49 | setText is updateNodeProperty with `text`; the node found afterwards carries the new text |
| AppActions.SetNotes | src/App.js:50 | setNotes is updateNodeProperty with `notes`; the node found afterwards carries the new notes |
| AppActions.SetClass | src/App.js:51 | setClass is updateNodeProperty with `class`; the node found afterwards carries the new class |
| AppActions.UpdateSetsFirstMatch | src/App.js:32-41 | after the walk, findNode returns the first match with the property set |
| AppActions.UpdateAmongSetsFirstMatch | src/App.js:37-39 | the same, for the walk over a list of siblings |
| AppActions.UpdateChangesOnlyFirstMatch | src/App.js:31-46 | in the pre-order, only the entry of the first node with the id changes, and only in the property set; every other node keeps its fields and place |
| AppActions.UpdateAmongChangesOnlyFirstMatch | src/App.js:37-39 | the same, for the walk over a list of siblings |
| AppActions.UpdateKeepsShape | src/App.js:32-41 | the edit keeps the shape: every node of the pre-order keeps its number of children, so with the labels above the whole tree is known |
| AppActions.UpdateAmongKeepsShape | src/App.js:37-39 | the same, for the walk over a list of siblings |
| AppActions.NewChild | src/App.js:53-70 | the child gets the given or default text. Node data carrying an id keeps its fields except x, y, width and height. Otherwise the child is a bare node with the generated id and class `default` |
| AppActions.AddFirst | src/App.js:55-77 | the walk keeps the root id and, when it finds nothing, gives back the tree unchanged |
| AppActions.AddAmong | src/App.js:73-75 | the walk over siblings keeps their number and, when it finds nothing, gives them back unchanged |
| AppActions.AddFoundIff | src/App.js:55-77 | findAndAdd reports success exactly when the parent id occurs in the tree |
| AppActions.AddAmongFoundIff | src/App.js:73-75 | `children.some(findAndAdd)` succeeds exactly when the parent id occurs below one of the children |
| AppActions.FindAndAdd | src/App.js:55-77 | the recursive method (a match appends the child, otherwise it hands the children to the `some` loop) computes the same tree and answer as the walk function |
| AppActions.SomeFindAndAdd | src/App.js:73-75 | the `some` loop over the children, which stops at the first subtree that held the parent, computes the same children and answer as the walk over the siblings |
| AppActions.AddChild | src/App.js:52-82 | the root id is kept. Params of another shape, or a parent not in the tree, leave the document as it is. Otherwise findNode of the parent returns the old parent with the new child appended last |
| AppActions.AddAppendsToFirstMatch | src/App.js:55-77 | after the walk, findNode returns the first match with the child appended to its children |
| AppActions.AddAmongAppendsToFirstMatch | src/App.js:73-75 | the same, for the walk over a list of siblings |
| AppActions.AddInsertsSubtree | src/App.js:52-82 | the new document's pre-order is the old one with the child's subtree inserted right after the parent's old subtree (the parent being the first pre-order node with the id); every other node keeps its fields and order |
| AppActions.AddAmongInsertsSubtree | src/App.js:73-75 | the same, for the walk over a list of siblings |
| AppActions.AddGrowsShape | src/App.js:55-77 | in the new shape the parent's entry has one child more, the child's own shape sits right after the parent's old subtree, and every other entry is unchanged |
| AppActions.AddAmongGrowsShape | src/App.js:73-75 | the same, for the walk over a list of siblings |
| AppActions.AddChildKeepsIdsDistinct | src/App.js:62-70 | when the document has distinct ids, adding a child with distinct new ids (or a generated id not in the tree) keeps them distinct |
| AppActions.FindIndex | src/App.js:88 | `findIndex` gives the first child with the id, or -1 exactly when no child has it |
| AppActions.RemoveFirst | src/App.js:86-96 | the walk keeps the root id, and the subtree it removes has the id. When nothing is removed, the tree comes back unchanged |
| AppActions.RemoveAmong | src/App.js:93 | the walk over siblings keeps their number, and any subtree removed has the id. When nothing is removed, the siblings come back unchanged |
| AppActions.RemoveFoundIff | src/App.js:86-96 | removeFromParent removes something exactly when the id occurs strictly below the node |
| AppActions.RemoveAmongFoundIff | src/App.js:93 | `children.some(removeFromParent)` removes something exactly when the id occurs strictly below one of the children |
| AppActions.RemoveFromParent | src/App.js:86-96 | the recursive method (`findIndex` among the direct children, `splice` on a hit, otherwise the `some` loop) computes the same tree and answer as the walk function |
| AppActions.ScanForChild | src/App.js:88 | the scan from the front returns the index of the first direct child with the id, or -1 when there is none, exactly as the reference search |
| AppActions.SomeRemoveFromParent | src/App.js:93 | the `some` loop over the children, which stops at the first subtree that lost a node, computes the same children and answer as the walk over the siblings |
| AppActions.RemoveNode | src/App.js:83-101 | the root id is kept. The root's own id, an id not in the tree, and addChild's params, which carry no `nodeId`, leave the document as it is |
| AppActions.RemoveNodeReadsOnlyNodeId | src/App.js:83 | any params carrying a `nodeId` (those of setText, setNotes, setClass and updateNodeProperty too) remove exactly as `{nodeId}` alone does |
| AppActions.RemoveCutsOutSubtree | src/App.js:86-96 | the removed subtree is one block of the old pre-order, and an earlier node of the old pre-order, the parent, has the removed node among its children. The new pre-order is the old one without that block: every other node keeps its fields and order, and in the shape only that parent has one child fewer |
| AppActions.RemoveAmongCutsOutSubtree | src/App.js:93 | the same, for the walk over a list of siblings |
| AppActions.RemoveNodeDeletesSubtree | src/App.js:83-101 | with distinct ids, removing a non-root id in the tree deletes the node findNode returns for it, with its whole subtree. That block starts at the node's pre-order position, and an earlier node was its parent. The new pre-order is the old one without the block, the parent has one child fewer, every other node is unchanged, and no id of the block is left |
| AppActions.Actions | src/App.js:30-102 | the action table registers exactly the six action names |
| AppActions.InitialData | src/App.js:7-28 | the initial document has the five ids root, idea1, sub1, sub2, idea2 in pre-order, all distinct |
| Layout.MeasureNode | src/LayoutEngine.js:19-29 | the height is the line height plus twice the vertical padding. The width is the measured text plus twice the horizontal padding, clamped to the minimum and then to the maximum text width, so it is the maximum whenever the maximum does not exceed the minimum |
| Layout.LayoutEngine.MeasureText | src/LayoutEngine.js:81-91 | the class's measureNode is the layout's own measurement with each absent argument being the engine's own: the same height and the same bounds on the width |
| Layout.Place | src/LayoutEngine.js:35-48 | a node's record carries its id and text, the given position and depth, its measured size, its class or 'default' when the class is absent or empty, whether it is collapsed, whether it has non-empty notes, and whether it has children |
| Layout.ChildYSteps | src/LayoutEngine.js:56-67 | the first child is placed half the children's total step above the parent; each next child is one step (height plus vertical spacing) further |
| Layout.LayoutTree | src/LayoutEngine.js:31-70 | a node's own record comes first, at the given position; its subtree emits one connector fewer than nodes |
| Layout.LayoutKids | src/LayoutEngine.js:55-69 | the children loop emits exactly one connector per node it places |
| Layout.LayoutScene | src/LayoutEngine.js:14-79 | the root is placed first at (0, 0) with depth 0, and a scene has one connector fewer than nodes |
| Layout.ExtendAllEncloses | src/LayoutEngine.js:50-53 | growing the bounds over a list of nodes keeps the start and encloses every node |
| Layout.ExtendAllAttained | src/LayoutEngine.js:50-53 | each side of the grown bounds is either the start value or the corresponding edge of some node |
| Layout.SceneBoundsEnclose | src/LayoutEngine.js:50-53 | the scene's bounds contain the origin and every node's box |
| Layout.SceneBoundsExact | src/LayoutEngine.js:50-53 | with non-negative padding and sizes, each side of the scene's bounds is an edge of some node, so the bounds are the tightest box |
| Layout.ChildPlacement | src/LayoutEngine.js:55-67 | in an expanded node, its k-th child is placed one level deeper. Its x is the parent's x plus the parent's width and the horizontal spacing, and its y is the closed form `y - (n-1)(h+v)/2 + k(h+v)` |
| Layout.KidRoot | src/LayoutEngine.js:58-60 | the children loop places each child's own record at the start of its subtree's block |
| Layout.CollapsedEmitsOnlyItself | src/LayoutEngine.js:33-55 | a collapsed node emits only its own record (marked collapsed, with hasChildren still telling whether it has children) and no connector |
| Layout.LayoutFollowsVisibleOrder | src/LayoutEngine.js:31-70 | the records are, in order, those of the visible nodes in pre-order; a visible node is one with no collapsed ancestor |
| Layout.LayoutKidsFollowVisibleOrder | src/LayoutEngine.js:55-69 | the same for the children loop |
| Layout.NothingCollapsedShowsAll | src/LayoutEngine.js:55 | when no node is collapsed, every node of the tree is shown, in pre-order |
| Layout.CollapsedHidesDescendants | src/LayoutEngine.js:55 | with distinct ids, no descendant of a collapsed node is visible |
| Layout.SceneHidesCollapsedSubtrees | src/LayoutEngine.js:31-72 | with distinct ids, no record and no connector of the scene names a descendant of a collapsed node |
| Layout.SceneSizes | src/LayoutEngine.js:25-26 | every record has the font's height, and its width lies between the minimum and maximum text width whenever those are ordered |
| Layout.ConnectorsJoinParentAndChild | src/LayoutEngine.js:58-65 | every connector runs from the record of a visible node to a later record of one of that node's document children, taken in the visible order. The child's record is one level deeper, and its x is the parent's right edge plus the horizontal spacing |
| Layout.KidsConnectorsJoin | src/LayoutEngine.js:58-68 | after the first i children, the same holds for the node's record followed by the children's records, aligned with the node followed by the visible order of those children. The connector the loop adds joins entry 0 to the first record of the child's subtree |
| Layout.ConnectorTargetsAreNonRootNodes | src/LayoutEngine.js:58-68 | the connectors' targets are, as a multiset, the placed nodes other than the subtree's root: each non-root node has exactly one incoming connector |
| Layout.KidsTargets | src/LayoutEngine.js:58-68 | the children loop's connectors lead to exactly the nodes it places |
| Layout.KidsStep | src/LayoutEngine.js:58-68 | one round of the children loop appends the child's subtree records and then its connector to what the earlier rounds pushed, and grows the bounds over that subtree, giving what one more round of the loop gives |
| Layout.Curvature | src/LayoutEngine.js:96 | the configured curvature, or 0.3 when it is absent or zero |
| Layout.ConnectorPath | src/LayoutEngine.js:93-107 | the curve runs from the middle of the source's right edge to the middle of the target's left edge. Its control points are level with those ends and pulled towards each other by the curvature times the horizontal gap |
| Layout.ControlPointsWithinSpan | src/LayoutEngine.js:98-104 | with a curvature between 0 and 1 and the target right of the source, both control points lie between the ends |
| Layout.ConnectorSpanIsSpacing | src/LayoutEngine.js:93-104 | for a parent and child placed by the layout, the curve spans exactly the horizontal spacing |
| Layout.SceneBuilder.constructor | src/LayoutEngine.js:15-17 | the builder starts with no nodes, no connectors and bounds (0, 0, 0, 0) |
| Layout.SceneBuilder.LayoutNode | src/LayoutEngine.js:31-70 | layoutNode appends exactly `LayoutTree`'s records and connectors to the arrays and grows the bounds over exactly those records |
| Layout.SceneBuilder.LayoutChildren | src/LayoutEngine.js:55-69 | the `childY` loop appends exactly `LayoutKids`'s records and connectors and grows the bounds over those records |
| Layout.LayoutEngine.constructor | src/LayoutEngine.js:2-12 | an absent layout configuration is the tree-ltr default (spacing 100 and 20, text width 80 to 300), and absent collapsed nodes are the empty set |
| Layout.LayoutEngine.Layout | src/LayoutEngine.js:14-79 | layout returns `LayoutScene` of the chosen inputs, each absent argument being the engine's own, so equal inputs give equal scenes |

## Left out

- Deep copies (`cloneDeep`, `JSON.parse(JSON.stringify(...))`) are left out. Documents are immutable values, so no holder can see a later change; `getState` is the field read `GetState`.
- `exportJSON` and JSON text are left out. `importJSON` takes the parse result as an `Option<Node>`, where `None` stands for text that does not parse.
- Dispatch (`Runtime.MindmapRuntime.Dispatch`): the handler table is a map of the six names, so only a registered name finds a handler. In the source, `this.actions[type]` also finds names inherited from `Object.prototype`. For example, "toString" gets past the `if (!handler)` check, pushes a snapshot and commits the string "[object Undefined]". "hasOwnProperty" pushes a snapshot and then throws. These inherited names are not modelled.
- ImportJson (`Runtime.MindmapRuntime.ImportJson`): the parse result is a document or nothing. In the source, any JSON text that parses is committed through setState, including `null`, `1` or `[]`, none of which is a document. Such values are not modelled.
- `dispatch` is asynchronous and takes a `context` argument. The model runs the handler synchronously on (document, params); `context` and a handler that throws are left out.
- Listener callbacks are left out. Only their identity is kept in a set, as the `Set` of the source does, and each notification appends the delivered document to `delivered`.
- `maxHistorySize` given as something other than an integer is not modelled; `actions || {}` is the caller passing an empty map.
- `updateNodeProperty` with a property other than `text`, `notes` or `class`, or with an undefined value, is not modelled.
- AppActions.UpdateNodeProperty, AppActions.SetText, AppActions.SetNotes, AppActions.SetClass: in the source, params of another action's shape that carry the `nodeId` of a node have the handler set an undefined property or value on it. The model leaves the document as it is for those params. addChild's params carry no `nodeId` and match no node, as in the source.
- A child added under a node whose `children` was absent is modelled with the empty sequence, so "absent" and "empty" children are not told apart.
- The generated `node-<time>-<random>` id is the parameter `freshId`, because clocks and randomness are inputs from outside.
- AppActions.RemoveNode: removeFromParent checks a node's direct children before descending into the first child, so with duplicate ids it may remove a later pre-order match than the first. The walk is modelled exactly. RemoveNodeDeletesSubtree states the result for documents with distinct ids only.
- Text measurement by a canvas is the `Measurer` parameter. The font string it is given is not modelled.
- A missing `theme` (which makes the source throw) is not modelled: a theme is always supplied.
- Arithmetic is on exact reals: floating-point rounding and NaN are left out.
- Layout.ConnectorPath: the SVG path string is left out; the model returns the four points it is built from. The unused `dy` is left out.
- The `type` field of the layout configuration is carried but, as in the source, not used by the layout.
- The static `capabilities` objects and everything in the React components are outside the modelled core.

## Findings

| source | as written | input that shows it | evidently intended | confidence | as-written member | corrected member |
|---|---|---|---|---|---|---|
| src/MindmapRuntime.js:42-78 | dispatch snapshots the document before running the handler and never snapshots the result, while undo first decrements the cursor and then restores. The constructor also starts with no snapshot | a fresh runtime and one dispatch of any action: history is [initial document] under cursor 0, so canUndo() is false and undo does nothing. After two dispatches, undo goes back two actions, and the latest result can never be redone | undo right after a dispatch restores the document from before that action, and redo restores its result (commit, then push, with the initial document as first snapshot) | not executed; follows from the proved lemmas | Runtime.UndoCannotRevertFirstDispatch | Runtime.CommittedUndoRedo |

The class `MindmapRuntime` keeps both versions side by side:

- the as-written constructor and `Dispatch`;
- the corrected `WithInitialSnapshot` and `DispatchCommitted`, which `Undo` and `Redo` keep synchronised (`UndoRedoKeepSynced`).
