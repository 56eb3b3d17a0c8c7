# Diagram editor state engine — a Dafny model

This project models the core of the diagram editor's state engine:

- the **edge reducer**, a transition over the map from edge id to edge record;
- the **edge action builders and handlers**: duplicate-free edge creation, the click/selection toggle, drag and hover;
- the **global builders**: cascading delete of the selection, rebuilding a node-create action, and the "move node back" action;
- the **undo table**, which maps each undoable action to its inverse, some built from the payload and some from a snapshot of the state taken before the action runs;
- the **mode filters**, which decide which events the COPY and READ_ONLY modes let through;
- **connector geometry**: where a node's INPUT and OUTPUT connectors sit, and how they are filtered by visibility;
- the **action dispatcher's routing**: event → handler call, with coordinates converted into the handler's frame, as its tests assert, plus the choices listed under "## Left out" for cases the tests leave open;
- the **node handlers**, as their tests assert them.

State is `map<string, Edge>` / `map<string, Node>` inside a `DiagramState` record, and actions are one datatype. A store is a class with a fixed `state` snapshot (what `getState` returns during one handler run) and a `log` of dispatched actions. Every handler is a method that appends to that log. Each handler's `ensures` ties the appended actions to a specification function, and lemmas prove what the source promises about those functions.

Conventions:

- JavaScript truthiness of ids is explicit: `Truthy(id)` means present and not `""`.
- Some code reads a property of a record that is not there. This happens in `handleEdgeClick` and in the reducer's EDGE_SELECT/EDGE_DESELECT on an unknown id, and in undoing NODE_DELETE or NODE_DRAG_END of an unknown node. JavaScript then throws a TypeError. The model also throws for a node drag of an unknown node id, a case chosen by analogy (see "## Left out"). The model returns that as a value (`Result.TypeError`, `Dispatched.raised`, `Reverting.RaisesTypeError`) instead of excluding it with a precondition. The model follows the code, which throws on these inputs.
- `uuid()` is a caller-supplied id. `readOnlyEventFilter` and the consumer's per-type size lookup are function parameters.
- Coordinates are `real`. The dispatcher requires `scale > 0`.
- `Object.keys` / lodash `filter` order is left open. Loop methods pick keys in any order with `:|`, and the undo table takes a key enumeration as a parameter.

Where a test disagrees with the code, the model follows the code:

- `src/state/mode/copy/copyEventFilter.spec.ts:47-56` expects a key-down with only `code: 'KeyC'` to pass, but `copyEventFilter` tests `key`.
- `src/state/edge/edgeActionDispatcher.spec.ts:184` expects a `dm-edge-` prefix, but `handleEdgeCreate` uses the bare uuid as the edge id.

Files: `types.dfy` (data model), `store.dfy`, `edge_reducer.dfy`, `edge_action_dispatcher.dfy`, `global_action_dispatcher.dfy`, `undo_middleware.dfy`, `event_filters.dfy`, `connectors.dfy`, `node_action_dispatcher.dfy`, `action_dispatcher.dfy`, `scenarios.dfy`.

## Model

| member | source | states |
|---|---|---|
| `StoreModel.Store.Dispatch` | src/state/ActionDispatcher.spec.ts:75-80 | dispatching appends exactly that action to the store's log |
| `EdgeReducer.Upsert` | src/state/edge/edgeReducer.ts:18-23 | CREATE_ITEMS' key set is the old keys plus the listed ids; keys not listed keep their record |
| `EdgeReducer.RemoveAll` | src/state/edge/edgeReducer.ts:60-66 | DELETE_ITEMS removes exactly the listed keys and leaves every other record as it was |
| `EdgeReducer.DeselectAll` | src/state/edge/edgeReducer.ts:53-59 | WORKSPACE_DESELECT keeps the key set, leaves every edge unselected and changes no other field |
| `EdgeReducer.UpsertEach` | src/state/edge/edgeReducer.ts:18-23 | the CREATE_ITEMS loop's draft ends equal to `Upsert` of the slice |
| `EdgeReducer.DeselectEach` | src/state/edge/edgeReducer.ts:53-59 | the WORKSPACE_DESELECT loop over the keys ends equal to `DeselectAll` |
| `EdgeReducer.RemoveEach` | src/state/edge/edgeReducer.ts:60-66 | the DELETE_ITEMS loop ends equal to `RemoveAll` of the listed ids |
| `EdgeReducer.Reduce` | src/state/edge/edgeReducer.ts:10-70 | the draft-editing reducer, with its `forEach` loops, yields the slice that `EdgesAfter` specifies for every action |
| `EdgeReducer.UndefinedStateIsEmpty` | src/state/edge/edgeReducer.ts:14-16 | an undefined slice reduces to the empty map, whatever the action |
| `EdgeReducer.EdgeCreateInsertsOne` | src/state/edge/edgeReducer.ts:28-44 | EDGE_CREATE adds one record under `id` with src, dest, both connector types, the consumer data and empty `diagramMakerData`; other keys are unchanged |
| `EdgeReducer.EdgeDeleteRemovesOne` | src/state/edge/edgeReducer.ts:24-27 | EDGE_DELETE removes exactly key `id`; an absent id changes nothing |
| `EdgeReducer.DeleteItemsRemovesListed` | src/state/edge/edgeReducer.ts:60-66 | a key survives DELETE_ITEMS iff it is not in `edgeIds`; ids that are all absent change nothing |
| `EdgeReducer.SelectSetsOneFlag` | src/state/edge/edgeReducer.ts:45-52 | EDGE_SELECT/EDGE_DESELECT set that one edge's flag to true/false and change nothing else; an unknown id throws |
| `EdgeReducer.WorkspaceDeselectClearsAll` | src/state/edge/edgeReducer.ts:53-59 | after WORKSPACE_DESELECT no edge is selected, keys and other fields unchanged |
| `EdgeReducer.WorkspaceDeselectIdempotent` | src/state/edge/edgeReducer.ts:53-59 | deselecting everything twice gives the same map as once |
| `EdgeReducer.CreateItemsUpserts` | src/state/edge/edgeReducer.ts:18-23 | after CREATE_ITEMS each id maps to the last listed edge with that id |
| `EdgeReducer.UpsertLastWins` | src/state/edge/edgeReducer.ts:20-22 | the in-order writes leave an id mapped to its last occurrence in the list |
| `EdgeReducer.UpsertAgrees` | src/state/edge/edgeReducer.ts:20-22 | writing records that agree with a reference map yields that map on every written id |
| `EdgeReducer.UpsertKeepsKeyed` | src/state/edge/edgeReducer.ts:18-23 | CREATE_ITEMS writes each record under its own id, so records stay keyed by their id |
| `EdgeReducer.EdgesAfterKeepsKeyed` | src/state/edge/edgeReducer.ts:10-70 | every case of the reducer keeps each record under its own id |
| `EdgeReducer.ReduceAllKeepsKeyed` | src/state/edge/edgeReducer.ts:10-70 | any run of reductions keeps each record under its own id, so the undo round trips can follow other reductions |
| `EdgeReducer.OtherActionsUnchanged` | src/state/edge/edgeReducer.ts:67-68 | every action outside the reducer's cases returns the slice unchanged |
| `EdgeActionDispatcher.CreateDragStartEdgeAction` | src/state/edge/edgeActionDispatcher.ts:18-27 | EDGE_DRAG_START carries `connectorSrcType` exactly when a truthy connector type is given |
| `EdgeActionDispatcher.DuplicateEdgeIds` | src/state/edge/edgeActionDispatcher.ts:130-134 | the filtered key list holds each edge with the identical (src, dest, srcType, destType) tuple, once |
| `EdgeActionDispatcher.HandleEdgeCreate` | src/state/edge/edgeActionDispatcher.ts:121-140 | appends exactly what `EdgeCreateActions` gives for the store's state |
| `EdgeActionDispatcher.EdgeCreateGuard` | src/state/edge/edgeActionDispatcher.ts:128-137 | nothing is dispatched when src or dest is missing or not a node, or a same-tuple edge exists; when all guards pass, exactly one EDGE_CREATE with the fresh id and the four fields |
| `EdgeActionDispatcher.EdgeCreateTwiceNoOp` | src/state/edge/edgeActionDispatcher.ts:131-135 | once the first EDGE_CREATE is reduced, a second attempt with the same tuple dispatches nothing |
| `EdgeActionDispatcher.EdgeCreatePreservesInvariants` | src/state/edge/edgeActionDispatcher.ts:121-140 | with an unused id, creating through the handler keeps "endpoints are nodes" and "no two edges share a tuple" |
| `EdgeActionDispatcher.HandleEdgeClick` | src/state/edge/edgeActionDispatcher.ts:142-162 | appends, and raises, exactly what `EdgeClickDispatch` gives |
| `EdgeActionDispatcher.EdgeClickCases` | src/state/edge/edgeActionDispatcher.ts:147-161 | no id: nothing; no ctrl: WORKSPACE_DESELECT first, then EDGE_SELECT even on a selected edge; ctrl: EDGE_DESELECT iff the edge is selected; it throws iff the id is not an edge |
| `EdgeActionDispatcher.EdgeClickRereadAgrees` | src/state/edge/edgeActionDispatcher.ts:151-155 | re-reading the store after WORKSPACE_DESELECT gives the same dispatches as the earlier snapshot |
| `EdgeActionDispatcher.PlainClickSelectsOnlyTarget` | src/state/edge/edgeActionDispatcher.ts:151-161 | reducing a plain click's actions leaves exactly the clicked edge selected |
| `EdgeActionDispatcher.HandleEdgeDragStart` | src/state/edge/edgeActionDispatcher.ts:90-103 | one EDGE_DRAG_START when the id is truthy, nothing otherwise |
| `EdgeActionDispatcher.HandleEdgeDragEnd` | src/state/edge/edgeActionDispatcher.ts:105-112 | one EDGE_DRAG_END when the id is truthy, nothing otherwise |
| `EdgeActionDispatcher.HandleEdgeDrag` | src/state/edge/edgeActionDispatcher.ts:114-119 | always exactly one EDGE_DRAG with the given position |
| `EdgeActionDispatcher.HandleEdgeMouseOver` | src/state/edge/edgeActionDispatcher.ts:164-171 | one EDGE_MOUSE_OVER for a truthy id, nothing otherwise |
| `EdgeActionDispatcher.HandleEdgeMouseOut` | src/state/edge/edgeActionDispatcher.ts:173-180 | one EDGE_MOUSE_OUT for a truthy id, nothing otherwise |
| `GlobalActionDispatcher.CreateNewNodeAction` | src/state/global/globalActionDispatcher.ts:37-50 | NODE_CREATE copies id, position, size and consumer data; a missing or empty type id becomes "" |
| `GlobalActionDispatcher.HandleMoveNodeAction` | src/state/global/globalActionDispatcher.ts:68-86 | NODE_DRAG targets `startDragPosition` when set, else the position, keeps the size, and is bounded by {(0,0), canvasSize} |
| `GlobalActionDispatcher.SelectedNodeIds` | src/state/global/globalActionDispatcher.ts:54 | the node ids are exactly the selected nodes, each once |
| `GlobalActionDispatcher.EdgeIdsToDelete` | src/state/global/globalActionDispatcher.ts:55-62 | the edge ids are exactly the selected edges and those whose src or dest is a deleted node, each once |
| `GlobalActionDispatcher.HandleDeleteSelectedItems` | src/state/global/globalActionDispatcher.ts:52-66 | exactly one DELETE_ITEMS is appended, even with nothing selected, and it deletes the selection with its cascade |
| `GlobalActionDispatcher.DeleteSelectionLeavesNoDanglingEdge` | src/state/global/globalActionDispatcher.ts:55-62 | after the delete, no remaining edge is selected or touches a deleted node, so endpoints stay among the remaining nodes |
| `GlobalActionDispatcher.DeleteSelectionCoversSelection` | src/state/global/globalActionDispatcher.ts:54-65 | every selected node is listed and every selected edge is gone after reduction |
| `UndoMiddleware.FilterByIdContents` | src/state/middleware/undoMiddleware.ts:32-33 | a value is kept iff it is stored in the map and its own id is listed |
| `UndoMiddleware.UnlistedHaveNoInverse` | src/state/middleware/undoMiddleware.ts:20-43 | an action has an entry iff it is EDGE_CREATE, NODE_CREATE, NODE_DELETE, DELETE_ITEMS or NODE_DRAG_END |
| `UndoMiddleware.EdgeCreateInverse` | src/state/middleware/undoMiddleware.ts:21 | EDGE_CREATE is undone by DELETE_ITEMS([], [id]) |
| `UndoMiddleware.NodeCreateInverse` | src/state/middleware/undoMiddleware.ts:22 | NODE_CREATE is undone by DELETE_ITEMS([id], []) |
| `UndoMiddleware.NodeDeleteInverse` | src/state/middleware/undoMiddleware.ts:23-28 | NODE_DELETE is undone by exactly the NODE_CREATE that `createNewNodeAction` builds from the pre-delete node record (type id `typeId \|\| ''`); an unknown node throws |
| `UndoMiddleware.DeleteItemsInverse` | src/state/middleware/undoMiddleware.ts:29-35 | DELETE_ITEMS is undone by CREATE_ITEMS holding exactly the pre-delete edges and nodes whose ids are listed |
| `UndoMiddleware.NodeDragEndInverse` | src/state/middleware/undoMiddleware.ts:36-42 | NODE_DRAG_END is undone by NODE_DRAG back to the pre-action drag-start position, else the position; an unknown node throws |
| `UndoMiddleware.EdgeCreateRoundTrip` | src/state/middleware/undoMiddleware.ts:21 | EDGE_CREATE with an unused id, then its inverse, through the edge reducer gives back the original edges |
| `UndoMiddleware.ReinsertRestores` | src/state/middleware/undoMiddleware.ts:29-35 | re-creating exactly the deleted records restores a map whose records sit under their own ids |
| `UndoMiddleware.DeleteItemsRoundTrip` | src/state/middleware/undoMiddleware.ts:29-35 | DELETE_ITEMS, then its inverse, through the edge reducer gives back the original edges |
| `UndoMiddleware.NodeCreateInverseKeepsEdges` | src/state/middleware/undoMiddleware.ts:22 | NODE_CREATE's inverse deletes no edge |
| `EventFilters.CopyEventFilterCharacterized` | src/state/mode/copy/copyEventFilter.ts:17-37 | COPY passes an event iff it is a container update, left click, mouse down or wheel, a Control/`c` key-down, or a drag event on the workspace |
| `EventFilters.CopyEventFilterRejectsOthers` | src/state/mode/copy/copyEventFilter.ts:35 | window resize, key-up, right click, mouse over/out and drop never pass in COPY mode |
| `EventFilters.CopyKeyDownIgnoresCode` | src/state/mode/copy/copyEventFilter.ts:25-28 | the key-down decision depends on `key` alone, not on `code` or modifiers |
| `EventFilters.RootEventFilterByMode` | src/state/mode/rootEventFilter.ts:9-18 | READ_ONLY delegates to its filter, COPY to the copy filter, every other mode passes everything |
| `EventFilters.RootEventFilterIgnoresReadOnlyOutsideIt` | src/state/mode/rootEventFilter.ts:9-18 | outside READ_ONLY the read-only filter has no influence on the result |
| `EventFilters.CopyModeRejectsNonWorkspaceDrag` | src/state/mode/copy/copyEventFilter.ts:29-34 | in COPY mode a drag event on anything but the workspace is rejected, whatever the read-only filter |
| `Connectors.LeftRightPlacement` | src/components/node/Node.tsx:78-102 | LEFT_RIGHT puts INPUT at (0, h/2) and OUTPUT at (w, h/2) |
| `Connectors.TopBottomPlacement` | src/components/node/Node.tsx:103-127 | TOP_BOTTOM puts INPUT at (w/2, 0) and OUTPUT at (w/2, h) |
| `Connectors.OtherPlacementHasNoConnectors` | src/components/node/Node.tsx:128-129 | an absent or other placement yields no connectors |
| `Connectors.ConnectorsOnBoundingBox` | src/components/node/Node.tsx:69-131 | every connector carries the node's id; with non-negative size each lies on the bounding box; a placement yields one input (a drop zone) then one output (draggable), as Connector.tsx makes them |
| `Connectors.KeepKindContents` | src/components/node/Node.tsx:142-145 | filtering by type keeps exactly the connectors of that type |
| `Connectors.KeepKindIsSubsequence` | src/components/node/Node.tsx:142-145 | filtering by type keeps the order of what it keeps |
| `Connectors.FilteredConnectorsByVisibility` | src/components/node/Node.tsx:133-151 | absent or unknown visibility keeps all, INPUT_ONLY / OUTPUT_ONLY keep exactly that type, NONE keeps none; always an order-preserving subsequence |
| `NodeActionDispatcher.HandleNodeClick` | src/state/node/nodeActionDispatcher.spec.ts:82-131 | appends, and raises, exactly what `NodeClickDispatch` gives |
| `NodeActionDispatcher.NodeClickCases` | src/state/node/nodeActionDispatcher.spec.ts:83-130 | no id: nothing; no ctrl: WORKSPACE_DESELECT then NODE_SELECT; ctrl on a selected node: only NODE_DESELECT; WORKSPACE_DESELECT iff no ctrl |
| `NodeActionDispatcher.HandleNodeCreate` | src/state/node/nodeActionDispatcher.spec.ts:49-80 | appends exactly what `NodeCreateActions` gives |
| `NodeActionDispatcher.NodeCreateFromPotentialNode` | src/state/node/nodeActionDispatcher.spec.ts:49-80 | a node is created iff a type id and a potential node exist, with id "dm-node-" + uuid and the preview's position and size; distinct uuids give distinct ids |
| `NodeActionDispatcher.HandleNodeDragStart` | src/state/node/nodeActionDispatcher.spec.ts:133-148 | one NODE_DRAG_START for a truthy id, nothing otherwise |
| `NodeActionDispatcher.HandleNodeDragEnd` | src/state/node/nodeActionDispatcher.spec.ts:150-181 | one NODE_DRAG_END with the given position and size for a truthy id, nothing otherwise |
| `NodeActionDispatcher.HandleNodeDrag` | src/state/node/nodeActionDispatcher.spec.ts:183-211 | appends, and raises, exactly what `NodeDragDispatch` gives |
| `NodeActionDispatcher.NodeDragKeepsSize` | src/state/node/nodeActionDispatcher.spec.ts:183-211 | NODE_DRAG carries the id, the position, the node's own size and {(0,0), canvasSize}; nothing without an id |
| `NodeActionDispatcher.CentredAt` | src/state/node/nodeActionDispatcher.spec.ts:226 | the corner it returns puts the box's centre on the given point |
| `NodeActionDispatcher.ResolveSize` | src/state/node/nodeActionDispatcher.spec.ts:213-256 | the data-width/data-height attributes win when both are present; otherwise the consumer's size for the type |
| `NodeActionDispatcher.HandlePotentialNodeDragStart` | src/state/node/nodeActionDispatcher.spec.ts:213-274 | appends exactly what `PotentialNodeDragStartActions` gives |
| `NodeActionDispatcher.PotentialNodeDragStartCentres` | src/state/node/nodeActionDispatcher.spec.ts:213-274 | the preview is centred on the pointer; nothing is dispatched without a type id or a resolvable size |
| `NodeActionDispatcher.HandlePotentialNodeDrag` | src/state/node/nodeActionDispatcher.spec.ts:292-315 | POTENTIAL_NODE_DRAG centred on the pointer with the preview's size and {(0,0), canvasSize}; no preview throws |
| `NodeActionDispatcher.HandlePotentialNodeDragEnd` | src/state/node/nodeActionDispatcher.spec.ts:276-290 | one POTENTIAL_NODE_DRAG_END for a truthy type id, nothing otherwise |
| `ActionDispatcherModel.WorkspaceFrameRoundTrip` | src/state/ActionDispatcher.spec.ts:363-385 | (P - W.pos) / scale and its inverse, zoom then pan, undo each other |
| `ActionDispatcherModel.ActionDispatcher.constructor` | src/state/ActionDispatcher.spec.ts:82-103 | a dispatcher is wired to one store, filter and size lookup, with no calls yet |
| `ActionDispatcherModel.ActionDispatcher.Execute` | src/state/ActionDispatcher.spec.ts:127-190 | a handler call appends exactly the modelled handler's dispatches; delete-selected appends one DELETE_ITEMS of the selection |
| `ActionDispatcherModel.ActionDispatcher.Publish` | src/state/ActionDispatcher.spec.ts:110-124 | publishing records the routed call, if any, and runs it: the log and `raised` are the modelled handler's, delete-selected appends one DELETE_ITEMS of the selection, an unmodelled call changes no log; an event routed nowhere changes nothing |
| `ActionDispatcherModel.RejectedEventsCallNothing` | src/state/ActionDispatcher.spec.ts:111-124 | when the mode filter rejects an event no handler is called |
| `ActionDispatcherModel.NodeDragFrame` | src/state/ActionDispatcher.spec.ts:261-323 | a node drag passes the workspace point that the anchor-corrected screen point P - O shows |
| `ActionDispatcherModel.NodeDragExamples` | src/state/ActionDispatcher.spec.ts:261-323 | the asserted values (-25, -75), (30, 30) and (150, 150) |
| `ActionDispatcherModel.EdgeDragFrame` | src/state/ActionDispatcher.spec.ts:481-496 | a connector drag passes (P - W.pos) / scale, whatever the offset; the asserted (0, -50) |
| `ActionDispatcherModel.RawFrameDragsIgnoreWorkspace` | src/state/ActionDispatcher.spec.ts:228-479 | panel drags and DRAG-mode workspace drags pass the raw P - O, whatever the pan and zoom |
| `ActionDispatcherModel.WorkspaceDragInMarqueeModes` | src/state/ActionDispatcher.spec.ts:325-457 | in SELECT or COPY mode a workspace drag start, drag and end show, move (to (P - W.pos) / scale) and hide the marquee; the drag-start frame and the other modes are choices listed under "## Left out" |
| `ActionDispatcherModel.ClickAndHoverRouting` | src/state/ActionDispatcher.spec.ts:127-223 | left clicks reach the node, edge/badge or workspace handler with id and ctrl; hover reaches the edge handlers only for edges and badges |
| `ActionDispatcherModel.DragStartRouting` | src/state/ActionDispatcher.spec.ts:521-662 | drag start reaches the panel, node, edge (with the connector type) or potential-node handler, as asserted; the workspace frame (P - W.pos) / scale and "workspace only in marquee modes" are choices listed under "## Left out" |
| `ActionDispatcherModel.DragEndRouting` | src/state/ActionDispatcher.spec.ts:664-759 | drag end reaches the node handler with position and size absent for an unknown node (as asserted) and stored ones for a known node (a choice listed under "## Left out"), or the edge, potential-node or marquee handler |
| `ActionDispatcherModel.ChromeRouting` | src/state/ActionDispatcher.spec.ts:1042-1085 | mouse down hides the context menu, right click shows it, a container update resizes the workspace to the container's size |
| `ActionDispatcherModel.WheelRouting` | src/state/ActionDispatcher.spec.ts:762-878 | off the workspace nothing; ctrl zooms by -delta at the pointer unless a context menu is open; otherwise pan to position - 0.5 (deltaX, deltaY) |
| `ActionDispatcherModel.DropRouting` | src/state/ActionDispatcher.spec.ts:881-971 | edge create (target id, drop id) iff connector on connector; node create iff potential node on workspace; nothing else |
| `ActionDispatcherModel.KeyRouting` | src/state/ActionDispatcher.spec.ts:973-1040 | mod+A selects all, Delete/Backspace delete the selection, mod+Z undoes without shift and redoes with it |
| `Scenarios.ConnectorDropCreatesOneEdgeAndUndoRemovesIt` | src/state/ActionDispatcher.spec.ts:881-904 | with two nodes and no edges, dropping one connector on the other creates exactly one edge between them, and undoing it leaves no edge |
| `Scenarios.RepeatedConnectorDropCreatesNothing` | src/state/edge/edgeActionDispatcher.ts:131-135 | repeating the same connector drop once the edge exists dispatches nothing |
| `Scenarios.ConnectorDropElsewhereCallsNothing` | src/state/ActionDispatcher.spec.ts:906-927 | dropping a connector on the workspace or on a node calls no handler |

## Left out

- Rendering (Preact components, class names, transforms, `shouldComponentUpdate`): not state logic.
- The Observer pub/sub, DOM ancestry walks, `getAttribute` reads and `IS_MAC`. The resolved target, the connector type, data-width/height and "over the workspace" are fields of the event.
- Wheel `preventDefault`: a DOM side effect.
- The undo/redo stacks of the middleware library: only the reverting-actions table is modelled. Undo round trips are proved on the edge slice. The node reducer is not part of this model, so the node side of DELETE_ITEMS and NODE_DELETE is stated only as the inverse's contents.
- The node, workspace, editor and panel reducers, and the workspace, editor, panel and undo/redo handlers. The dispatcher records calls to them (`HandlerCall`), but their dispatches are not part of this model.
- `readOnlyEventFilter` is not part of this model; it is the parameter `readOnlyFilter`.
- Id generation: `uuid()` is replaced by a caller-supplied id. Nothing checks that it is fresh unless a lemma requires it.
- The consumer's payload (`consumerData`) is opaque; it is a string.
- Key order of `Object.keys` and lodash `filter` is unspecified: methods take keys in any order, and the undo table takes the order as an argument.
- NodeActionDispatcher.HandleNodeDrag: passes the position through unchanged. The clamp that `handleNodeDrag` applies is not modelled because its bounds are not visible; its test replaces `clamp` by a constant.
- NodeActionDispatcher.HandleNodeDrag: a truthy id that is not a node is modelled as a TypeError (no dispatch, `raised` set), by analogy with the other reads of an absent record. Its tests cover only a known node and an absent id.
- NodeActionDispatcher.HandleNodeClick: for an id that is not a node it is modelled like `handleEdgeClick` (WORKSPACE_DESELECT, then a TypeError). The node handlers' source is not part of this model, and their tests do not cover that case.
- The node handlers' tests do not fix the cases below, so the model chooses behaviour by analogy with the edge handlers:
  - `NodeActionDispatcher.ResolveSize` takes the size from the attributes only when both width and height are present.
  - `NodeActionDispatcher.HandlePotentialNodeDrag` throws when there is no potential node.
- ActionDispatcherModel.RouteAccepted: the cases below are not asserted by the tests; the model makes a choice for each.
  - A window resize calls nothing.
  - A workspace drag in READ_ONLY or an unknown mode pans.
  - Delete/Backspace deletes with or without a modifier.
  - Without ctrl, a wheel pans from the workspace position. The test passes one value as both the workspace position and the pointer, so it cannot tell which one is used.
  - A context menu suppresses only the zoom.
  - Drag start on the workspace (marquee), a connector or a potential node, and a potential-node drag, pass the workspace point (P - W.pos) / scale. The tests for these use an unpanned workspace at scale 1, so they cannot tell P from (P - W.pos) / scale. The model applies the frame that the drag tests establish for marquee and connector drags.
  - Drag end on a known node passes the node's stored position and size. The only test has no nodes and asserts that both are absent.
  - Outside the SELECT and COPY modes a drag start or drag end on the workspace calls nothing.
- `handleShowContextMenu` also receives the configuration and the raw event; the model passes the position and the target type.
- The `create*Action` builders other than `CreateDragStartEdgeAction`, `CreateNewNodeAction` and `HandleMoveNodeAction` are plain constructors. They have no contract of their own; the contracts of the handlers and undo lemmas that use them state what they build.
