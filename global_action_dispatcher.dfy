/** Builders of the cross-slice actions, and deletion of the current selection. */
module GlobalActionDispatcher {
  import opened Types
  import opened StoreModel
  import EdgeReducer

  function CreateDeleteItemsAction(nodeIds: seq<string>, edgeIds: seq<string>): Action {
    DeleteItems(nodeIds, edgeIds)
  }

  function CreateNewItemsAction(nodes: seq<Node>, edges: seq<Edge>): Action {
    CreateItems(nodes, edges)
  }

  /** NODE_CREATE rebuilt from a node record; a missing or empty type id becomes "". */
  function CreateNewNodeAction(node: Node): (r: Action)
    ensures r.NodeCreate? && r.id == node.id && r.consumerData == node.consumerData
    ensures r.position == node.diagramMakerData.position && r.size == node.diagramMakerData.size
    ensures Truthy(node.typeId) ==> r.typeId == node.typeId.value
    ensures !Truthy(node.typeId) ==> r.typeId == ""
  {
    NodeCreate(node.id, if Truthy(node.typeId) then node.typeId.value else "",
               node.diagramMakerData.position, node.diagramMakerData.size, node.consumerData)
  }

  /** NODE_DRAG back to where the node's drag started (its position if no drag
      start was recorded), bounded by a canvas-sized rectangle at the origin. */
  function HandleMoveNodeAction(node: Node, state: DiagramState): (r: Action)
    ensures r.NodeDrag? && r.id == node.id && r.size == node.diagramMakerData.size
    ensures r.position == if node.diagramMakerData.startDragPosition.Some?
                          then node.diagramMakerData.startDragPosition.value
                          else node.diagramMakerData.position
    ensures r.workspaceRectangle.position == Position(0.0, 0.0)
    ensures r.workspaceRectangle.size == state.workspace.canvasSize
  {
    var data := node.diagramMakerData;
    NodeDrag(node.id,
             match data.startDragPosition case Some(p) => p case None => data.position,
             data.size,
             Rectangle(Position(0.0, 0.0), state.workspace.canvasSize))
  }

  // ---- deleting the selection ----

  /** The edges that go with the selection: selected ones, and those touching a deleted node. */
  predicate DeletedWithSelection(e: Edge, nodeIds: seq<string>) {
    EdgeSelected(e) || e.src in nodeIds || e.dest in nodeIds
  }

  /** `a` is the DELETE_ITEMS that removes exactly the selected nodes and the
      edges that go with them, each id once, in any key order. */
  ghost predicate DeletesSelection(state: DiagramState, a: Action) {
    && a.DeleteItems?
    && NoDuplicates(a.nodeIds) && NoDuplicates(a.edgeIds)
    && (forall k :: k in a.nodeIds <==> k in state.nodes && NodeSelected(state.nodes[k]))
    && (forall k :: k in a.edgeIds <==> k in state.edges && DeletedWithSelection(state.edges[k], a.nodeIds))
  }

  method SelectedNodeIds(nodes: Nodes) returns (ids: seq<string>)
    ensures NoDuplicates(ids)
    ensures forall k :: k in ids <==> k in nodes && NodeSelected(nodes[k])
  {
    ids := [];
    var pending := nodes.Keys;
    while pending != {}
      invariant pending <= nodes.Keys
      invariant NoDuplicates(ids)
      invariant forall k :: k in ids ==> k !in pending
      invariant forall k :: k in ids <==> k in nodes && k !in pending && NodeSelected(nodes[k])
      decreases pending
    {
      var k :| k in pending;
      if NodeSelected(nodes[k]) {
        ids := ids + [k];
      }
      pending := pending - {k};
    }
  }

  method EdgeIdsToDelete(edges: Edges, nodeIds: seq<string>) returns (ids: seq<string>)
    ensures NoDuplicates(ids)
    ensures forall k :: k in ids <==> k in edges && DeletedWithSelection(edges[k], nodeIds)
  {
    ids := [];
    var pending := edges.Keys;
    while pending != {}
      invariant pending <= edges.Keys
      invariant NoDuplicates(ids)
      invariant forall k :: k in ids ==> k !in pending
      invariant forall k :: k in ids <==> k in edges && k !in pending && DeletedWithSelection(edges[k], nodeIds)
      decreases pending
    {
      var k :| k in pending;
      if DeletedWithSelection(edges[k], nodeIds) {
        ids := ids + [k];
      }
      pending := pending - {k};
    }
  }

  /** Dispatches one DELETE_ITEMS for the current selection. */
  method HandleDeleteSelectedItems(store: Store)
    modifies store
    ensures |store.log| == |old(store.log)| + 1 && store.log[..|old(store.log)|] == old(store.log)
    ensures DeletesSelection(store.state, store.log[|store.log| - 1])
  {
    var state := store.state;
    var nodeIds := SelectedNodeIds(state.nodes);
    var edgeIds := EdgeIdsToDelete(state.edges, nodeIds);
    store.Dispatch(CreateDeleteItemsAction(nodeIds, edgeIds));
  }

  /** After the deletion no remaining edge is selected or touches a deleted
      node; so if every edge joined two nodes before, every remaining edge joins
      two remaining nodes. */
  lemma DeleteSelectionLeavesNoDanglingEdge(state: DiagramState, a: Action)
    requires DeletesSelection(state, a)
    requires forall k :: k in state.edges ==> state.edges[k].src in state.nodes && state.edges[k].dest in state.nodes
    ensures var r := EdgeReducer.EdgesAfter(Some(state.edges), a);
      var remainingNodes := state.nodes - (set k | k in a.nodeIds);
      && r.Ok?
      && forall k :: k in r.value ==>
           && !EdgeSelected(r.value[k])
           && r.value[k].src in remainingNodes && r.value[k].dest in remainingNodes
  {
  }

  /** The deletion removes every selected edge and every selected node id. */
  lemma DeleteSelectionCoversSelection(state: DiagramState, a: Action)
    requires DeletesSelection(state, a)
    ensures forall k :: k in state.nodes && NodeSelected(state.nodes[k]) ==> k in a.nodeIds
    ensures forall k :: k in state.edges && EdgeSelected(state.edges[k]) ==>
              k !in EdgeReducer.EdgesAfter(Some(state.edges), a).value
  {
  }
}
