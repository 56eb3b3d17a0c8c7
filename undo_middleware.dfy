/** The reverting-actions table of the undo middleware: for each undoable
    action, the snapshot taken from the state before it runs and the inverse
    action built from that snapshot and the action's payload. */
module UndoMiddleware {
  import opened Types
  import EdgeReducer
  import GlobalActionDispatcher

  /** What `createArgs` captured when the action was dispatched. */
  datatype UndoArgs =
    | NoArgs
    | NodeArgs(node: Option<Node>)
    | ItemsArgs(nodes: seq<Node>, edges: seq<Edge>)
    | DragEndArgs(node: Option<Node>, state: DiagramState)

  /** The inverse of an action, or that none is registered, or that building
      the inverse reads a property of an absent node and throws. */
  datatype Reverting = NotUndoable | Reverts(inverse: Action) | RaisesTypeError

  /** The action types the table lists. */
  predicate IsUndoable(a: Action) {
    a.EdgeCreate? || a.NodeCreate? || a.NodeDelete? || a.DeleteItems? || a.NodeDragEnd?
  }

  /** The values of `m`, in key order `order`, whose own id is listed in `ids`
      (lodash `filter` over an object). */
  function FilterById<T>(m: map<string, T>, order: seq<string>, idOf: T -> string, ids: seq<string>): (r: seq<T>)
    ensures |r| <= |order|
  {
    if order == [] then []
    else
      (if order[0] in m && idOf(m[order[0]]) in ids then [m[order[0]]] else [])
      + FilterById(m, order[1..], idOf, ids)
  }

  function EdgeId(e: Edge): string { e.id }
  function NodeId(n: Node): string { n.id }

  function Lookup(m: Nodes, id: string): Option<Node> {
    if id in m then Some(m[id]) else None
  }

  /** `createArgs`: the part of the pre-action state each inverse needs. */
  function CreateArgs(state: DiagramState, action: Action, edgeOrder: seq<string>, nodeOrder: seq<string>): UndoArgs
    requires IsKeyOrder(edgeOrder, state.edges) && IsKeyOrder(nodeOrder, state.nodes)
  {
    match action
    case NodeDelete(id) => NodeArgs(Lookup(state.nodes, id))
    case DeleteItems(nodeIds, edgeIds) =>
      ItemsArgs(FilterById(state.nodes, nodeOrder, NodeId, nodeIds),
                FilterById(state.edges, edgeOrder, EdgeId, edgeIds))
    case NodeDragEnd(id, _, _) => DragEndArgs(Lookup(state.nodes, id), state)
    case _ => NoArgs
  }

  /** The table's `action` entries: the inverse from the payload and the captured args. */
  function Invert(action: Action, args: UndoArgs): Reverting {
    match action
    case EdgeCreate(id, _, _, _, _, _) => Reverts(GlobalActionDispatcher.CreateDeleteItemsAction([], [id]))
    case NodeCreate(id, _, _, _, _) => Reverts(GlobalActionDispatcher.CreateDeleteItemsAction([id], []))
    case NodeDelete(_) =>
      (match args
       case NodeArgs(Some(n)) => Reverts(GlobalActionDispatcher.CreateNewNodeAction(n))
       case _ => RaisesTypeError)
    case DeleteItems(_, _) =>
      (match args
       case ItemsArgs(ns, es) => Reverts(GlobalActionDispatcher.CreateNewItemsAction(ns, es))
       case _ => RaisesTypeError)
    case NodeDragEnd(_, _, _) =>
      (match args
       case DragEndArgs(Some(n), s) => Reverts(GlobalActionDispatcher.HandleMoveNodeAction(n, s))
       case _ => RaisesTypeError)
    case _ => NotUndoable
  }

  /** The inverse the middleware records for `action` dispatched in `state`. */
  function RevertingAction(state: DiagramState, action: Action, edgeOrder: seq<string>, nodeOrder: seq<string>): Reverting
    requires IsKeyOrder(edgeOrder, state.edges) && IsKeyOrder(nodeOrder, state.nodes)
  {
    Invert(action, CreateArgs(state, action, edgeOrder, nodeOrder))
  }

  // ---- the table, entry by entry ----

  /** Exactly the five listed action types have an entry. */
  lemma UnlistedHaveNoInverse(state: DiagramState, action: Action, edgeOrder: seq<string>, nodeOrder: seq<string>)
    requires IsKeyOrder(edgeOrder, state.edges) && IsKeyOrder(nodeOrder, state.nodes)
    ensures RevertingAction(state, action, edgeOrder, nodeOrder).NotUndoable? <==> !IsUndoable(action)
  {
  }

  lemma EdgeCreateInverse(state: DiagramState, action: Action, edgeOrder: seq<string>, nodeOrder: seq<string>)
    requires IsKeyOrder(edgeOrder, state.edges) && IsKeyOrder(nodeOrder, state.nodes)
    requires action.EdgeCreate?
    ensures RevertingAction(state, action, edgeOrder, nodeOrder) == Reverts(DeleteItems([], [action.id]))
  {
  }

  lemma NodeCreateInverse(state: DiagramState, action: Action, edgeOrder: seq<string>, nodeOrder: seq<string>)
    requires IsKeyOrder(edgeOrder, state.edges) && IsKeyOrder(nodeOrder, state.nodes)
    requires action.NodeCreate?
    ensures RevertingAction(state, action, edgeOrder, nodeOrder) == Reverts(DeleteItems([action.id], []))
  {
  }

  /** NODE_DELETE is undone by recreating the node record captured before the
      delete; a delete of an absent node leaves nothing to rebuild from. */
  lemma NodeDeleteInverse(state: DiagramState, id: string, edgeOrder: seq<string>, nodeOrder: seq<string>)
    requires IsKeyOrder(edgeOrder, state.edges) && IsKeyOrder(nodeOrder, state.nodes)
    ensures var r := RevertingAction(state, NodeDelete(id), edgeOrder, nodeOrder);
      && (id !in state.nodes <==> r.RaisesTypeError?)
      && (id in state.nodes ==>
            var n := state.nodes[id];
            && r.Reverts? && r.inverse.NodeCreate?
            && r.inverse.id == n.id
            && r.inverse.position == n.diagramMakerData.position
            && r.inverse.size == n.diagramMakerData.size
            && r.inverse.consumerData == n.consumerData
            && r.inverse.typeId == (if Truthy(n.typeId) then n.typeId.value else "")
            && r == Reverts(GlobalActionDispatcher.CreateNewNodeAction(n)))
  {
  }

  /** NODE_DRAG_END is undone by a NODE_DRAG of the pre-action node back to its
      drag-start position (its position when none is recorded). */
  lemma NodeDragEndInverse(state: DiagramState, id: string, endPosition: Option<Position>, endSize: Option<Size>,
                           edgeOrder: seq<string>, nodeOrder: seq<string>)
    requires IsKeyOrder(edgeOrder, state.edges) && IsKeyOrder(nodeOrder, state.nodes)
    ensures var r := RevertingAction(state, NodeDragEnd(id, endPosition, endSize), edgeOrder, nodeOrder);
      && (id !in state.nodes <==> r.RaisesTypeError?)
      && (id in state.nodes ==>
            var d := state.nodes[id].diagramMakerData;
            && r.Reverts? && r.inverse.NodeDrag?
            && r.inverse.id == state.nodes[id].id
            && r.inverse.size == d.size
            && r.inverse.position == (if d.startDragPosition.Some? then d.startDragPosition.value else d.position)
            && r.inverse.workspaceRectangle == Rectangle(Position(0.0, 0.0), state.workspace.canvasSize))
  {
  }

  /** The filter keeps exactly the values whose id is listed. */
  lemma {:induction false} FilterByIdContents<T>(m: map<string, T>, order: seq<string>, idOf: T -> string,
                                                 ids: seq<string>, v: T)
    ensures v in FilterById(m, order, idOf, ids) <==>
              exists k :: k in order && k in m && m[k] == v && idOf(v) in ids
    decreases |order|
  {
    if order != [] {
      FilterByIdContents(m, order[1..], idOf, ids, v);
      assert forall k :: k in order <==> k == order[0] || k in order[1..];
    }
  }

  /** DELETE_ITEMS is undone by CREATE_ITEMS holding exactly the pre-delete
      edges and nodes whose ids are listed. */
  lemma DeleteItemsInverse(state: DiagramState, nodeIds: seq<string>, edgeIds: seq<string>,
                           edgeOrder: seq<string>, nodeOrder: seq<string>)
    requires IsKeyOrder(edgeOrder, state.edges) && IsKeyOrder(nodeOrder, state.nodes)
    ensures var r := RevertingAction(state, DeleteItems(nodeIds, edgeIds), edgeOrder, nodeOrder);
      && r.Reverts? && r.inverse.CreateItems?
      && (forall e :: e in r.inverse.edges <==> exists k :: k in state.edges && state.edges[k] == e && e.id in edgeIds)
      && (forall n :: n in r.inverse.nodes <==> exists k :: k in state.nodes && state.nodes[k] == n && n.id in nodeIds)
  {
    var r := RevertingAction(state, DeleteItems(nodeIds, edgeIds), edgeOrder, nodeOrder);
    forall e ensures e in r.inverse.edges <==> exists k :: k in state.edges && state.edges[k] == e && e.id in edgeIds {
      FilterByIdContents(state.edges, edgeOrder, EdgeId, edgeIds, e);
    }
    forall n ensures n in r.inverse.nodes <==> exists k :: k in state.nodes && state.nodes[k] == n && n.id in nodeIds {
      FilterByIdContents(state.nodes, nodeOrder, NodeId, nodeIds, n);
    }
  }

  // ---- round trips through the edge reducer ----

  /** EDGE_CREATE with an unused id, then its inverse, gives back the edge map. */
  lemma EdgeCreateRoundTrip(state: DiagramState, action: Action, edgeOrder: seq<string>, nodeOrder: seq<string>)
    requires IsKeyOrder(edgeOrder, state.edges) && IsKeyOrder(nodeOrder, state.nodes)
    requires action.EdgeCreate? && action.id !in state.edges
    ensures var r := RevertingAction(state, action, edgeOrder, nodeOrder);
      r.Reverts? && EdgeReducer.ReduceAll(state.edges, [action, r.inverse]) == Ok(state.edges)
  {
    var inverse := DeleteItems([], [action.id]);
    var m1 := EdgeReducer.EdgesAfter(Some(state.edges), action).value;
    var m2 := EdgeReducer.EdgesAfter(Some(m1), inverse).value;
    assert m2 == state.edges;
    assert [action, inverse][1..] == [inverse];
    assert EdgeReducer.ReduceAll(m1, [inverse]) == EdgeReducer.ReduceAll(m2, []);
  }

  /** Upserting exactly the removed records back into what DELETE_ITEMS left
      restores the map, when every record is stored under its own id. */
  lemma {:induction false} ReinsertRestores(m: Edges, ids: seq<string>, es: seq<Edge>)
    requires EdgesKeyed(m)
    requires forall e :: e in es <==> exists k :: k in m && m[k] == e && e.id in ids
    ensures EdgeReducer.Upsert(EdgeReducer.RemoveAll(m, ids), es) == m
  {
    var removed := EdgeReducer.RemoveAll(m, ids);
    var restored := EdgeReducer.Upsert(removed, es);
    forall e | e in es ensures e.id in m && m[e.id] == e {
      var k :| k in m && m[k] == e && e.id in ids;
    }
    EdgeReducer.UpsertAgrees(removed, es, m);
    forall k | k in m && k in ids ensures k in EdgeReducer.IdsOf(es) {
      assert m[k].id == k;
      assert m[k] in es;
    }
    assert restored.Keys == m.Keys;
    forall k | k in m ensures restored[k] == m[k] {
      if k !in EdgeReducer.IdsOf(es) {
        assert k in removed;
      }
    }
  }

  /** DELETE_ITEMS, then its inverse, gives back the edge map when every edge
      is stored under its own id. */
  lemma DeleteItemsRoundTrip(state: DiagramState, nodeIds: seq<string>, edgeIds: seq<string>,
                             edgeOrder: seq<string>, nodeOrder: seq<string>)
    requires IsKeyOrder(edgeOrder, state.edges) && IsKeyOrder(nodeOrder, state.nodes)
    requires EdgesKeyed(state.edges)
    ensures var action := DeleteItems(nodeIds, edgeIds);
      var r := RevertingAction(state, action, edgeOrder, nodeOrder);
      r.Reverts? && EdgeReducer.ReduceAll(state.edges, [action, r.inverse]) == Ok(state.edges)
  {
    var m := state.edges;
    var action := DeleteItems(nodeIds, edgeIds);
    var inverse := RevertingAction(state, action, edgeOrder, nodeOrder).inverse;
    DeleteItemsInverse(state, nodeIds, edgeIds, edgeOrder, nodeOrder);
    ReinsertRestores(m, edgeIds, inverse.edges);
    var removed := EdgeReducer.RemoveAll(m, edgeIds);
    assert [action, inverse][1..] == [inverse];
    assert EdgeReducer.ReduceAll(removed, [inverse]) == EdgeReducer.ReduceAll(m, []);
  }

  /** NODE_CREATE's inverse removes no edge. */
  lemma NodeCreateInverseKeepsEdges(m: Edges, id: string)
    ensures EdgeReducer.EdgesAfter(Some(m), DeleteItems([id], [])) == Ok(m)
  {
    var r := EdgeReducer.RemoveAll(m, []);
    assert r.Keys == m.Keys;
    assert r == m;
  }
}
