/** End-to-end properties: an event routed through the dispatcher, the
    handler's dispatches reduced, and the recorded inverse applied. */
module Scenarios {
  import opened Types
  import EdgeReducer
  import EdgeActionDispatcher
  import UndoMiddleware
  import opened ActionDispatcherModel

  function PlainNode(id: string, position: Position): Node {
    Node(id, Some("type"), None, NodeData(position, Size(100.0, 50.0), None, None))
  }

  /** Two nodes, no edges, edit mode, an unpanned and unzoomed workspace. */
  function TwoNodes(): DiagramState {
    DiagramState(map["n1" := PlainNode("n1", Position(0.0, 0.0)), "n2" := PlainNode("n2", Position(300.0, 0.0))],
                 map[], None,
                 Workspace(Position(0.0, 0.0), 1.0, Size(1200.0, 800.0), Size(1000.0, 600.0)),
                 Editor(DragMode, None))
  }

  function ConnectorDrop(src: string, dest: string): Event {
    Drop(Target(Some(src), ConnectorTarget), Some(Target(Some(dest), ConnectorTarget)))
  }

  /** Dropping n1's connector on n2's connector creates exactly one edge,
      from n1 to n2 under the fresh id; undoing it leaves no edge. */
  lemma ConnectorDropCreatesOneEdgeAndUndoRemovesIt(uuid: string, f: Event -> bool, sizeForType: string -> Option<Size>)
    ensures var s := TwoNodes();
      var call := Route(ConnectorDrop("n1", "n2"), s, f);
      && call == Some(HandleEdgeCreate(Some("n1"), Some("n2")))
      && Effect(s, call.value, uuid, sizeForType) == Dispatched([EdgeCreate(uuid, "n1", "n2", None, None, None)], false)
    ensures var s := TwoNodes();
      var create := EdgeCreate(uuid, "n1", "n2", None, None, None);
      var created := EdgeReducer.ReduceAll(s.edges, [create]);
      var undo := UndoMiddleware.RevertingAction(s, create, [], ["n1", "n2"]);
      && created.Ok? && created.value.Keys == {uuid}
      && created.value[uuid].src == "n1" && created.value[uuid].dest == "n2"
      && undo.Reverts?
      && EdgeReducer.ReduceAll(created.value, [undo.inverse]) == Ok(map[])
  {
    var s := TwoNodes();
    assert !EdgeActionDispatcher.HasDuplicate(s.edges, "n1", "n2", None, None);
    var create := EdgeCreate(uuid, "n1", "n2", None, None, None);
    assert IsKeyOrder(["n1", "n2"], s.nodes);
    UndoMiddleware.EdgeCreateRoundTrip(s, create, [], ["n1", "n2"]);
    var m1 := EdgeReducer.EdgesAfter(Some(s.edges), create).value;
    assert EdgeReducer.ReduceAll(s.edges, [create]) == EdgeReducer.ReduceAll(m1, []);
    var inverse := DeleteItems([], [uuid]);
    assert EdgeReducer.ReduceAll(s.edges, [create, inverse]) == EdgeReducer.ReduceAll(m1, [inverse]);
  }

  /** Dropping the same connector pair again, once the edge exists, creates nothing. */
  lemma RepeatedConnectorDropCreatesNothing(uuid: string, otherUuid: string, f: Event -> bool,
                                           sizeForType: string -> Option<Size>)
    ensures var s := TwoNodes();
      var after := EdgeReducer.EdgesAfter(Some(s.edges), EdgeCreate(uuid, "n1", "n2", None, None, None));
      var s' := s.(edges := after.value);
      var call := Route(ConnectorDrop("n1", "n2"), s', f);
      && call.Some?
      && Effect(s', call.value, otherUuid, sizeForType).actions == []
  {
    var s := TwoNodes();
    assert EdgeActionDispatcher.EdgeCreateActions(s, Some("n1"), Some("n2"), None, None, uuid)
      == [EdgeCreate(uuid, "n1", "n2", None, None, None)];
    EdgeActionDispatcher.EdgeCreateTwiceNoOp(s, Some("n1"), Some("n2"), None, None, uuid, otherUuid);
  }

  /** Dropping a connector on the workspace, or on a node, calls nothing. */
  lemma ConnectorDropElsewhereCallsNothing(f: Event -> bool)
    ensures Route(Drop(Target(Some("n1"), ConnectorTarget), Some(Target(None, WorkspaceTarget))), TwoNodes(), f) == None
    ensures Route(Drop(Target(Some("n1"), ConnectorTarget), Some(Target(Some("n2"), NodeTarget))), TwoNodes(), f) == None
  {
  }
}
