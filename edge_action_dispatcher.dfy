/** Edge action builders and the edge handlers that read the store and dispatch. */
module EdgeActionDispatcher {
  import opened Types
  import opened StoreModel
  import EdgeReducer

  // ---- action builders ----

  /** EDGE_DRAG_START carries `connectorSrcType` only when a truthy type is given. */
  function CreateDragStartEdgeAction(id: string, position: Position, connectorType: Option<string>): (r: Action)
    ensures r.EdgeDragStart? && r.id == id && r.position == position
    ensures r.connectorSrcType.Some? <==> Truthy(connectorType)
    ensures Truthy(connectorType) ==> r.connectorSrcType == connectorType
  {
    EdgeDragStart(id, position, if Truthy(connectorType) then connectorType else None)
  }

  function CreateDragEndEdgeAction(): Action {
    EdgeDragEnd
  }

  function CreateDragEdgeAction(position: Position): Action {
    EdgeDrag(position)
  }

  /** EDGE_CREATE as the builder makes it: no consumer data. */
  function CreateNewEdgeAction(id: string, src: string, dest: string,
                               srcType: Option<string>, destType: Option<string>): Action
  {
    EdgeCreate(id, src, dest, None, srcType, destType)
  }

  function CreateSelectEdgeAction(id: string): Action {
    EdgeSelect(id)
  }

  function CreateDeselectEdgeAction(id: string): Action {
    EdgeDeselect(id)
  }

  function CreateMouseOverEdgeAction(id: string): Action {
    EdgeMouseOver(id)
  }

  function CreateMouseOutEdgeAction(id: string): Action {
    EdgeMouseOut(id)
  }

  function CreateDeselectAction(): Action {
    WorkspaceDeselect
  }

  // ---- duplicate-free edge creation ----

  /** `e` joins `src` to `dest` through the same two connector types. */
  predicate SameTuple(e: Edge, src: string, dest: string, srcType: Option<string>, destType: Option<string>) {
    e.src == src && e.dest == dest && e.connectorSrcType == srcType && e.connectorDestType == destType
  }

  predicate HasDuplicate(edges: Edges, src: string, dest: string, srcType: Option<string>, destType: Option<string>) {
    exists k :: k in edges && SameTuple(edges[k], src, dest, srcType, destType)
  }

  /** No two edges share a (src, dest, connectorSrcType, connectorDestType) tuple. */
  ghost predicate NoDuplicateTuples(edges: Edges) {
    forall k1, k2 :: k1 in edges && k2 in edges && k1 != k2 ==>
      !SameTuple(edges[k1], edges[k2].src, edges[k2].dest, edges[k2].connectorSrcType, edges[k2].connectorDestType)
  }

  /** Every edge joins two nodes of `nodes`. */
  ghost predicate EndpointsExist(edges: Edges, nodes: Nodes) {
    forall k :: k in edges ==> edges[k].src in nodes && edges[k].dest in nodes
  }

  /** The ids of the edges with the given tuple, as `Object.keys(...).filter(...)`
      computes them; the key order is left open. */
  method DuplicateEdgeIds(edges: Edges, src: string, dest: string,
                          srcType: Option<string>, destType: Option<string>) returns (duplicate: seq<string>)
    ensures NoDuplicates(duplicate)
    ensures forall k :: k in duplicate <==> k in edges && SameTuple(edges[k], src, dest, srcType, destType)
  {
    duplicate := [];
    var pending := edges.Keys;
    while pending != {}
      invariant pending <= edges.Keys
      invariant NoDuplicates(duplicate)
      invariant forall k :: k in duplicate ==> k !in pending
      invariant forall k :: k in duplicate <==>
        k in edges && k !in pending && SameTuple(edges[k], src, dest, srcType, destType)
      decreases pending
    {
      var k :| k in pending;
      if SameTuple(edges[k], src, dest, srcType, destType) {
        duplicate := duplicate + [k];
      }
      pending := pending - {k};
    }
  }

  /** The actions `handleEdgeCreate` dispatches; `freshId` stands for the uuid. */
  function EdgeCreateActions(state: DiagramState, src: Option<string>, dest: Option<string>,
                             srcType: Option<string>, destType: Option<string>, freshId: string): seq<Action>
  {
    if Truthy(src) && Truthy(dest) && src.value in state.nodes && dest.value in state.nodes
       && !HasDuplicate(state.edges, src.value, dest.value, srcType, destType)
    then [CreateNewEdgeAction(freshId, src.value, dest.value, srcType, destType)]
    else []
  }

  method HandleEdgeCreate(store: Store, src: Option<string>, dest: Option<string>,
                          srcType: Option<string>, destType: Option<string>, freshId: string)
    modifies store
    ensures store.log == old(store.log) + EdgeCreateActions(store.state, src, dest, srcType, destType, freshId)
  {
    if Truthy(src) && Truthy(dest) {
      var state := store.state;
      var duplicate := DuplicateEdgeIds(state.edges, src.value, dest.value, srcType, destType);
      assert |duplicate| == 0 <==> !HasDuplicate(state.edges, src.value, dest.value, srcType, destType) by {
        if |duplicate| > 0 {
          assert duplicate[0] in duplicate;
        }
      }
      if src.value in state.nodes && dest.value in state.nodes && |duplicate| == 0 {
        store.Dispatch(CreateNewEdgeAction(freshId, src.value, dest.value, srcType, destType));
      }
    }
  }

  /** Nothing is dispatched when src or dest is missing, is not a node, or an
      edge with the same tuple exists; otherwise exactly one EDGE_CREATE with
      the fresh id and the four given fields. */
  lemma EdgeCreateGuard(state: DiagramState, src: Option<string>, dest: Option<string>,
                        srcType: Option<string>, destType: Option<string>, freshId: string)
    ensures var r := EdgeCreateActions(state, src, dest, srcType, destType, freshId);
      && (!Truthy(src) || !Truthy(dest) ==> r == [])
      && (Truthy(src) && Truthy(dest) && (src.value !in state.nodes || dest.value !in state.nodes) ==> r == [])
      && (Truthy(src) && Truthy(dest) && HasDuplicate(state.edges, src.value, dest.value, srcType, destType) ==> r == [])
      && (r != [] ==> r == [EdgeCreate(freshId, src.value, dest.value, None, srcType, destType)])
      && (Truthy(src) && Truthy(dest) && src.value in state.nodes && dest.value in state.nodes
          && !HasDuplicate(state.edges, src.value, dest.value, srcType, destType) ==>
            r == [EdgeCreate(freshId, src.value, dest.value, None, srcType, destType)])
  {
  }

  /** A second attempt with the identical tuple, made after the first one's
      EDGE_CREATE was reduced, dispatches nothing. */
  lemma EdgeCreateTwiceNoOp(state: DiagramState, src: Option<string>, dest: Option<string>,
                            srcType: Option<string>, destType: Option<string>, freshId: string, otherId: string)
    requires EdgeCreateActions(state, src, dest, srcType, destType, freshId) != []
    ensures var after := EdgeReducer.EdgesAfter(Some(state.edges),
                                                EdgeCreateActions(state, src, dest, srcType, destType, freshId)[0]);
      && after.Ok?
      && EdgeCreateActions(state.(edges := after.value), src, dest, srcType, destType, otherId) == []
  {
    var after := EdgeReducer.EdgesAfter(Some(state.edges),
                                        EdgeCreateActions(state, src, dest, srcType, destType, freshId)[0]);
    assert freshId in after.value && SameTuple(after.value[freshId], src.value, dest.value, srcType, destType);
  }

  /** Creating through `handleEdgeCreate` with an unused id keeps the two
      creation-time invariants: endpoints exist and tuples are unique. */
  lemma EdgeCreatePreservesInvariants(state: DiagramState, src: Option<string>, dest: Option<string>,
                                      srcType: Option<string>, destType: Option<string>, freshId: string)
    requires freshId !in state.edges
    requires NoDuplicateTuples(state.edges) && EndpointsExist(state.edges, state.nodes)
    ensures var acts := EdgeCreateActions(state, src, dest, srcType, destType, freshId);
      var after := EdgeReducer.ReduceAll(state.edges, acts);
      && after.Ok?
      && NoDuplicateTuples(after.value)
      && EndpointsExist(after.value, state.nodes)
  {
    var acts := EdgeCreateActions(state, src, dest, srcType, destType, freshId);
    if acts != [] {
      var a := acts[0];
      assert acts == [a];
      var m' := EdgeReducer.EdgesAfter(Some(state.edges), a).value;
      assert EdgeReducer.ReduceAll(state.edges, acts) == EdgeReducer.ReduceAll(m', []);
      forall k1, k2 | k1 in m' && k2 in m' && k1 != k2
        ensures !SameTuple(m'[k1], m'[k2].src, m'[k2].dest, m'[k2].connectorSrcType, m'[k2].connectorDestType)
      {
        if k1 == freshId {
          assert !SameTuple(state.edges[k2], src.value, dest.value, srcType, destType);
        } else if k2 == freshId {
          assert !SameTuple(state.edges[k1], src.value, dest.value, srcType, destType);
        }
      }
    }
  }

  // ---- click / selection toggle ----

  /** What `handleEdgeClick` dispatches: deselect-all first unless ctrl is held,
      then EDGE_DESELECT if ctrl is held on a selected edge, else EDGE_SELECT.
      Reading the flag of an id that is not an edge throws. */
  function EdgeClickDispatch(state: DiagramState, id: Option<string>, withCtrl: bool): Dispatched {
    if !Truthy(id) then Dispatched([], false)
    else
      var deselect := if withCtrl then [] else [CreateDeselectAction()];
      if id.value !in state.edges then Dispatched(deselect, true)
      else if withCtrl && EdgeSelected(state.edges[id.value]) then
        Dispatched(deselect + [CreateDeselectEdgeAction(id.value)], false)
      else
        Dispatched(deselect + [CreateSelectEdgeAction(id.value)], false)
  }

  method HandleEdgeClick(store: Store, id: Option<string>, withCtrl: bool) returns (raised: bool)
    modifies store
    ensures store.log == old(store.log) + EdgeClickDispatch(store.state, id, withCtrl).actions
    ensures raised == EdgeClickDispatch(store.state, id, withCtrl).raised
  {
    if !Truthy(id) {
      return false;
    }
    if !withCtrl {
      store.Dispatch(CreateDeselectAction());
    }
    if id.value !in store.state.edges {
      return true;
    }
    var edgeSelected := EdgeSelected(store.state.edges[id.value]);
    if withCtrl && edgeSelected {
      store.Dispatch(CreateDeselectEdgeAction(id.value));
    } else {
      store.Dispatch(CreateSelectEdgeAction(id.value));
    }
    raised := false;
  }

  /** The click's outcome by case: no id dispatches nothing; EDGE_DESELECT only
      for ctrl on a selected edge; a plain click always ends in EDGE_SELECT,
      after WORKSPACE_DESELECT. */
  lemma EdgeClickCases(state: DiagramState, id: Option<string>, withCtrl: bool)
    ensures var r := EdgeClickDispatch(state, id, withCtrl);
      && (!Truthy(id) ==> r.actions == [] && !r.raised)
      && (Truthy(id) && !withCtrl ==> |r.actions| > 0 && r.actions[0] == WorkspaceDeselect)
      && (r.raised <==> Truthy(id) && id.value !in state.edges)
      && (Truthy(id) && id.value in state.edges && !withCtrl ==>
            r.actions == [WorkspaceDeselect, EdgeSelect(id.value)])
      && (Truthy(id) && id.value in state.edges && withCtrl ==>
            r.actions == [if EdgeSelected(state.edges[id.value]) then EdgeDeselect(id.value) else EdgeSelect(id.value)])
  {
  }

  /** The source rereads the store after WORKSPACE_DESELECT; reading the
      snapshot taken before it yields the same dispatches. */
  lemma EdgeClickRereadAgrees(state: DiagramState, id: Option<string>)
    ensures var after := EdgeReducer.EdgesAfter(Some(state.edges), WorkspaceDeselect);
      && after.Ok?
      && EdgeClickDispatch(state.(edges := after.value), id, false) == EdgeClickDispatch(state, id, false)
  {
  }

  /** Reducing a plain click's actions leaves exactly the clicked edge selected. */
  lemma PlainClickSelectsOnlyTarget(state: DiagramState, id: string)
    requires id != "" && id in state.edges
    ensures var r := EdgeReducer.ReduceAll(state.edges, EdgeClickDispatch(state, Some(id), false).actions);
      && r.Ok?
      && r.value.Keys == state.edges.Keys
      && forall k :: k in r.value ==> (EdgeSelected(r.value[k]) <==> k == id)
  {
    var acts := EdgeClickDispatch(state, Some(id), false).actions;
    assert acts == [WorkspaceDeselect, EdgeSelect(id)];
    var m1 := EdgeReducer.DeselectAll(state.edges);
    var m2 := m1[id := EdgeReducer.WithSelected(m1[id], true)];
    assert EdgeReducer.ReduceAll(state.edges, acts) == EdgeReducer.ReduceAll(m1, [EdgeSelect(id)]);
    assert EdgeReducer.ReduceAll(m1, [EdgeSelect(id)]) == EdgeReducer.ReduceAll(m2, []);
  }

  // ---- drag, hover ----

  method HandleEdgeDragStart(store: Store, id: Option<string>, position: Position, connectorType: Option<string>)
    modifies store
    ensures Truthy(id) ==> store.log == old(store.log) + [CreateDragStartEdgeAction(id.value, position, connectorType)]
    ensures !Truthy(id) ==> store.log == old(store.log)
  {
    if Truthy(id) {
      if Truthy(connectorType) {
        store.Dispatch(CreateDragStartEdgeAction(id.value, position, connectorType));
      } else {
        store.Dispatch(CreateDragStartEdgeAction(id.value, position, None));
      }
    }
  }

  method HandleEdgeDragEnd(store: Store, id: Option<string>)
    modifies store
    ensures store.log == old(store.log) + (if Truthy(id) then [EdgeDragEnd] else [])
  {
    if Truthy(id) {
      store.Dispatch(CreateDragEndEdgeAction());
    }
  }

  method HandleEdgeDrag(store: Store, position: Position)
    modifies store
    ensures store.log == old(store.log) + [EdgeDrag(position)]
  {
    store.Dispatch(CreateDragEdgeAction(position));
  }

  method HandleEdgeMouseOver(store: Store, id: Option<string>)
    modifies store
    ensures store.log == old(store.log) + (if Truthy(id) then [EdgeMouseOver(id.value)] else [])
  {
    if Truthy(id) {
      store.Dispatch(CreateMouseOverEdgeAction(id.value));
    }
  }

  method HandleEdgeMouseOut(store: Store, id: Option<string>)
    modifies store
    ensures store.log == old(store.log) + (if Truthy(id) then [EdgeMouseOut(id.value)] else [])
  {
    if Truthy(id) {
      store.Dispatch(CreateMouseOutEdgeAction(id.value));
    }
  }
}
