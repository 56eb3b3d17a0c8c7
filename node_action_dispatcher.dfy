/** The node handlers, as their tests pin them down: what each reads from the
    store and what it dispatches, in order. */
module NodeActionDispatcher {
  import opened Types
  import opened StoreModel

  const NodeIdPrefix: string := "dm-node-"

  /** What a click on a node dispatches: deselect-all first unless ctrl is
      held, then NODE_DESELECT for ctrl on a selected node, else NODE_SELECT.
      Reading the flag of an id that is not a node throws. */
  function NodeClickDispatch(state: DiagramState, id: Option<string>, withCtrl: bool): Dispatched {
    if !Truthy(id) then Dispatched([], false)
    else
      var deselect := if withCtrl then [] else [WorkspaceDeselect];
      if id.value !in state.nodes then Dispatched(deselect, true)
      else if withCtrl && NodeSelected(state.nodes[id.value]) then Dispatched(deselect + [NodeDeselect(id.value)], false)
      else Dispatched(deselect + [NodeSelect(id.value)], false)
  }

  method HandleNodeClick(store: Store, id: Option<string>, withCtrl: bool) returns (raised: bool)
    modifies store
    ensures store.log == old(store.log) + NodeClickDispatch(store.state, id, withCtrl).actions
    ensures raised == NodeClickDispatch(store.state, id, withCtrl).raised
  {
    if !Truthy(id) {
      return false;
    }
    if !withCtrl {
      store.Dispatch(WorkspaceDeselect);
    }
    if id.value !in store.state.nodes {
      return true;
    }
    if withCtrl && NodeSelected(store.state.nodes[id.value]) {
      store.Dispatch(NodeDeselect(id.value));
    } else {
      store.Dispatch(NodeSelect(id.value));
    }
    raised := false;
  }

  /** No id: nothing. Plain click on a node: WORKSPACE_DESELECT, then
      NODE_SELECT (also when it is already selected). Ctrl on a selected node:
      only NODE_DESELECT; ctrl on an unselected node: only NODE_SELECT. */
  lemma NodeClickCases(state: DiagramState, id: Option<string>, withCtrl: bool)
    ensures var r := NodeClickDispatch(state, id, withCtrl);
      && (!Truthy(id) ==> r.actions == [] && !r.raised)
      && (r.raised <==> Truthy(id) && id.value !in state.nodes)
      && (WorkspaceDeselect in r.actions <==> Truthy(id) && !withCtrl)
      && (Truthy(id) && id.value in state.nodes && !withCtrl ==>
            r.actions == [WorkspaceDeselect, NodeSelect(id.value)])
      && (Truthy(id) && id.value in state.nodes && withCtrl && NodeSelected(state.nodes[id.value]) ==>
            r.actions == [NodeDeselect(id.value)])
      && (Truthy(id) && id.value in state.nodes && withCtrl && !NodeSelected(state.nodes[id.value]) ==>
            r.actions == [NodeSelect(id.value)])
  {
  }

  /** NODE_CREATE from the potential node, under id "dm-node-" + uuid. */
  function NodeCreateActions(state: DiagramState, typeId: Option<string>, uuid: string): seq<Action> {
    if Truthy(typeId) && state.potentialNode.Some? then
      [NodeCreate(NodeIdPrefix + uuid, typeId.value, state.potentialNode.value.position,
                  state.potentialNode.value.size, None)]
    else []
  }

  method HandleNodeCreate(store: Store, typeId: Option<string>, uuid: string)
    modifies store
    ensures store.log == old(store.log) + NodeCreateActions(store.state, typeId, uuid)
  {
    if Truthy(typeId) {
      var potentialNode := store.state.potentialNode;
      if potentialNode.Some? {
        store.Dispatch(NodeCreate(NodeIdPrefix + uuid, typeId.value, potentialNode.value.position,
                                  potentialNode.value.size, None));
      }
    }
  }

  /** A node is created only with a type id and a potential node; it takes
      the preview's position and size, and distinct uuids give distinct ids. */
  lemma NodeCreateFromPotentialNode(state: DiagramState, typeId: Option<string>, uuid: string, otherUuid: string)
    ensures var r := NodeCreateActions(state, typeId, uuid);
      && (r != [] <==> Truthy(typeId) && state.potentialNode.Some?)
      && (r != [] ==>
            && |r| == 1 && r[0].NodeCreate?
            && r[0].id[..|NodeIdPrefix|] == NodeIdPrefix
            && r[0].typeId == typeId.value
            && r[0].position == state.potentialNode.value.position
            && r[0].size == state.potentialNode.value.size)
    ensures var r := NodeCreateActions(state, typeId, uuid);
      var r' := NodeCreateActions(state, typeId, otherUuid);
      r != [] && uuid != otherUuid ==> r[0].id != r'[0].id
  {
    var r := NodeCreateActions(state, typeId, uuid);
    var r' := NodeCreateActions(state, typeId, otherUuid);
    if r != [] && uuid != otherUuid {
      assert r[0].id[|NodeIdPrefix|..] == uuid;
      assert r'[0].id[|NodeIdPrefix|..] == otherUuid;
    }
  }

  method HandleNodeDragStart(store: Store, id: Option<string>)
    modifies store
    ensures store.log == old(store.log) + (if Truthy(id) then [NodeDragStart(id.value)] else [])
  {
    if Truthy(id) {
      store.Dispatch(NodeDragStart(id.value));
    }
  }

  method HandleNodeDragEnd(store: Store, id: Option<string>, position: Option<Position>, size: Option<Size>)
    modifies store
    ensures store.log == old(store.log) + (if Truthy(id) then [NodeDragEnd(id.value, position, size)] else [])
  {
    if Truthy(id) {
      store.Dispatch(NodeDragEnd(id.value, position, size));
    }
  }

  /** The rectangle a drag is bounded by: the canvas, anchored at the origin. */
  function CanvasRectangle(state: DiagramState): Rectangle {
    Rectangle(Position(0.0, 0.0), state.workspace.canvasSize)
  }

  /** NODE_DRAG with the node's own size and the canvas rectangle; reading
      the size of an absent node throws. */
  function NodeDragDispatch(state: DiagramState, id: Option<string>, position: Position): Dispatched {
    if !Truthy(id) then Dispatched([], false)
    else if id.value !in state.nodes then Dispatched([], true)
    else Dispatched([NodeDrag(id.value, position, state.nodes[id.value].diagramMakerData.size, CanvasRectangle(state))], false)
  }

  method HandleNodeDrag(store: Store, id: Option<string>, position: Position) returns (raised: bool)
    modifies store
    ensures store.log == old(store.log) + NodeDragDispatch(store.state, id, position).actions
    ensures raised == NodeDragDispatch(store.state, id, position).raised
  {
    raised := false;
    if Truthy(id) {
      if id.value !in store.state.nodes {
        return true;
      }
      var node := store.state.nodes[id.value];
      store.Dispatch(NodeDrag(id.value, position, node.diagramMakerData.size, CanvasRectangle(store.state)));
    }
  }

  lemma NodeDragKeepsSize(state: DiagramState, id: Option<string>, position: Position)
    ensures var r := NodeDragDispatch(state, id, position);
      && (!Truthy(id) ==> r.actions == [] && !r.raised)
      && (Truthy(id) && id.value in state.nodes ==>
            && r.actions == [NodeDrag(id.value, position, state.nodes[id.value].diagramMakerData.size, r.actions[0].workspaceRectangle)]
            && r.actions[0].workspaceRectangle.position == Position(0.0, 0.0)
            && r.actions[0].workspaceRectangle.size == state.workspace.canvasSize)
  {
  }

  /** The top-left corner that centres a box of size `s` on `p`. */
  function CentredAt(p: Position, s: Size): (r: Position)
    ensures r.x + s.width / 2.0 == p.x && r.y + s.height / 2.0 == p.y
  {
    Position(p.x - s.width / 2.0, p.y - s.height / 2.0)
  }

  /** The preview size: the element's data-width and data-height when both
      are present, otherwise the consumer's size for the type. */
  function ResolveSize(attributes: Attributes, typeId: string, sizeForType: string -> Option<Size>): (r: Option<Size>)
    ensures attributes.width.Some? && attributes.height.Some? ==>
              r == Some(Size(attributes.width.value, attributes.height.value))
    ensures !(attributes.width.Some? && attributes.height.Some?) ==> r == sizeForType(typeId)
  {
    if attributes.width.Some? && attributes.height.Some? then
      Some(Size(attributes.width.value, attributes.height.value))
    else sizeForType(typeId)
  }

  function PotentialNodeDragStartActions(target: Target, attributes: Attributes,
                                         sizeForType: string -> Option<Size>, position: Position): seq<Action>
  {
    if !Truthy(target.id) then []
    else
      match ResolveSize(attributes, target.id.value, sizeForType)
      case None => []
      case Some(size) => [PotentialNodeDragStart(target.id.value, CentredAt(position, size), size)]
  }

  method HandlePotentialNodeDragStart(store: Store, sizeForType: string -> Option<Size>, target: Target,
                                      attributes: Attributes, position: Position)
    modifies store
    ensures store.log == old(store.log) + PotentialNodeDragStartActions(target, attributes, sizeForType, position)
  {
    if Truthy(target.id) {
      var size := ResolveSize(attributes, target.id.value, sizeForType);
      if size.Some? {
        store.Dispatch(PotentialNodeDragStart(target.id.value, CentredAt(position, size.value), size.value));
      }
    }
  }

  /** The preview is centred on the pointer; nothing is dispatched without a
      type id or a size. */
  lemma PotentialNodeDragStartCentres(target: Target, attributes: Attributes,
                                      sizeForType: string -> Option<Size>, position: Position)
    ensures var r := PotentialNodeDragStartActions(target, attributes, sizeForType, position);
      && (r != [] <==> Truthy(target.id) && ResolveSize(attributes, target.id.value, sizeForType).Some?)
      && (r != [] ==>
            && |r| == 1 && r[0].PotentialNodeDragStart? && r[0].typeId == target.id.value
            && r[0].position.x + r[0].size.width / 2.0 == position.x
            && r[0].position.y + r[0].size.height / 2.0 == position.y)
  {
  }

  /** POTENTIAL_NODE_DRAG centred on the pointer with the preview's size;
      reading the size of an absent preview throws. */
  function PotentialNodeDragDispatch(state: DiagramState, position: Position): Dispatched {
    match state.potentialNode
    case None => Dispatched([], true)
    case Some(p) => Dispatched([PotentialNodeDrag(CentredAt(position, p.size), CanvasRectangle(state))], false)
  }

  method HandlePotentialNodeDrag(store: Store, position: Position) returns (raised: bool)
    modifies store
    ensures store.log == old(store.log) + PotentialNodeDragDispatch(store.state, position).actions
    ensures raised == PotentialNodeDragDispatch(store.state, position).raised
  {
    var potentialNode := store.state.potentialNode;
    if potentialNode.None? {
      return true;
    }
    store.Dispatch(PotentialNodeDrag(CentredAt(position, potentialNode.value.size), CanvasRectangle(store.state)));
    raised := false;
  }

  method HandlePotentialNodeDragEnd(store: Store, typeId: Option<string>)
    modifies store
    ensures store.log == old(store.log) + (if Truthy(typeId) then [PotentialNodeDragEnd] else [])
  {
    if Truthy(typeId) {
      store.Dispatch(PotentialNodeDragEnd);
    }
  }
}
