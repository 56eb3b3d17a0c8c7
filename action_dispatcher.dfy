/** The action dispatcher: routes each normalized event, after the mode
    filter, to one handler call with its coordinates converted to the frame
    that handler works in, and runs the handlers this model defines. */
module ActionDispatcherModel {
  import opened Types
  import opened StoreModel
  import EventFilters
  import EdgeActionDispatcher
  import NodeActionDispatcher
  import GlobalActionDispatcher

  /** A call of one handler, with the arguments the dispatcher passes. */
  datatype HandlerCall =
    | HandleNodeClick(id: Option<string>, withCtrl: bool)
    | HandleEdgeClick(id: Option<string>, withCtrl: bool)
    | HandleWorkspaceClick
    | HandleEdgeMouseOver(id: Option<string>)
    | HandleEdgeMouseOut(id: Option<string>)
    | HandlePanelDragStart(id: Option<string>)
    | HandlePanelDrag(id: Option<string>, position: Position, viewContainerSize: Size)
    | HandleNodeDragStart(id: Option<string>)
    | HandleNodeDrag(id: Option<string>, position: Position)
    | HandleNodeDragEnd(id: Option<string>, endPosition: Option<Position>, endSize: Option<Size>)
    | HandleShowSelectionMarquee(position: Position)
    | HandleUpdateSelectionMarquee(position: Position)
    | HandleHideSelectionMarquee
    | HandleWorkspaceDrag(position: Position)
    | HandleWorkspaceZoom(delta: real, position: Position)
    | HandleEdgeDragStart(id: Option<string>, position: Position, connectorType: Option<string>)
    | HandleEdgeDrag(position: Position)
    | HandleEdgeDragEnd(id: Option<string>)
    | HandlePotentialNodeDragStart(target: Target, attributes: Attributes, position: Position)
    | HandlePotentialNodeDrag(position: Position)
    | HandlePotentialNodeDragEnd(typeId: Option<string>)
    | HandleEdgeCreate(src: Option<string>, dest: Option<string>)
    | HandleNodeCreate(typeId: Option<string>)
    | HandleSelectAll
    | HandleDeleteSelectedItems
    | HandleCtrlZ
    | HandleCtrlShiftZ
    | HandleHideContextMenu
    | HandleShowContextMenu(position: Position, targetType: ComponentType)
    | HandleWorkspaceResize(size: Size)

  const KeyCodeA: string := "KeyA"
  const KeyCodeZ: string := "KeyZ"
  const KeyCodeDelete: string := "Delete"
  const KeyCodeBackspace: string := "Backspace"

  // ---- coordinate frames ----

  /** A screen point in workspace units: undo the pan, then the zoom. */
  function ToWorkspace(p: Position, w: Workspace): Position
    requires w.scale > 0.0
  {
    Position((p.x - w.position.x) / w.scale, (p.y - w.position.y) / w.scale)
  }

  /** A workspace point on screen: zoom, then pan. */
  function ToScreen(q: Position, w: Workspace): Position {
    Position(q.x * w.scale + w.position.x, q.y * w.scale + w.position.y)
  }

  lemma WorkspaceFrameRoundTrip(p: Position, q: Position, w: Workspace)
    requires w.scale > 0.0
    ensures ToScreen(ToWorkspace(p, w), w) == p
    ensures ToWorkspace(ToScreen(q, w), w) == q
  {
  }

  /** The marquee belongs to the SELECT and COPY modes; elsewhere a workspace drag pans. */
  predicate MarqueeMode(mode: EditorMode) {
    mode == SelectMode || mode == CopyMode
  }

  predicate IsEdgeLike(kind: ComponentType) {
    kind == EdgeTarget || kind == EdgeBadgeTarget
  }

  function NodeEndPosition(state: DiagramState, id: Option<string>): Option<Position> {
    if id.Some? && id.value in state.nodes then Some(state.nodes[id.value].diagramMakerData.position) else None
  }

  function NodeEndSize(state: DiagramState, id: Option<string>): Option<Size> {
    if id.Some? && id.value in state.nodes then Some(state.nodes[id.value].diagramMakerData.size) else None
  }

  // ---- routing ----

  /** The handler an accepted event reaches, if any. */
  function RouteAccepted(e: Event, state: DiagramState): Option<HandlerCall>
    requires state.workspace.scale > 0.0
  {
    var w := state.workspace;
    var mode := state.editor.mode;
    match e
    case ContainerUpdate(rect) => Some(HandleWorkspaceResize(rect.size))
    case WindowResize => None
    case LeftClick(t, ctrl) =>
      if t.kind == NodeTarget then Some(HandleNodeClick(t.id, ctrl))
      else if IsEdgeLike(t.kind) then Some(HandleEdgeClick(t.id, ctrl))
      else if t.kind == WorkspaceTarget then Some(HandleWorkspaceClick)
      else None
    case RightClick(t, p) => Some(HandleShowContextMenu(p, t.kind))
    case MouseDown(_) => Some(HandleHideContextMenu)
    case MouseOver(t) => if IsEdgeLike(t.kind) then Some(HandleEdgeMouseOver(t.id)) else None
    case MouseOut(t) => if IsEdgeLike(t.kind) then Some(HandleEdgeMouseOut(t.id)) else None
    case MouseWheel(p, delta, dx, dy, ctrl, overWorkspace) =>
      if !overWorkspace then None
      else if ctrl then
        (if state.editor.contextMenu.Some? then None else Some(HandleWorkspaceZoom(-delta, p)))
      else Some(HandleWorkspaceDrag(Position(w.position.x - 0.5 * dx, w.position.y - 0.5 * dy)))
    case KeyDown(_, code, modKey, shiftKey) =>
      if code == KeyCodeA && modKey then Some(HandleSelectAll)
      else if code == KeyCodeDelete || code == KeyCodeBackspace then Some(HandleDeleteSelectedItems)
      else if code == KeyCodeZ && modKey then Some(if shiftKey then HandleCtrlShiftZ else HandleCtrlZ)
      else None
    case KeyUp(_, _, _, _) => None
    case DragStart(t, p, attributes) =>
      (match t.kind
       case WorkspaceTarget => if MarqueeMode(mode) then Some(HandleShowSelectionMarquee(ToWorkspace(p, w))) else None
       case PanelHandleTarget => Some(HandlePanelDragStart(t.id))
       case NodeTarget => Some(HandleNodeDragStart(t.id))
       case ConnectorTarget => Some(HandleEdgeDragStart(t.id, ToWorkspace(p, w), attributes.connectorType))
       case PotentialNodeTarget => Some(HandlePotentialNodeDragStart(t, attributes, ToWorkspace(p, w)))
       case _ => None)
    case Drag(t, p, offset) =>
      (match t.kind
       case PanelHandleTarget => Some(HandlePanelDrag(t.id, Minus(p, offset), w.viewContainerSize))
       case NodeTarget => Some(HandleNodeDrag(t.id, ToWorkspace(Minus(p, offset), w)))
       case WorkspaceTarget =>
         if MarqueeMode(mode) then Some(HandleUpdateSelectionMarquee(ToWorkspace(p, w)))
         else Some(HandleWorkspaceDrag(Minus(p, offset)))
       case ConnectorTarget => Some(HandleEdgeDrag(ToWorkspace(p, w)))
       case PotentialNodeTarget => Some(HandlePotentialNodeDrag(ToWorkspace(p, w)))
       case _ => None)
    case DragEnd(t) =>
      (match t.kind
       case WorkspaceTarget => if MarqueeMode(mode) then Some(HandleHideSelectionMarquee) else None
       case NodeTarget => Some(HandleNodeDragEnd(t.id, NodeEndPosition(state, t.id), NodeEndSize(state, t.id)))
       case ConnectorTarget => Some(HandleEdgeDragEnd(t.id))
       case PotentialNodeTarget => Some(HandlePotentialNodeDragEnd(t.id))
       case _ => None)
    case Drop(t, dropzone) =>
      if dropzone.None? then None
      else if t.kind == ConnectorTarget && dropzone.value.kind == ConnectorTarget then
        Some(HandleEdgeCreate(t.id, dropzone.value.id))
      else if t.kind == PotentialNodeTarget && dropzone.value.kind == WorkspaceTarget then
        Some(HandleNodeCreate(t.id))
      else None
  }

  /** Every subscription runs through the mode filter first. */
  function Route(e: Event, state: DiagramState, readOnlyFilter: Event -> bool): Option<HandlerCall>
    requires state.workspace.scale > 0.0
  {
    if EventFilters.RootEventFilter(e, state.editor.mode, readOnlyFilter) then RouteAccepted(e, state) else None
  }

  /** The handlers whose dispatches this model defines (the workspace,
      editor, panel and undo handlers are only recorded as calls). */
  predicate IsModelled(c: HandlerCall) {
    || c.HandleNodeClick? || c.HandleEdgeClick? || c.HandleEdgeMouseOver? || c.HandleEdgeMouseOut?
    || c.HandleNodeDragStart? || c.HandleNodeDrag? || c.HandleNodeDragEnd?
    || c.HandleEdgeDragStart? || c.HandleEdgeDrag? || c.HandleEdgeDragEnd?
    || c.HandlePotentialNodeDragStart? || c.HandlePotentialNodeDrag? || c.HandlePotentialNodeDragEnd?
    || c.HandleEdgeCreate? || c.HandleNodeCreate?
  }

  function WhenTruthy(id: Option<string>, a: Action): seq<Action> {
    if Truthy(id) then [a] else []
  }

  /** What a modelled handler call dispatches on `state`; `uuid` is the fresh
      id a create handler draws, `sizeForType` the consumer's size lookup. */
  function Effect(state: DiagramState, c: HandlerCall, uuid: string, sizeForType: string -> Option<Size>): Dispatched
    requires IsModelled(c)
  {
    match c
    case HandleNodeClick(id, ctrl) => NodeActionDispatcher.NodeClickDispatch(state, id, ctrl)
    case HandleEdgeClick(id, ctrl) => EdgeActionDispatcher.EdgeClickDispatch(state, id, ctrl)
    case HandleEdgeMouseOver(id) => Dispatched(WhenTruthy(id, EdgeMouseOver(if id.Some? then id.value else "")), false)
    case HandleEdgeMouseOut(id) => Dispatched(WhenTruthy(id, EdgeMouseOut(if id.Some? then id.value else "")), false)
    case HandleNodeDragStart(id) => Dispatched(WhenTruthy(id, NodeDragStart(if id.Some? then id.value else "")), false)
    case HandleNodeDrag(id, p) => NodeActionDispatcher.NodeDragDispatch(state, id, p)
    case HandleNodeDragEnd(id, p, s) =>
      Dispatched(WhenTruthy(id, NodeDragEnd(if id.Some? then id.value else "", p, s)), false)
    case HandleEdgeDragStart(id, p, ct) =>
      Dispatched(WhenTruthy(id, EdgeActionDispatcher.CreateDragStartEdgeAction(if id.Some? then id.value else "", p, ct)), false)
    case HandleEdgeDrag(p) => Dispatched([EdgeDrag(p)], false)
    case HandleEdgeDragEnd(id) => Dispatched(WhenTruthy(id, EdgeDragEnd), false)
    case HandlePotentialNodeDragStart(t, attributes, p) =>
      Dispatched(NodeActionDispatcher.PotentialNodeDragStartActions(t, attributes, sizeForType, p), false)
    case HandlePotentialNodeDrag(p) => NodeActionDispatcher.PotentialNodeDragDispatch(state, p)
    case HandlePotentialNodeDragEnd(typeId) => Dispatched(WhenTruthy(typeId, PotentialNodeDragEnd), false)
    case HandleEdgeCreate(src, dest) =>
      Dispatched(EdgeActionDispatcher.EdgeCreateActions(state, src, dest, None, None, uuid), false)
    case HandleNodeCreate(typeId) => Dispatched(NodeActionDispatcher.NodeCreateActions(state, typeId, uuid), false)
  }

  /** The dispatcher wired to one store: publishing an event records the
      handler call it routes to and runs that handler against the store. */
  class ActionDispatcher {
    const store: Store
    const readOnlyFilter: Event -> bool
    const sizeForType: string -> Option<Size>
    var calls: seq<HandlerCall>

    constructor (store: Store, readOnlyFilter: Event -> bool, sizeForType: string -> Option<Size>)
      ensures this.store == store && this.readOnlyFilter == readOnlyFilter && this.sizeForType == sizeForType
      ensures calls == []
    {
      this.store := store;
      this.readOnlyFilter := readOnlyFilter;
      this.sizeForType := sizeForType;
      calls := [];
    }

    /** Runs one handler call; `uuid` is the fresh id a create handler draws. */
    method Execute(c: HandlerCall, uuid: string) returns (raised: bool)
      modifies store
      ensures IsModelled(c) ==> store.log == old(store.log) + Effect(store.state, c, uuid, sizeForType).actions
      ensures IsModelled(c) ==> raised == Effect(store.state, c, uuid, sizeForType).raised
      ensures c.HandleDeleteSelectedItems? ==>
        && |store.log| == |old(store.log)| + 1 && store.log[..|old(store.log)|] == old(store.log)
        && GlobalActionDispatcher.DeletesSelection(store.state, store.log[|store.log| - 1])
      ensures !IsModelled(c) && !c.HandleDeleteSelectedItems? ==> store.log == old(store.log) && !raised
    {
      raised := false;
      match c {
        case HandleNodeClick(id, ctrl) => raised := NodeActionDispatcher.HandleNodeClick(store, id, ctrl);
        case HandleEdgeClick(id, ctrl) => raised := EdgeActionDispatcher.HandleEdgeClick(store, id, ctrl);
        case HandleEdgeMouseOver(id) => EdgeActionDispatcher.HandleEdgeMouseOver(store, id);
        case HandleEdgeMouseOut(id) => EdgeActionDispatcher.HandleEdgeMouseOut(store, id);
        case HandleNodeDragStart(id) => NodeActionDispatcher.HandleNodeDragStart(store, id);
        case HandleNodeDrag(id, p) => raised := NodeActionDispatcher.HandleNodeDrag(store, id, p);
        case HandleNodeDragEnd(id, p, s) => NodeActionDispatcher.HandleNodeDragEnd(store, id, p, s);
        case HandleEdgeDragStart(id, p, ct) => EdgeActionDispatcher.HandleEdgeDragStart(store, id, p, ct);
        case HandleEdgeDrag(p) => EdgeActionDispatcher.HandleEdgeDrag(store, p);
        case HandleEdgeDragEnd(id) => EdgeActionDispatcher.HandleEdgeDragEnd(store, id);
        case HandlePotentialNodeDragStart(t, attributes, p) =>
          NodeActionDispatcher.HandlePotentialNodeDragStart(store, sizeForType, t, attributes, p);
        case HandlePotentialNodeDrag(p) => raised := NodeActionDispatcher.HandlePotentialNodeDrag(store, p);
        case HandlePotentialNodeDragEnd(typeId) => NodeActionDispatcher.HandlePotentialNodeDragEnd(store, typeId);
        case HandleEdgeCreate(src, dest) => EdgeActionDispatcher.HandleEdgeCreate(store, src, dest, None, None, uuid);
        case HandleNodeCreate(typeId) => NodeActionDispatcher.HandleNodeCreate(store, typeId, uuid);
        case HandleDeleteSelectedItems => GlobalActionDispatcher.HandleDeleteSelectedItems(store);
        case _ =>
      }
    }

    /** Publishes one event: a rejected or unrouted event calls nothing. */
    method Publish(e: Event, uuid: string) returns (raised: bool)
      requires store.state.workspace.scale > 0.0
      modifies this, store
      ensures var r := Route(e, store.state, readOnlyFilter);
        calls == old(calls) + (if r.Some? then [r.value] else [])
      ensures var r := Route(e, store.state, readOnlyFilter);
        r.Some? && IsModelled(r.value) ==>
          store.log == old(store.log) + Effect(store.state, r.value, uuid, sizeForType).actions
      ensures var r := Route(e, store.state, readOnlyFilter);
        r.Some? && IsModelled(r.value) ==> raised == Effect(store.state, r.value, uuid, sizeForType).raised
      ensures var r := Route(e, store.state, readOnlyFilter);
        r.Some? && r.value.HandleDeleteSelectedItems? ==>
          && |store.log| == |old(store.log)| + 1 && store.log[..|old(store.log)|] == old(store.log)
          && GlobalActionDispatcher.DeletesSelection(store.state, store.log[|store.log| - 1])
      ensures var r := Route(e, store.state, readOnlyFilter);
        r.Some? && !IsModelled(r.value) && !r.value.HandleDeleteSelectedItems? ==>
          store.log == old(store.log) && !raised
      ensures var r := Route(e, store.state, readOnlyFilter);
        r.None? ==> store.log == old(store.log) && !raised
    {
      var r := Route(e, store.state, readOnlyFilter);
      raised := false;
      if r.Some? {
        calls := calls + [r.value];
        raised := Execute(r.value, uuid);
      }
    }
  }

  // ---- routing rules ----

  /** When the mode filter rejects an event no handler runs. */
  lemma RejectedEventsCallNothing(e: Event, state: DiagramState, readOnlyFilter: Event -> bool)
    requires state.workspace.scale > 0.0
    requires !EventFilters.RootEventFilter(e, state.editor.mode, readOnlyFilter)
    ensures Route(e, state, readOnlyFilter) == None
  {
  }

  /** A node drag reaches the node handler with ((P - O) - W.pos) / scale,
      the workspace point that the anchor-corrected screen point shows. */
  lemma NodeDragFrame(state: DiagramState, t: Target, p: Position, offset: Position, f: Event -> bool)
    requires state.workspace.scale > 0.0 && t.kind == NodeTarget
    requires EventFilters.RootEventFilter(Drag(t, p, offset), state.editor.mode, f)
    ensures var r := Route(Drag(t, p, offset), state, f);
      && r.Some? && r.value.HandleNodeDrag? && r.value.id == t.id
      && ToScreen(r.value.position, state.workspace) == Minus(p, offset)
  {
    WorkspaceFrameRoundTrip(Minus(p, offset), Position(0.0, 0.0), state.workspace);
  }

  /** A test-fixture workspace: a 1200 by 800 canvas in a 1000 by 600 view. */
  function FixtureState(position: Position, scale: real, mode: EditorMode, contextMenu: Option<ContextMenu>): DiagramState {
    DiagramState(map[], map[], None,
                 Workspace(position, scale, Size(1200.0, 800.0), Size(1000.0, 600.0)),
                 Editor(mode, contextMenu))
  }

  /** P = (200, 200), O = (50, 50): pan (200, 300) at scale 2 gives (-25, -75);
      no pan at scale 5 gives (30, 30); no pan at scale 1 gives P - O. */
  lemma NodeDragExamples(f: Event -> bool)
    ensures var e := Drag(Target(Some("1234"), NodeTarget), Position(200.0, 200.0), Position(50.0, 50.0));
      && Route(e, FixtureState(Position(200.0, 300.0), 2.0, DragMode, None), f)
           == Some(HandleNodeDrag(Some("1234"), Position(-25.0, -75.0)))
      && Route(e, FixtureState(Position(0.0, 0.0), 5.0, DragMode, None), f)
           == Some(HandleNodeDrag(Some("1234"), Position(30.0, 30.0)))
      && Route(e, FixtureState(Position(0.0, 0.0), 1.0, DragMode, None), f)
           == Some(HandleNodeDrag(Some("1234"), Position(150.0, 150.0)))
  {
  }

  /** A connector drag uses (P - W.pos) / scale and ignores the offset:
      P = (200, 200), pan (200, 300), scale 2 gives (0, -50). */
  lemma EdgeDragFrame(state: DiagramState, t: Target, p: Position, o1: Position, o2: Position, f: Event -> bool)
    requires state.workspace.scale > 0.0 && t.kind == ConnectorTarget
    requires state.editor.mode == DragMode
    ensures Route(Drag(t, p, o1), state, f) == Route(Drag(t, p, o2), state, f)
              == Some(HandleEdgeDrag(ToWorkspace(p, state.workspace)))
    ensures Route(Drag(t, Position(200.0, 200.0), o1), FixtureState(Position(200.0, 300.0), 2.0, DragMode, None), f)
              == Some(HandleEdgeDrag(Position(0.0, -50.0)))
  {
  }

  /** Panel drags, and workspace drags in DRAG mode, get the raw P - O,
      whatever the workspace's pan and zoom. */
  lemma RawFrameDragsIgnoreWorkspace(state: DiagramState, t: Target, p: Position, offset: Position,
                                     pan: Position, scale: real, f: Event -> bool)
    requires state.workspace.scale > 0.0 && scale > 0.0
    requires t.kind == PanelHandleTarget || (t.kind == WorkspaceTarget && state.editor.mode == DragMode)
    requires EventFilters.RootEventFilter(Drag(t, p, offset), state.editor.mode, f)
    ensures var moved := state.(workspace := state.workspace.(position := pan, scale := scale));
      && Route(Drag(t, p, offset), moved, f) == Route(Drag(t, p, offset), state, f)
      && (t.kind == PanelHandleTarget ==>
            Route(Drag(t, p, offset), state, f)
              == Some(HandlePanelDrag(t.id, Minus(p, offset), state.workspace.viewContainerSize)))
      && (t.kind == WorkspaceTarget ==>
            Route(Drag(t, p, offset), state, f) == Some(HandleWorkspaceDrag(Minus(p, offset))))
  {
  }

  /** In SELECT or COPY mode a workspace drag moves the marquee to the
      workspace point (P - W.pos) / scale instead of panning; its start and
      end show and hide the marquee. */
  lemma WorkspaceDragInMarqueeModes(state: DiagramState, t: Target, p: Position, offset: Position,
                                    attributes: Attributes, f: Event -> bool)
    requires state.workspace.scale > 0.0 && t.kind == WorkspaceTarget && MarqueeMode(state.editor.mode)
    ensures Route(Drag(t, p, offset), state, f) == Some(HandleUpdateSelectionMarquee(ToWorkspace(p, state.workspace)))
    ensures Route(DragStart(t, p, attributes), state, f) == Some(HandleShowSelectionMarquee(ToWorkspace(p, state.workspace)))
    ensures Route(DragEnd(t), state, f) == Some(HandleHideSelectionMarquee)
  {
  }

  /** Left clicks reach the node, edge (edges and their badges) or workspace
      click handler with the id and the ctrl flag; hovering reaches the edge
      hover handlers only for edges and badges. */
  lemma ClickAndHoverRouting(state: DiagramState, t: Target, ctrl: bool, f: Event -> bool)
    requires state.workspace.scale > 0.0
    requires state.editor.mode == DragMode || state.editor.mode == SelectMode
    ensures Route(LeftClick(t, ctrl), state, f) ==
      if t.kind == NodeTarget then Some(HandleNodeClick(t.id, ctrl))
      else if t.kind == EdgeTarget || t.kind == EdgeBadgeTarget then Some(HandleEdgeClick(t.id, ctrl))
      else if t.kind == WorkspaceTarget then Some(HandleWorkspaceClick)
      else None
    ensures Route(MouseOver(t), state, f) ==
      if t.kind == EdgeTarget || t.kind == EdgeBadgeTarget then Some(HandleEdgeMouseOver(t.id)) else None
    ensures Route(MouseOut(t), state, f) ==
      if t.kind == EdgeTarget || t.kind == EdgeBadgeTarget then Some(HandleEdgeMouseOut(t.id)) else None
  {
  }

  /** Drag start: a panel handle and a node get only their id; a connector
      gets its workspace point and the connector type read from the element;
      a potential node gets its target, attributes and workspace point; the
      workspace starts a marquee only in SELECT or COPY mode. */
  lemma DragStartRouting(state: DiagramState, t: Target, p: Position, attributes: Attributes, f: Event -> bool)
    requires state.workspace.scale > 0.0
    requires EventFilters.RootEventFilter(DragStart(t, p, attributes), state.editor.mode, f)
    ensures var r := Route(DragStart(t, p, attributes), state, f);
      && (t.kind == PanelHandleTarget ==> r == Some(HandlePanelDragStart(t.id)))
      && (t.kind == NodeTarget ==> r == Some(HandleNodeDragStart(t.id)))
      && (t.kind == ConnectorTarget ==>
            r == Some(HandleEdgeDragStart(t.id, ToWorkspace(p, state.workspace), attributes.connectorType)))
      && (t.kind == PotentialNodeTarget ==>
            r == Some(HandlePotentialNodeDragStart(t, attributes, ToWorkspace(p, state.workspace))))
      && (t.kind == WorkspaceTarget && !MarqueeMode(state.editor.mode) ==> r == None)
      && (t.kind.EdgeTarget? || t.kind.EdgeBadgeTarget? || t.kind.OtherTarget? ==> r == None)
  {
  }

  /** Drag end: a node passes the node's stored position and size (absent
      for an unknown node), a connector and a potential node pass their id;
      the workspace hides the marquee only in SELECT or COPY mode. */
  lemma DragEndRouting(state: DiagramState, t: Target, f: Event -> bool)
    requires state.workspace.scale > 0.0
    requires EventFilters.RootEventFilter(DragEnd(t), state.editor.mode, f)
    ensures var r := Route(DragEnd(t), state, f);
      && (t.kind == NodeTarget && t.id.Some? && t.id.value in state.nodes ==>
            r == Some(HandleNodeDragEnd(t.id, Some(state.nodes[t.id.value].diagramMakerData.position),
                                        Some(state.nodes[t.id.value].diagramMakerData.size))))
      && (t.kind == NodeTarget && (t.id.None? || t.id.value !in state.nodes) ==>
            r == Some(HandleNodeDragEnd(t.id, None, None)))
      && (t.kind == ConnectorTarget ==> r == Some(HandleEdgeDragEnd(t.id)))
      && (t.kind == PotentialNodeTarget ==> r == Some(HandlePotentialNodeDragEnd(t.id)))
      && (t.kind == WorkspaceTarget ==> (r.Some? <==> MarqueeMode(state.editor.mode)))
  {
  }

  /** Mouse down hides the context menu, a right click shows it at the
      pointer for the clicked entity's type, and a container update resizes
      the workspace to the container's size. */
  lemma ChromeRouting(state: DiagramState, t: Target, p: Position, rect: Rectangle, f: Event -> bool)
    requires state.workspace.scale > 0.0
    requires state.editor.mode == DragMode || state.editor.mode == CopyMode
    ensures Route(MouseDown(t), state, f) == Some(HandleHideContextMenu)
    ensures Route(ContainerUpdate(rect), state, f) == Some(HandleWorkspaceResize(rect.size))
    ensures state.editor.mode == DragMode ==> Route(RightClick(t, p), state, f) == Some(HandleShowContextMenu(p, t.kind))
    ensures state.editor.mode == CopyMode ==> Route(RightClick(t, p), state, f) == None
  {
  }

  /** Wheel events: nothing off the workspace; with ctrl, zoom by -delta at
      the pointer unless a context menu is open; without ctrl, pan to the
      workspace position less half the wheel deltas. */
  lemma WheelRouting(state: DiagramState, p: Position, delta: real, dx: real, dy: real, ctrl: bool,
                     over: bool, f: Event -> bool)
    requires state.workspace.scale > 0.0
    requires EventFilters.RootEventFilter(MouseWheel(p, delta, dx, dy, ctrl, over), state.editor.mode, f)
    ensures var r := Route(MouseWheel(p, delta, dx, dy, ctrl, over), state, f);
      && (!over ==> r == None)
      && (over && ctrl && state.editor.contextMenu.None? ==> r == Some(HandleWorkspaceZoom(-delta, p)))
      && (over && ctrl && state.editor.contextMenu.Some? ==> r == None)
      && (over && !ctrl ==>
            r == Some(HandleWorkspaceDrag(Position(state.workspace.position.x - 0.5 * dx,
                                                   state.workspace.position.y - 0.5 * dy))))
  {
  }

  /** A drop creates an edge exactly for a connector dropped on a connector,
      a node exactly for a potential node dropped on the workspace, and
      calls nothing otherwise. */
  lemma DropRouting(state: DiagramState, t: Target, dropzone: Option<Target>, f: Event -> bool)
    requires state.workspace.scale > 0.0
    requires EventFilters.RootEventFilter(Drop(t, dropzone), state.editor.mode, f)
    ensures var r := Route(Drop(t, dropzone), state, f);
      && (r.Some? && r.value.HandleEdgeCreate? <==>
            dropzone.Some? && t.kind == ConnectorTarget && dropzone.value.kind == ConnectorTarget)
      && (r.Some? && r.value.HandleEdgeCreate? ==> r.value.src == t.id && r.value.dest == dropzone.value.id)
      && (r.Some? && r.value.HandleNodeCreate? <==>
            dropzone.Some? && t.kind == PotentialNodeTarget && dropzone.value.kind == WorkspaceTarget)
      && (r.Some? && r.value.HandleNodeCreate? ==> r.value.typeId == t.id)
      && (r.Some? ==> r.value.HandleEdgeCreate? || r.value.HandleNodeCreate?)
  {
  }

  /** Key-down: mod+A selects all, Delete or Backspace deletes the
      selection, mod+Z undoes without shift and redoes with it. */
  lemma KeyRouting(state: DiagramState, key: string, code: string, modKey: bool, shiftKey: bool, f: Event -> bool)
    requires state.workspace.scale > 0.0
    requires EventFilters.RootEventFilter(KeyDown(key, code, modKey, shiftKey), state.editor.mode, f)
    ensures var r := Route(KeyDown(key, code, modKey, shiftKey), state, f);
      && (code == KeyCodeA && modKey ==> r == Some(HandleSelectAll))
      && (code == KeyCodeDelete || code == KeyCodeBackspace ==> r == Some(HandleDeleteSelectedItems))
      && (code == KeyCodeZ && modKey ==> r == Some(if shiftKey then HandleCtrlShiftZ else HandleCtrlZ))
      && (r.Some? ==> r.value.HandleSelectAll? || r.value.HandleDeleteSelectedItems?
                      || r.value.HandleCtrlZ? || r.value.HandleCtrlShiftZ?)
  {
  }
}
