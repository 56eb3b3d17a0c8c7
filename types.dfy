/** The state, action and event vocabulary of the diagram editor's state engine. */
module Types {

  datatype Option<T> = None | Some(value: T)

  /** The outcome of an evaluation that may read a property of `undefined`
      and so throw a TypeError. */
  datatype Result<T> = Ok(value: T) | TypeError

  /** JavaScript truthiness of an optional string: absent and "" are falsy. */
  predicate Truthy(s: Option<string>) {
    s.Some? && s.value != ""
  }

  datatype Position = Position(x: real, y: real)
  datatype Size = Size(width: real, height: real)
  datatype Rectangle = Rectangle(position: Position, size: Size)

  function Minus(p: Position, q: Position): Position {
    Position(p.x - q.x, p.y - q.y)
  }

  /** The consumer's opaque payload, represented by its serialisation. */
  type ConsumerData = string

  /** `diagramMakerData` of an edge; `{}` is EdgeData(None). */
  datatype EdgeData = EdgeData(selected: Option<bool>)

  datatype Edge = Edge(
    id: string,
    src: string,
    dest: string,
    connectorSrcType: Option<string>,
    connectorDestType: Option<string>,
    consumerData: Option<ConsumerData>,
    diagramMakerData: EdgeData)

  type Edges = map<string, Edge>

  datatype NodeData = NodeData(
    position: Position,
    size: Size,
    selected: Option<bool>,
    startDragPosition: Option<Position>)

  datatype Node = Node(
    id: string,
    typeId: Option<string>,
    consumerData: Option<ConsumerData>,
    diagramMakerData: NodeData)

  type Nodes = map<string, Node>

  /** `diagramMakerData.selected` read as a JavaScript condition. */
  predicate EdgeSelected(e: Edge) {
    e.diagramMakerData.selected == Some(true)
  }

  predicate NodeSelected(n: Node) {
    n.diagramMakerData.selected == Some(true)
  }

  datatype PotentialNode = PotentialNode(typeId: string, position: Position, size: Size)

  datatype Workspace = Workspace(
    position: Position,
    scale: real,
    canvasSize: Size,
    viewContainerSize: Size)

  /** The `data-type` tag of the entity an interaction resolved to. */
  datatype ComponentType =
    | NodeTarget
    | EdgeTarget
    | EdgeBadgeTarget
    | ConnectorTarget
    | PotentialNodeTarget
    | PanelHandleTarget
    | WorkspaceTarget
    | OtherTarget(name: string)

  datatype EditorMode = DragMode | SelectMode | CopyMode | ReadOnlyMode | OtherMode(name: string)

  datatype ContextMenu = ContextMenu(position: Position, targetType: ComponentType)

  datatype Editor = Editor(mode: EditorMode, contextMenu: Option<ContextMenu>)

  datatype DiagramState = DiagramState(
    nodes: Nodes,
    edges: Edges,
    potentialNode: Option<PotentialNode>,
    workspace: Workspace,
    editor: Editor)

  /** The actions of the node, edge, workspace and global slices that the
      modelled dispatchers build, reduce or invert. */
  datatype Action =
    | CreateItems(nodes: seq<Node>, edges: seq<Edge>)
    | DeleteItems(nodeIds: seq<string>, edgeIds: seq<string>)
    | EdgeCreate(
        id: string, src: string, dest: string, consumerData: Option<ConsumerData>,
        connectorSrcType: Option<string>, connectorDestType: Option<string>)
    | EdgeDelete(id: string)
    | EdgeSelect(id: string)
    | EdgeDeselect(id: string)
    | EdgeDragStart(id: string, position: Position, connectorSrcType: Option<string>)
    | EdgeDrag(position: Position)
    | EdgeDragEnd
    | EdgeMouseOver(id: string)
    | EdgeMouseOut(id: string)
    | WorkspaceDeselect
    | NodeCreate(id: string, typeId: string, position: Position, size: Size, consumerData: Option<ConsumerData>)
    | NodeDelete(id: string)
    | NodeSelect(id: string)
    | NodeDeselect(id: string)
    | NodeDragStart(id: string)
    | NodeDrag(id: string, position: Position, size: Size, workspaceRectangle: Rectangle)
    | NodeDragEnd(id: string, endPosition: Option<Position>, endSize: Option<Size>)
    | PotentialNodeDragStart(typeId: string, position: Position, size: Size)
    | PotentialNodeDrag(position: Position, workspaceRectangle: Rectangle)
    | PotentialNodeDragEnd

  /** What one handler did: the actions it dispatched, in order, and whether
      it then threw a TypeError. */
  datatype Dispatched = Dispatched(actions: seq<Action>, raised: bool)

  /** The element an event resolved to: its `data-id` (if any) and `data-type`. */
  datatype Target = Target(id: Option<string>, kind: ComponentType)

  /** Data attributes read from the element where a drag started. */
  datatype Attributes = Attributes(
    connectorType: Option<string>,
    width: Option<real>,
    height: Option<real>)

  /** The normalized event vocabulary. `overWorkspace` is whether the wheel
      event's target has a workspace ancestor. */
  datatype Event =
    | ContainerUpdate(contextRect: Rectangle)
    | WindowResize
    | LeftClick(target: Target, ctrlKey: bool)
    | RightClick(target: Target, position: Position)
    | MouseDown(target: Target)
    | MouseOver(target: Target)
    | MouseOut(target: Target)
    | MouseWheel(position: Position, delta: real, deltaX: real, deltaY: real, ctrlKey: bool, overWorkspace: bool)
    | KeyDown(key: string, code: string, modKey: bool, shiftKey: bool)
    | KeyUp(key: string, code: string, modKey: bool, shiftKey: bool)
    | DragStart(target: Target, position: Position, attributes: Attributes)
    | Drag(target: Target, position: Position, offset: Position)
    | DragEnd(target: Target)
    | Drop(target: Target, dropzone: Option<Target>)

  /** The key enumeration `Object.keys(m)` yields: every key once. */
  ghost predicate IsKeyOrder<T>(order: seq<string>, m: map<string, T>) {
    && NoDuplicates(order)
    && (forall k :: k in m <==> k in order)
  }

  /** Every record is stored under its own id. */
  predicate EdgesKeyed(m: Edges) {
    forall k :: k in m ==> m[k].id == k
  }

  predicate NoDuplicates(s: seq<string>) {
    forall i, j :: 0 <= i < j < |s| ==> s[i] != s[j]
  }
}
