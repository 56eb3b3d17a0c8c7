/** Connector placement on a node's bounding box, and filtering by visibility. */
module Connectors {
  import opened Types

  datatype ConnectorType = Input | Output

  /** A connector, in the node's own frame. */
  datatype Connector = Connector(id: string, position: Position, kind: ConnectorType)

  /** An input connector is a drop zone; an output connector is draggable. */
  predicate IsDropzone(c: Connector) { c.kind == Input }
  predicate IsDraggable(c: Connector) { c.kind == Output }

  datatype ConnectorPlacement = LeftRight | TopBottom | OtherPlacement(name: string)

  datatype VisibleConnectorTypes = InputOnly | OutputOnly | NoneVisible | OtherVisibility(name: string)

  /** The node's two connectors for the configured placement: INPUT then OUTPUT. */
  function GetConnectors(node: Node, placement: Option<ConnectorPlacement>): seq<Connector> {
    var w := node.diagramMakerData.size.width;
    var h := node.diagramMakerData.size.height;
    match placement
    case Some(LeftRight) =>
      [Connector(node.id, Position(0.0, h / 2.0), Input), Connector(node.id, Position(w, h / 2.0), Output)]
    case Some(TopBottom) =>
      [Connector(node.id, Position(w / 2.0, 0.0), Input), Connector(node.id, Position(w / 2.0, h), Output)]
    case _ => []
  }

  /** The connectors of one kind, in their original order. */
  function KeepKind(cs: seq<Connector>, kind: ConnectorType): seq<Connector> {
    if cs == [] then []
    else (if cs[0].kind == kind then [cs[0]] else []) + KeepKind(cs[1..], kind)
  }

  function GetFilteredConnectors(node: Node, placement: Option<ConnectorPlacement>,
                                 visible: Option<VisibleConnectorTypes>): seq<Connector>
  {
    var all := GetConnectors(node, placement);
    match visible
    case None => all
    case Some(InputOnly) => KeepKind(all, Input)
    case Some(OutputOnly) => KeepKind(all, Output)
    case Some(NoneVisible) => []
    case Some(OtherVisibility(_)) => all
  }

  /** `p` lies on the border of the `w` by `h` box at the origin. */
  predicate OnBoundingBox(p: Position, s: Size) {
    && 0.0 <= p.x <= s.width && 0.0 <= p.y <= s.height
    && (p.x == 0.0 || p.x == s.width || p.y == 0.0 || p.y == s.height)
  }

  /** `sub` is `s` with some elements dropped, order kept. */
  predicate IsSubsequence<T(==)>(sub: seq<T>, s: seq<T>)
    decreases |s|
  {
    if sub == [] then true
    else if s == [] then false
    else if sub[0] == s[0] then IsSubsequence(sub[1..], s[1..])
    else IsSubsequence(sub, s[1..])
  }

  // ---- placement ----

  /** LEFT_RIGHT: INPUT at the middle of the left side, OUTPUT at the middle of the right. */
  lemma LeftRightPlacement(node: Node)
    ensures var s := node.diagramMakerData.size;
      GetConnectors(node, Some(LeftRight)) ==
        [Connector(node.id, Position(0.0, s.height / 2.0), Input),
         Connector(node.id, Position(s.width, s.height / 2.0), Output)]
  {
  }

  /** TOP_BOTTOM: INPUT at the middle of the top side, OUTPUT at the middle of the bottom. */
  lemma TopBottomPlacement(node: Node)
    ensures var s := node.diagramMakerData.size;
      GetConnectors(node, Some(TopBottom)) ==
        [Connector(node.id, Position(s.width / 2.0, 0.0), Input),
         Connector(node.id, Position(s.width / 2.0, s.height), Output)]
  {
  }

  lemma OtherPlacementHasNoConnectors(node: Node, placement: Option<ConnectorPlacement>)
    requires placement.None? || placement.value.OtherPlacement?
    ensures GetConnectors(node, placement) == []
  {
  }

  /** Every connector carries the node's id, and with a non-negative size it
      sits on the node's bounding box; a placement gives one of each kind. */
  lemma ConnectorsOnBoundingBox(node: Node, placement: Option<ConnectorPlacement>)
    ensures forall c :: c in GetConnectors(node, placement) ==> c.id == node.id
    ensures node.diagramMakerData.size.width >= 0.0 && node.diagramMakerData.size.height >= 0.0 ==>
      forall c :: c in GetConnectors(node, placement) ==> OnBoundingBox(c.position, node.diagramMakerData.size)
    ensures var cs := GetConnectors(node, placement);
      cs == [] || (|cs| == 2 && IsDropzone(cs[0]) && IsDraggable(cs[1]))
  {
  }

  // ---- visibility filtering ----

  /** Filtering by kind keeps exactly the connectors of that kind. */
  lemma {:induction false} KeepKindContents(cs: seq<Connector>, kind: ConnectorType)
    ensures forall c :: c in KeepKind(cs, kind) <==> c in cs && c.kind == kind
    decreases |cs|
  {
    if cs != [] {
      KeepKindContents(cs[1..], kind);
      assert forall c :: c in cs <==> c == cs[0] || c in cs[1..];
    }
  }

  /** Filtering by kind keeps the order of the connectors it keeps. */
  lemma {:induction false} KeepKindIsSubsequence(cs: seq<Connector>, kind: ConnectorType)
    ensures IsSubsequence(KeepKind(cs, kind), cs)
    decreases |cs|
  {
    if cs != [] {
      KeepKindIsSubsequence(cs[1..], kind);
      if cs[0].kind == kind {
        assert KeepKind(cs, kind) == [cs[0]] + KeepKind(cs[1..], kind);
        assert KeepKind(cs, kind)[1..] == KeepKind(cs[1..], kind);
      } else {
        var rest := KeepKind(cs[1..], kind);
        assert KeepKind(cs, kind) == rest;
        if rest != [] {
          KeepKindContents(cs[1..], kind);
          assert rest[0] in rest;
        }
      }
    }
  }

  /** Absent or unknown visibility keeps every connector, INPUT_ONLY and
      OUTPUT_ONLY keep exactly that kind, NONE keeps nothing; the result is
      always an order-preserving subsequence of the placement's connectors. */
  lemma FilteredConnectorsByVisibility(node: Node, placement: Option<ConnectorPlacement>,
                                      visible: Option<VisibleConnectorTypes>)
    ensures var all := GetConnectors(node, placement);
      var r := GetFilteredConnectors(node, placement, visible);
      && IsSubsequence(r, all)
      && (visible.None? || visible.value.OtherVisibility? ==> r == all)
      && (visible == Some(NoneVisible) ==> r == [])
      && (visible == Some(InputOnly) ==> forall c :: c in r <==> c in all && c.kind == Input)
      && (visible == Some(OutputOnly) ==> forall c :: c in r <==> c in all && c.kind == Output)
  {
    var all := GetConnectors(node, placement);
    KeepKindContents(all, Input);
    KeepKindContents(all, Output);
    KeepKindIsSubsequence(all, Input);
    KeepKindIsSubsequence(all, Output);
    SubsequenceReflexive(all);
  }

  lemma {:induction false} SubsequenceReflexive<T>(s: seq<T>)
    ensures IsSubsequence(s, s)
    decreases |s|
  {
    if s != [] {
      SubsequenceReflexive(s[1..]);
    }
  }
}
