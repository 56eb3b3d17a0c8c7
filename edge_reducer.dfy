/** The edge slice reducer: a transition over the map from edge id to edge record. */
module EdgeReducer {
  import opened Types

  function WithSelected(e: Edge, b: bool): Edge {
    e.(diagramMakerData := e.diagramMakerData.(selected := Some(b)))
  }

  /** `a` and `b` agree on every field except the selection flag. */
  predicate SameButSelection(a: Edge, b: Edge) {
    a.(diagramMakerData := b.diagramMakerData) == b
  }

  /** The ids carried by a list of edges. */
  function IdsOf(es: seq<Edge>): set<string> {
    set e | e in es :: e.id
  }

  /** CREATE_ITEMS: every listed edge is written under its own id, in list
      order, so a later entry with the same id wins. */
  function Upsert(m: Edges, es: seq<Edge>): (r: Edges)
    ensures r.Keys == m.Keys + IdsOf(es)
    ensures forall k :: k in m && k !in IdsOf(es) ==> r[k] == m[k]
    decreases |es|
  {
    if es == [] then m
    else
      assert IdsOf(es) == {es[0].id} + IdsOf(es[1..]) by {
        assert forall e :: e in es <==> e == es[0] || e in es[1..];
      }
      Upsert(m[es[0].id := es[0]], es[1..])
  }

  /** DELETE_ITEMS: every listed id is deleted; absent ids are ignored. */
  function RemoveAll(m: Edges, ids: seq<string>): (r: Edges)
    ensures r.Keys == m.Keys - (set k | k in ids)
    ensures forall k :: k in r ==> r[k] == m[k]
  {
    m - (set k | k in ids)
  }

  /** WORKSPACE_DESELECT: every edge's selection flag is set to false. */
  function DeselectAll(m: Edges): (r: Edges)
    ensures r.Keys == m.Keys
    ensures forall k :: k in r ==> !EdgeSelected(r[k]) && SameButSelection(r[k], m[k])
  {
    map k | k in m :: WithSelected(m[k], false)
  }

  /** The record EDGE_CREATE writes: empty `diagramMakerData`. */
  function CreatedEdge(id: string, src: string, dest: string, consumerData: Option<ConsumerData>,
                       srcType: Option<string>, destType: Option<string>): Edge
  {
    Edge(id, src, dest, srcType, destType, consumerData, EdgeData(None))
  }

  /** The actions whose case changes the edge slice. */
  predicate ChangesEdges(a: Action) {
    a.CreateItems? || a.EdgeDelete? || a.EdgeCreate? || a.EdgeSelect? || a.EdgeDeselect?
    || a.WorkspaceDeselect? || a.DeleteItems?
  }

  /** The reducer's result as a value: an undefined slice reduces to `{}`;
      selecting or deselecting an absent id reads a property of `undefined`. */
  function EdgesAfter(state: Option<Edges>, action: Action): Result<Edges> {
    match state
    case None => Ok(map[])
    case Some(m) =>
      match action
      case CreateItems(_, es) => Ok(Upsert(m, es))
      case EdgeDelete(id) => Ok(m - {id})
      case EdgeCreate(id, src, dest, data, srcType, destType) =>
        Ok(m[id := CreatedEdge(id, src, dest, data, srcType, destType)])
      case EdgeSelect(id) => if id in m then Ok(m[id := WithSelected(m[id], true)]) else TypeError
      case EdgeDeselect(id) => if id in m then Ok(m[id := WithSelected(m[id], false)]) else TypeError
      case WorkspaceDeselect => Ok(DeselectAll(m))
      case DeleteItems(_, edgeIds) => Ok(RemoveAll(m, edgeIds))
      case _ => Ok(m)
  }

  /** Reducing a sequence of actions in order; the first TypeError ends it. */
  function ReduceAll(m: Edges, actions: seq<Action>): Result<Edges>
    decreases |actions|
  {
    if actions == [] then Ok(m)
    else
      match EdgesAfter(Some(m), actions[0])
      case Ok(m') => ReduceAll(m', actions[1..])
      case TypeError => TypeError
  }

  /** CREATE_ITEMS' `forEach`: writes each listed edge into the draft in order. */
  method UpsertEach(m: Edges, es: seq<Edge>) returns (draft: Edges)
    ensures draft == Upsert(m, es)
  {
    draft := m;
    var i := 0;
    while i < |es|
      invariant 0 <= i <= |es|
      invariant Upsert(draft, es[i..]) == Upsert(m, es)
    {
      assert es[i..][1..] == es[i + 1..];
      draft := draft[es[i].id := es[i]];
      i := i + 1;
    }
  }

  /** WORKSPACE_DESELECT's loop over the draft's keys. */
  method DeselectEach(m: Edges) returns (draft: Edges)
    ensures draft == DeselectAll(m)
  {
    draft := m;
    var pending := draft.Keys;
    while pending != {}
      invariant pending <= m.Keys
      invariant draft.Keys == m.Keys
      invariant forall k :: k in draft ==>
        draft[k] == if k in pending then m[k] else WithSelected(m[k], false)
      decreases pending
    {
      var k :| k in pending;
      draft := draft[k := WithSelected(draft[k], false)];
      pending := pending - {k};
    }
    assert draft == DeselectAll(m);
  }

  /** DELETE_ITEMS' `forEach`: deletes each listed id from the draft. */
  method RemoveEach(m: Edges, edgeIds: seq<string>) returns (draft: Edges)
    ensures draft == RemoveAll(m, edgeIds)
  {
    draft := m;
    var i := 0;
    while i < |edgeIds|
      invariant 0 <= i <= |edgeIds|
      invariant draft == RemoveAll(m, edgeIds[..i])
    {
      assert edgeIds[..i + 1] == edgeIds[..i] + [edgeIds[i]];
      draft := draft - {edgeIds[i]};
      i := i + 1;
    }
    assert edgeIds[..|edgeIds|] == edgeIds;
  }

  /** The reducer as written: each case edits a draft copy of the slice in
      place, with loops where the source uses `forEach`. */
  method Reduce(state: Option<Edges>, action: Action) returns (r: Result<Edges>)
    ensures r == EdgesAfter(state, action)
  {
    if state.None? {
      return Ok(map[]);
    }
    var draft := state.value;
    match action {
      case CreateItems(_, es) =>
        draft := UpsertEach(draft, es);
        r := Ok(draft);
      case EdgeDelete(id) =>
        draft := draft - {id};
        r := Ok(draft);
      case EdgeCreate(id, src, dest, data, srcType, destType) =>
        draft := draft[id := CreatedEdge(id, src, dest, data, srcType, destType)];
        r := Ok(draft);
      case EdgeSelect(id) =>
        if id !in draft {
          return TypeError;
        }
        draft := draft[id := WithSelected(draft[id], true)];
        r := Ok(draft);
      case EdgeDeselect(id) =>
        if id !in draft {
          return TypeError;
        }
        draft := draft[id := WithSelected(draft[id], false)];
        r := Ok(draft);
      case WorkspaceDeselect =>
        draft := DeselectEach(draft);
        r := Ok(draft);
      case DeleteItems(_, edgeIds) =>
        draft := RemoveEach(draft, edgeIds);
        r := Ok(draft);
      case _ =>
        r := Ok(draft);
    }
  }

  // ---- properties of the reducer ----

  /** CREATE_ITEMS writes each record under its own id, so a slice whose
      records sit under their own ids stays that way. */
  lemma {:induction false} UpsertKeepsKeyed(m: Edges, es: seq<Edge>)
    requires EdgesKeyed(m)
    ensures EdgesKeyed(Upsert(m, es))
    decreases |es|
  {
    if es != [] {
      UpsertKeepsKeyed(m[es[0].id := es[0]], es[1..]);
    }
  }

  /** Every case of the reducer keeps each record under its own id. */
  lemma EdgesAfterKeepsKeyed(m: Edges, action: Action)
    requires EdgesKeyed(m)
    ensures var r := EdgesAfter(Some(m), action);
      r.Ok? ==> EdgesKeyed(r.value)
  {
    if action.CreateItems? {
      UpsertKeepsKeyed(m, action.edges);
    }
  }

  /** A run of reductions keeps each record under its own id too. */
  lemma {:induction false} ReduceAllKeepsKeyed(m: Edges, actions: seq<Action>)
    requires EdgesKeyed(m)
    ensures var r := ReduceAll(m, actions);
      r.Ok? ==> EdgesKeyed(r.value)
    decreases |actions|
  {
    if actions != [] {
      EdgesAfterKeepsKeyed(m, actions[0]);
      var next := EdgesAfter(Some(m), actions[0]);
      if next.Ok? {
        ReduceAllKeepsKeyed(next.value, actions[1..]);
      }
    }
  }

  lemma UndefinedStateIsEmpty(action: Action)
    ensures EdgesAfter(None, action) == Ok(map[])
  {
  }

  /** EDGE_CREATE inserts exactly one record, under `id`, and leaves every other key alone. */
  lemma EdgeCreateInsertsOne(m: Edges, id: string, src: string, dest: string,
                             data: Option<ConsumerData>, srcType: Option<string>, destType: Option<string>)
    ensures var r := EdgesAfter(Some(m), EdgeCreate(id, src, dest, data, srcType, destType));
      && r.Ok?
      && r.value.Keys == m.Keys + {id}
      && r.value[id].id == id && r.value[id].src == src && r.value[id].dest == dest
      && r.value[id].connectorSrcType == srcType && r.value[id].connectorDestType == destType
      && r.value[id].consumerData == data && r.value[id].diagramMakerData == EdgeData(None)
      && forall k :: k in m && k != id ==> r.value[k] == m[k]
  {
  }

  /** EDGE_DELETE removes exactly key `id`; an absent id changes nothing. */
  lemma EdgeDeleteRemovesOne(m: Edges, id: string)
    ensures var r := EdgesAfter(Some(m), EdgeDelete(id));
      && r.Ok?
      && r.value.Keys == m.Keys - {id}
      && (forall k :: k in r.value ==> r.value[k] == m[k])
      && (id !in m ==> r.value == m)
  {
  }

  /** DELETE_ITEMS removes exactly the listed edge ids; absent ids have no effect. */
  lemma DeleteItemsRemovesListed(m: Edges, nodeIds: seq<string>, edgeIds: seq<string>)
    ensures var r := EdgesAfter(Some(m), DeleteItems(nodeIds, edgeIds));
      && r.Ok?
      && (forall k :: k in r.value <==> k in m && k !in edgeIds)
      && (forall k :: k in r.value ==> r.value[k] == m[k])
      && ((forall k :: k in edgeIds ==> k !in m) ==> r.value == m)
  {
    var r := EdgesAfter(Some(m), DeleteItems(nodeIds, edgeIds));
    if forall k :: k in edgeIds ==> k !in m {
      assert r.value.Keys == m.Keys;
    }
  }

  /** EDGE_SELECT / EDGE_DESELECT set the one edge's flag; every other edge and
      every other field is unchanged. */
  lemma SelectSetsOneFlag(m: Edges, id: string, select: bool)
    ensures var r := EdgesAfter(Some(m), if select then EdgeSelect(id) else EdgeDeselect(id));
      && (id !in m <==> r.TypeError?)
      && (id in m ==>
            && r.value.Keys == m.Keys
            && EdgeSelected(r.value[id]) == select
            && r.value[id].diagramMakerData.selected == Some(select)
            && SameButSelection(r.value[id], m[id])
            && forall k :: k in m && k != id ==> r.value[k] == m[k])
  {
  }

  /** WORKSPACE_DESELECT keeps the key set, clears every flag and nothing else. */
  lemma WorkspaceDeselectClearsAll(m: Edges)
    ensures var r := EdgesAfter(Some(m), WorkspaceDeselect);
      && r.Ok?
      && r.value.Keys == m.Keys
      && forall k :: k in m ==> !EdgeSelected(r.value[k]) && SameButSelection(r.value[k], m[k])
  {
  }

  /** Deselecting everything twice is the same as doing it once. */
  lemma WorkspaceDeselectIdempotent(m: Edges)
    ensures var once := EdgesAfter(Some(m), WorkspaceDeselect);
      once.Ok? && EdgesAfter(Some(once.value), WorkspaceDeselect) == once
  {
    var once := DeselectAll(m);
    var twice := DeselectAll(once);
    assert twice.Keys == once.Keys;
    forall k | k in twice
      ensures twice[k] == once[k]
    {
      assert once[k] == WithSelected(m[k], false);
    }
    assert twice == once;
  }

  /** CREATE_ITEMS writes each given edge under its own id: the entry that is
      last for its id is what the id maps to, and untouched keys keep their record. */
  lemma {:induction false} CreateItemsUpserts(m: Edges, ns: seq<Node>, es: seq<Edge>, i: nat)
    requires i < |es|
    requires forall j :: i < j < |es| ==> es[j].id != es[i].id
    ensures var r := EdgesAfter(Some(m), CreateItems(ns, es));
      && r.Ok?
      && r.value.Keys == m.Keys + IdsOf(es)
      && r.value[es[i].id] == es[i]
  {
    UpsertLastWins(m, es, i);
  }

  lemma {:induction false} UpsertLastWins(m: Edges, es: seq<Edge>, i: nat)
    requires i < |es|
    requires forall j :: i < j < |es| ==> es[j].id != es[i].id
    ensures es[i].id in Upsert(m, es) && Upsert(m, es)[es[i].id] == es[i]
    decreases |es|
  {
    var rest := es[1..];
    if i == 0 {
      assert es[0].id !in IdsOf(rest) by {
        forall e | e in rest ensures e.id != es[0].id {
          var j :| 0 <= j < |rest| && rest[j] == e;
          assert es[j + 1] == e;
        }
      }
    } else {
      assert forall j :: i - 1 < j < |rest| ==> rest[j] == es[j + 1];
      UpsertLastWins(m[es[0].id := es[0]], rest, i - 1);
    }
  }

  /** Upserting records that agree with a reference map `ref` gives back `ref`
      on every upserted id. */
  lemma {:induction false} UpsertAgrees(m: Edges, es: seq<Edge>, ref: Edges)
    requires forall e :: e in es ==> e.id in ref && ref[e.id] == e
    ensures forall k :: k in IdsOf(es) ==> Upsert(m, es)[k] == ref[k]
    decreases |es|
  {
    if es != [] {
      var rest := es[1..];
      var m' := m[es[0].id := es[0]];
      assert forall e :: e in rest ==> e in es;
      UpsertAgrees(m', rest, ref);
      assert IdsOf(es) == {es[0].id} + IdsOf(rest) by {
        assert forall e :: e in es <==> e == es[0] || e in rest;
      }
    }
  }

  /** Every action outside the reducer's cases returns the slice unchanged. */
  lemma OtherActionsUnchanged(m: Edges, action: Action)
    requires !ChangesEdges(action)
    ensures EdgesAfter(Some(m), action) == Ok(m)
  {
  }
}
