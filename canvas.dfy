/**
 * The canvas's node-change handler (DailyGoalCanvas.tsx, handleNodesChange):
 * a batch of node changes from the flow library removes the edges touching
 * removed nodes, persists each removal as a delete call and each other change
 * to a node that still exists afterwards as an upsert call of its data.
 *
 * The library's `applyNodeChanges` is not visible: the node list it returns
 * is a parameter of the handler.
 */
module Canvas {
  import opened Wrappers
  import opened GoalGraph

  /** A change the flow library reports; `Other` covers kinds without an id (an added item). */
  datatype NodeChange =
    | Remove(id: string)
    | Modify(id: string)
    | Other

  /** A persistence call the handler fires: `deleteDailyGoal` or `upsertDailyGoal`. */
  datatype PersistCall = DeleteCall(key: string) | UpsertCall(data: NodeData)

  /** The ids of the remove changes, one per removal, in batch order. */
  function RemovedIds(changes: seq<NodeChange>): (r: seq<string>)
    ensures |r| <= |changes|
    ensures forall id :: multiset(r)[id] == multiset(changes)[Remove(id)]
    decreases |changes|
  {
    if |changes| == 0 then []
    else
      var init := changes[..|changes| - 1];
      var last := changes[|changes| - 1];
      assert changes == init + [last];
      RemovedIds(init) + (if last.Remove? then [last.id] else [])
  }

  /** The removed ids are exactly the ids of the remove changes. */
  lemma {:induction false} RemovedIdsMembers(changes: seq<NodeChange>)
    ensures forall id :: id in RemovedIds(changes) <==> Remove(id) in changes
    decreases |changes|
  {
    if |changes| > 0 {
      var init := changes[..|changes| - 1];
      assert changes == init + [changes[|changes| - 1]];
      RemovedIdsMembers(init);
    }
  }

  /** Removals of a concatenated batch are those of each part, in order. */
  lemma {:induction false} RemovedIdsAppend(a: seq<NodeChange>, b: seq<NodeChange>)
    ensures RemovedIds(a + b) == RemovedIds(a) + RemovedIds(b)
    decreases |b|
  {
    if |b| == 0 {
      assert a + b == a;
    } else {
      var b' := b[..|b| - 1];
      assert (a + b)[..|a + b| - 1] == a + b';
      RemovedIdsAppend(a, b');
    }
  }

  /** Whether an edge has one of the ids as its source or target. */
  predicate Touches(e: Edge, ids: seq<string>) {
    e.source in ids || e.target in ids
  }

  /** `eds.filter(...)`: the edges that touch none of the removed ids, in their order. */
  function Pruned(edges: seq<Edge>, ids: seq<string>): (r: seq<Edge>)
    ensures |r| <= |edges|
    decreases |edges|
  {
    if |edges| == 0 then []
    else
      var init := edges[..|edges| - 1];
      var last := edges[|edges| - 1];
      Pruned(init, ids) + (if Touches(last, ids) then [] else [last])
  }

  /**
   * After pruning no edge has a removed id as source or target, and every
   * edge that touches none of them is kept.
   */
  lemma {:induction false} PrunedMembers(edges: seq<Edge>, ids: seq<string>)
    ensures forall e :: e in Pruned(edges, ids) <==> e in edges && !Touches(e, ids)
    decreases |edges|
  {
    if |edges| > 0 {
      var init := edges[..|edges| - 1];
      assert edges == init + [edges[|edges| - 1]];
      PrunedMembers(init, ids);
    }
  }

  /** Pruning keeps the relative order: it distributes over concatenation. */
  lemma {:induction false} PrunedAppend(a: seq<Edge>, b: seq<Edge>, ids: seq<string>)
    ensures Pruned(a + b, ids) == Pruned(a, ids) + Pruned(b, ids)
    decreases |b|
  {
    if |b| == 0 {
      assert a + b == a;
    } else {
      var b' := b[..|b| - 1];
      assert (a + b)[..|a + b| - 1] == a + b';
      PrunedAppend(a, b', ids);
    }
  }

  /** The delete calls for the removed ids, one each, in order. */
  function DeleteCalls(ids: seq<string>): (r: seq<PersistCall>)
    ensures |r| == |ids|
    ensures forall i :: 0 <= i < |r| ==> r[i] == DeleteCall(ids[i])
  {
    seq(|ids|, i requires 0 <= i < |ids| => DeleteCall(ids[i]))
  }

  /** The upsert call one change causes: none for a removal, none when its node is gone. */
  function UpsertFor(c: NodeChange, applied: seq<Node>): (r: seq<PersistCall>)
    ensures |r| <= 1
    ensures r == [] <==> !(c.Modify? && FindById(applied, c.id).Some?)
    ensures c.Remove? ==> r == []
    ensures c.Modify? && FindById(applied, c.id).Some? ==> r == [UpsertCall(FindById(applied, c.id).value.data)]
  {
    match c
    case Modify(id) =>
      (match FindById(applied, id)
       case Some(n) => [UpsertCall(n.data)]
       case None => [])
    case _ => []
  }

  /** The upsert calls of a batch, in batch order. */
  function UpsertCalls(changes: seq<NodeChange>, applied: seq<Node>): (r: seq<PersistCall>)
    ensures |r| <= |changes|
    decreases |changes|
  {
    if |changes| == 0 then []
    else
      var init := changes[..|changes| - 1];
      UpsertCalls(init, applied) + UpsertFor(changes[|changes| - 1], applied)
  }

  /**
   * Removals never upsert: a batch makes at most one upsert per change that
   * is not a removal, and every upsert carries the data of a node present
   * after the changes were applied.
   */
  lemma {:induction false} UpsertCallsBound(changes: seq<NodeChange>, applied: seq<Node>)
    ensures |UpsertCalls(changes, applied)| <= |changes| - |RemovedIds(changes)|
    ensures forall call :: call in UpsertCalls(changes, applied) ==>
              call.UpsertCall? && exists n :: n in applied && n.data == call.data
    decreases |changes|
  {
    if |changes| > 0 {
      var init := changes[..|changes| - 1];
      var c := changes[|changes| - 1];
      UpsertCallsBound(init, applied);
      assert |RemovedIds(changes)| == |RemovedIds(init)| + (if c.Remove? then 1 else 0) by {
        assert changes == init + [c];
        RemovedIdsAppend(init, [c]);
        assert [c][..0] == [];
      }
      if c.Modify? && FindById(applied, c.id).Some? {
        var n := FindById(applied, c.id).value;
        assert n in applied;
      }
    }
  }

  lemma {:induction false} DeleteCallsStep(ids: seq<string>, i: nat)
    requires i < |ids|
    ensures DeleteCalls(ids[..i + 1]) == DeleteCalls(ids[..i]) + [DeleteCall(ids[i])]
  {
    assert DeleteCalls(ids[..i + 1])[i] == DeleteCall(ids[i]);
  }

  lemma {:induction false} UpsertCallsStep(changes: seq<NodeChange>, j: nat, applied: seq<Node>)
    requires j < |changes|
    ensures UpsertCalls(changes[..j + 1], applied) == UpsertCalls(changes[..j], applied) + UpsertFor(changes[j], applied)
  {
    assert changes[..j + 1][..j] == changes[..j];
  }

  /** `deletions.forEach(...)`: one delete call per removed id, in order. */
  method FireDeletes(ids: seq<string>) returns (log: seq<PersistCall>)
    ensures log == DeleteCalls(ids)
  {
    log := [];
    var i := 0;
    while i < |ids|
      invariant 0 <= i <= |ids|
      invariant log == DeleteCalls(ids[..i])
    {
      DeleteCallsStep(ids, i);
      log := log + [DeleteCall(ids[i])];
      i := i + 1;
    }
    assert ids[..i] == ids;
  }

  /** `changes.forEach(...)` inside the node update: the upserts of the non-removal changes. */
  method FireUpserts(changes: seq<NodeChange>, applied: seq<Node>) returns (log: seq<PersistCall>)
    ensures log == UpsertCalls(changes, applied)
  {
    log := [];
    var j := 0;
    while j < |changes|
      invariant 0 <= j <= |changes|
      invariant log == UpsertCalls(changes[..j], applied)
    {
      var c := changes[j];
      UpsertCallsStep(changes, j, applied);
      // Removals were handled before; a change without an id finds no node.
      if c.Modify? {
        var n := FindById(applied, c.id);
        if n.Some? {
          log := log + [UpsertCall(n.value.data)];
        }
      }
      j := j + 1;
    }
    assert changes[..j] == changes;
  }

  /** The canvas's node and edge lists, and the persistence calls fired so far. */
  class Canvas {
    var nodes: seq<Node>
    var edges: seq<Edge>
    var calls: seq<PersistCall>

    constructor (initialNodes: seq<Node>, initialEdges: seq<Edge>)
      ensures nodes == initialNodes && edges == initialEdges && calls == []
    {
      nodes := initialNodes;
      edges := initialEdges;
      calls := [];
    }

    /**
     * handleNodesChange, with `applied` the list `applyNodeChanges` returns.
     * Deletes are fired before the upserts; the edge list is replaced only
     * when the batch removes something.
     */
    method HandleNodesChange(changes: seq<NodeChange>, applied: seq<Node>)
      modifies this
      ensures nodes == applied
      ensures var ids := RemovedIds(changes);
              edges == if |ids| > 0 then Pruned(old(edges), ids) else old(edges)
      ensures calls == old(calls) + DeleteCalls(RemovedIds(changes)) + UpsertCalls(changes, applied)
    {
      var kept := edges;
      var deletedIds := RemovedIds(changes);
      var deletes: seq<PersistCall> := [];
      if |deletedIds| > 0 {
        kept := Pruned(kept, deletedIds);
        deletes := FireDeletes(deletedIds);
      }
      var upserts := FireUpserts(changes, applied);
      edges, nodes, calls := kept, applied, calls + deletes + upserts;
    }
  }
}
