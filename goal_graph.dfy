/**
 * The day graph's values: the node data of a day (`DailyGoalNodeData`), its
 * todos, and the flow library's node and edge records restricted to the
 * fields the core reads or writes. The constant `type`, `animated` fields of
 * nodes and edges are left out.
 */
module GoalGraph {
  import opened Wrappers
  import opened DayKeys

  datatype Todo = Todo(id: string, text: string, completed: bool)

  /** `date` is the day key of the node's `Date`; `summary` is optional. */
  datatype NodeData = NodeData(
    date: DayKey,
    goal: string,
    completed: bool,
    summary: Option<string>,
    todos: seq<Todo>)

  datatype Position = Position(x: real, y: real)

  datatype Node = Node(id: string, position: Position, data: NodeData)

  datatype Edge = Edge(id: string, source: string, target: string)

  /** The edge id the source builds as `e${source}-${target}`. */
  function EdgeId(source: string, target: string): string {
    "e" + source + "-" + target
  }

  /** The edge every link-creating site of the source builds between two node ids. */
  function Link(source: string, target: string): Edge {
    Edge(EdgeId(source, target), source, target)
  }

  /** `nodes.find((n) => n.id === id)`: the first node with that id. */
  function FindById(nodes: seq<Node>, id: string): (r: Option<Node>)
    ensures r.None? <==> forall n :: n in nodes ==> n.id != id
    ensures r.Some? ==> exists i :: 0 <= i < |nodes| && nodes[i] == r.value && r.value.id == id
                                    && forall j :: 0 <= j < i ==> nodes[j].id != id
  {
    if |nodes| == 0 then None
    else if nodes[0].id == id then Some(nodes[0])
    else
      var r := FindById(nodes[1..], id);
      assert forall n :: n in nodes ==> n == nodes[0] || n in nodes[1..];
      if r.Some? then
        var i :| 0 <= i < |nodes[1..]| && nodes[1..][i] == r.value && r.value.id == id
                 && forall j :: 0 <= j < i ==> nodes[1..][j].id != id;
        assert nodes[i + 1] == r.value;
        r
      else r
  }

  /** `find` returns the node at the first index carrying the id. */
  lemma {:induction false} FindByIdAt(nodes: seq<Node>, id: string, k: nat)
    requires k < |nodes| && nodes[k].id == id
    requires forall j :: 0 <= j < k ==> nodes[j].id != id
    ensures FindById(nodes, id) == Some(nodes[k])
  {
    if k > 0 {
      assert forall j :: 0 <= j < k - 1 ==> nodes[1..][j] == nodes[j + 1];
      FindByIdAt(nodes[1..], id, k - 1);
    }
  }
}
