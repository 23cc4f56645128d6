/**
 * The setter catalogue of the day graph (state.ts): the six named operations
 * an editor or the agent may run on the node list, two of which also link the
 * new day from an earlier one. Each operation is specified by a function on
 * the graph's value; the `Graph` class holds the session's nodes and edges and
 * runs the operations step by step, as the source does through its state
 * updates, logging every `upsertDailyGoal` call it fires.
 */
module Setters {
  import opened Wrappers
  import opened DayKeys
  import opened GoalGraph

  datatype GraphState = GraphState(nodes: seq<Node>, edges: seq<Edge>)

  /** `Partial<DailyGoalNodeData>`: `None` is a field the caller left out. */
  datatype PartialData = PartialData(
    date: Option<DayKey>,
    goal: Option<string>,
    completed: Option<bool>,
    summary: Option<string>,
    todos: Option<seq<Todo>>)

  /** What updateGoal leaves behind: the new graph and the data it persists. */
  datatype UpdateOutcome = UpdateOutcome(graph: GraphState, persisted: NodeData)

  /* ------------------------------------------------------------------------ */
  /*  Choosing the day to link from                                            */
  /* ------------------------------------------------------------------------ */

  /** `id` is the greatest id among the nodes dated strictly before `date`. */
  ghost predicate IsGreatestEarlierId(nodes: seq<Node>, date: DayKey, id: string) {
    && (exists n :: n in nodes && Before(n.data.date, date) && n.id == id)
    && (forall n :: n in nodes && Before(n.data.date, date) ==> !Before(id, n.id))
  }

  /** `n` has the latest date among the nodes dated strictly before `date`. */
  ghost predicate IsLatestEarlier(nodes: seq<Node>, date: DayKey, n: Node) {
    && n in nodes && Before(n.data.date, date)
    && (forall m :: m in nodes && Before(m.data.date, date) ==> !Before(n.data.date, m.data.date))
  }

  /**
   * `nodes[i]` is the node V8's TimSort puts first under the descending date
   * comparator, which returns 1 for equal dates either way round: it has
   * the latest date among the nodes dated before `date`, and every node
   * before it in list order that is dated before `date` has an earlier date.
   */
  ghost predicate FirstLatestAt(nodes: seq<Node>, date: DayKey, i: int) {
    && 0 <= i < |nodes|
    && IsLatestEarlier(nodes, date, nodes[i])
    && forall j :: 0 <= j < i && Before(nodes[j].data.date, date) ==> Before(nodes[j].data.date, nodes[i].data.date)
  }

  /** At most one index is first among the latest earlier nodes: the choice is determined. */
  lemma {:induction false} FirstLatestUnique(nodes: seq<Node>, date: DayKey, i: int, k: int)
    requires FirstLatestAt(nodes, date, i) && FirstLatestAt(nodes, date, k)
    ensures i == k
  {
    if i < k {
      assert false;
    } else if k < i {
      assert false;
    }
  }

  /** A first-latest index of the tail stays first-latest when the head is not a better candidate. */
  lemma {:induction false} FirstLatestShift(nodes: seq<Node>, date: DayKey, i: int)
    requires |nodes| > 0 && FirstLatestAt(nodes[1..], date, i)
    requires Before(nodes[0].data.date, date) ==> Before(nodes[0].data.date, nodes[i + 1].data.date)
    ensures FirstLatestAt(nodes, date, i + 1)
  {
    assert nodes[i + 1] == nodes[1..][i];
    forall m | m in nodes
      ensures Before(m.data.date, date) ==> !Before(nodes[i + 1].data.date, m.data.date)
    {
      if m != nodes[0] {
        assert m in nodes[1..];
      } else if Before(m.data.date, date) {
        BeforeAsymmetric(m.data.date, nodes[i + 1].data.date);
      }
    }
    forall j | 0 <= j < i + 1 && Before(nodes[j].data.date, date)
      ensures Before(nodes[j].data.date, nodes[i + 1].data.date)
    {
      if j > 0 {
        assert nodes[j] == nodes[1..][j - 1];
      }
    }
  }

  /**
   * createDayNode's predecessor: filter the nodes dated before `date`, sort
   * them by descending id and take the first.
   */
  function GreatestEarlierId(nodes: seq<Node>, date: DayKey): (r: Option<string>)
    ensures r.None? <==> forall n :: n in nodes ==> !Before(n.data.date, date)
    ensures r.Some? ==> IsGreatestEarlierId(nodes, date, r.value)
    decreases |nodes|
  {
    if |nodes| == 0 then None
    else
      var rest := GreatestEarlierId(nodes[1..], date);
      var n := nodes[0];
      assert forall m :: m in nodes ==> m == n || m in nodes[1..];
      if !Before(n.data.date, date) then rest
      else if rest.Some? && !Before(rest.value, n.id) then rest
      else
        assert forall m :: m in nodes[1..] && Before(m.data.date, date) ==> !Before(n.id, m.id) by {
          forall m | m in nodes[1..] && Before(m.data.date, date) ensures !Before(n.id, m.id) {
            if Before(n.id, m.id) {
              BeforeTransitive(rest.value, n.id, m.id);
            }
          }
        }
        BeforeIrreflexive(n.id);
        Some(n.id)
  }

  /**
   * updateGoal's predecessor: filter the nodes dated before `date` and sort
   * them by descending date. The comparator returns 1 for equal dates in both
   * argument orders, so the language leaves the order of ties to the engine;
   * V8's TimSort leaves them in list order, so the first is taken.
   */
  function LatestEarlier(nodes: seq<Node>, date: DayKey): (r: Option<Node>)
    ensures r.None? <==> forall n :: n in nodes ==> !Before(n.data.date, date)
    ensures r.Some? ==> IsLatestEarlier(nodes, date, r.value)
    ensures r.Some? ==> exists i :: FirstLatestAt(nodes, date, i) && nodes[i] == r.value
    decreases |nodes|
  {
    if |nodes| == 0 then None
    else
      var rest := LatestEarlier(nodes[1..], date);
      var n := nodes[0];
      assert forall m :: m in nodes ==> m == n || m in nodes[1..];
      if !Before(n.data.date, date) || (rest.Some? && Before(n.data.date, rest.value.data.date)) then
        if rest.Some? then
          assert exists i :: FirstLatestAt(nodes, date, i) && nodes[i] == rest.value by {
            if Before(n.data.date, date) {
              BeforeAsymmetric(n.data.date, rest.value.data.date);
            }
            var i :| FirstLatestAt(nodes[1..], date, i) && nodes[1..][i] == rest.value;
            FirstLatestShift(nodes, date, i);
          }
          rest
        else rest
      else
        assert forall m :: m in nodes[1..] && Before(m.data.date, date) ==> !Before(n.data.date, m.data.date) by {
          forall m | m in nodes[1..] && Before(m.data.date, date) ensures !Before(n.data.date, m.data.date) {
            if rest.Some? && Before(n.data.date, m.data.date) {
              BeforeTotal(n.data.date, rest.value.data.date);
              if n.data.date != rest.value.data.date {
                BeforeTransitive(rest.value.data.date, n.data.date, m.data.date);
              }
            }
          }
        }
        BeforeIrreflexive(n.data.date);
        assert FirstLatestAt(nodes, date, 0);
        Some(n)
  }

  /** The edge list grows by `prev → target` when there is a predecessor. */
  function LinkFrom(prev: Option<string>, target: string): seq<Edge> {
    if prev.Some? then [Link(prev.value, target)] else []
  }

  /* ------------------------------------------------------------------------ */
  /*  The six setters as functions of the graph                                */
  /* ------------------------------------------------------------------------ */

  /** The node createDayNode builds: id and date are the given day, not completed, no todos, no summary. */
  function DayNode(date: DayKey, goal: string, pos: Position): Node {
    Node(date, pos, NodeData(date, goal, false, None, []))
  }

  /** createDayNode(date, goal): append the day (there is no check that the id is new) and link it. */
  function AfterCreateDayNode(g: GraphState, date: DayKey, goal: string, pos: Position): (r: GraphState)
    ensures |r.nodes| == |g.nodes| + 1 && r.nodes[..|g.nodes|] == g.nodes
    ensures r.nodes[|g.nodes|] == DayNode(date, goal, pos)
    ensures (forall n :: n in g.nodes ==> !Before(n.data.date, date)) ==> r.edges == g.edges
    ensures (exists n :: n in g.nodes && Before(n.data.date, date)) ==>
              exists p :: IsGreatestEarlierId(g.nodes, date, p) && r.edges == g.edges + [Link(p, date)]
  {
    GraphState(g.nodes + [DayNode(date, goal, pos)], g.edges + LinkFrom(GreatestEarlierId(g.nodes, date), date))
  }

  /** Apply `f` to the data of every node whose id is `id`; keep every other node. */
  function UpdateWhere(nodes: seq<Node>, id: string, f: NodeData -> NodeData): (r: seq<Node>)
    ensures |r| == |nodes|
    ensures forall i :: 0 <= i < |nodes| ==> r[i].id == nodes[i].id && r[i].position == nodes[i].position
    ensures forall i :: 0 <= i < |nodes| && nodes[i].id == id ==> r[i].data == f(nodes[i].data)
    ensures forall i :: 0 <= i < |nodes| && nodes[i].id != id ==> r[i] == nodes[i]
    ensures (forall n :: n in nodes ==> n.id != id) ==> r == nodes
  {
    seq(|nodes|, i requires 0 <= i < |nodes| =>
      if nodes[i].id == id then nodes[i].(data := f(nodes[i].data)) else nodes[i])
  }

  /** setGoalSummary(id, summary): only the summary of the matching days changes. */
  function WithSummary(nodes: seq<Node>, id: string, summary: string): (r: seq<Node>)
    ensures |r| == |nodes|
    ensures forall i :: 0 <= i < |nodes| ==>
              r[i] == nodes[i].(data := nodes[i].data.(summary := r[i].data.summary))
              && r[i].data.summary == (if nodes[i].id == id then Some(summary) else nodes[i].data.summary)
    ensures (forall n :: n in nodes ==> n.id != id) ==> r == nodes
  {
    UpdateWhere(nodes, id, (d: NodeData) => d.(summary := Some(summary)))
  }

  /**
   * addTodo(id, text): every matching day gets one more todo at the end, not
   * completed, whose id is the fresh id drawn for that node (`uuid(i)` for the
   * node at index i); earlier todos and other days are untouched.
   */
  function WithTodo(nodes: seq<Node>, id: string, text: string, uuid: nat -> string): (r: seq<Node>)
    ensures |r| == |nodes|
    ensures forall i :: 0 <= i < |nodes| && nodes[i].id != id ==> r[i] == nodes[i]
    ensures forall i :: 0 <= i < |nodes| && nodes[i].id == id ==>
              r[i] == nodes[i].(data := nodes[i].data.(todos := r[i].data.todos))
              && |r[i].data.todos| == |nodes[i].data.todos| + 1
              && r[i].data.todos[..|nodes[i].data.todos|] == nodes[i].data.todos
              && r[i].data.todos[|nodes[i].data.todos|] == Todo(uuid(i), text, false)
    ensures (forall n :: n in nodes ==> n.id != id) ==> r == nodes
  {
    seq(|nodes|, i requires 0 <= i < |nodes| =>
      if nodes[i].id != id then nodes[i]
      else nodes[i].(data := nodes[i].data.(todos := nodes[i].data.todos + [Todo(uuid(i), text, false)])))
  }

  /** The todo list of a day after marking `todoId` complete: same todos, same order. */
  function CompleteTodo(todos: seq<Todo>, todoId: string): (r: seq<Todo>)
    ensures |r| == |todos|
    ensures forall i :: 0 <= i < |todos| ==>
              r[i].id == todos[i].id && r[i].text == todos[i].text
              && (r[i].completed <==> todos[i].completed || todos[i].id == todoId)
    ensures (forall t :: t in todos ==> t.id != todoId) ==> r == todos
  {
    seq(|todos|, i requires 0 <= i < |todos| =>
      if todos[i].id == todoId then todos[i].(completed := true) else todos[i])
  }

  /** markTodoComplete(id, todoId): only the todo list of the matching days changes. */
  function WithTodoCompleted(nodes: seq<Node>, id: string, todoId: string): (r: seq<Node>)
    ensures |r| == |nodes|
    ensures forall i :: 0 <= i < |nodes| ==>
              r[i] == nodes[i].(data := nodes[i].data.(todos := r[i].data.todos))
              && r[i].data.todos == (if nodes[i].id == id then CompleteTodo(nodes[i].data.todos, todoId)
                                     else nodes[i].data.todos)
    ensures (forall n :: n in nodes ==> n.id != id) ==> r == nodes
  {
    UpdateWhere(nodes, id, (d: NodeData) => d.(todos := CompleteTodo(d.todos, todoId)))
  }

  /** markGoalComplete(id): only the completed flag of the matching days changes, to true. */
  function WithGoalCompleted(nodes: seq<Node>, id: string): (r: seq<Node>)
    ensures |r| == |nodes|
    ensures forall i :: 0 <= i < |nodes| ==>
              r[i] == nodes[i].(data := nodes[i].data.(completed := r[i].data.completed))
              && r[i].data.completed == (nodes[i].id == id || nodes[i].data.completed)
    ensures (forall n :: n in nodes ==> n.id != id) ==> r == nodes
  {
    UpdateWhere(nodes, id, (d: NodeData) => d.(completed := true))
  }

  /** `{ ...data, ...partial }`: every field the partial gives wins; `todos` is replaced whole. */
  function Merge(d: NodeData, p: PartialData): (r: NodeData)
    ensures p.date.None? ==> r.date == d.date
    ensures p.goal.None? ==> r.goal == d.goal
    ensures p.completed.None? ==> r.completed == d.completed
    ensures p.summary.None? ==> r.summary == d.summary
    ensures p.todos.None? ==> r.todos == d.todos
    ensures p.date.Some? ==> r.date == p.date.value
    ensures p.goal.Some? ==> r.goal == p.goal.value
    ensures p.completed.Some? ==> r.completed == p.completed.value
    ensures p.summary.Some? ==> r.summary == p.summary
    ensures p.todos.Some? ==> r.todos == p.todos.value
  {
    NodeData(
      p.date.GetOr(d.date),
      p.goal.GetOr(d.goal),
      p.completed.GetOr(d.completed),
      if p.summary.Some? then p.summary else d.summary,
      p.todos.GetOr(d.todos))
  }

  /**
   * The data of the day updateGoal creates: goal defaults to '', completed to
   * false, todos to []; the date is the partial's when it is a non-empty
   * (truthy) value, else the id.
   */
  function NewGoalData(id: string, p: PartialData): (r: NodeData)
    ensures r.date == if p.date.Some? && p.date.value != "" then p.date.value else id
    ensures r.goal == p.goal.GetOr("") && r.completed == p.completed.GetOr(false)
    ensures r.summary == p.summary && r.todos == p.todos.GetOr([])
  {
    NodeData(
      if p.date.Some? && p.date.value != "" then p.date.value else id,
      if p.goal.Some? && p.goal.value != "" then p.goal.value else "",
      p.completed.GetOr(false),
      p.summary,
      if p.todos.Some? then p.todos.value else [])
  }

  /**
   * updateGoal(id, partial). An existing id: merge the partial into every
   * matching node, keep the edges, persist the first match merged with the
   * partial. An absent id: append a new day, link it from the latest earlier
   * day (the first such node in list order when several share that date),
   * persist the new data.
   */
  function AfterUpdateGoal(g: GraphState, id: string, p: PartialData, pos: Position): (r: UpdateOutcome)
    ensures FindById(g.nodes, id).Some? ==>
              && r.graph.nodes == UpdateWhere(g.nodes, id, d => Merge(d, p))
              && r.graph.edges == g.edges
              && r.persisted == Merge(FindById(g.nodes, id).value.data, p)
    ensures FindById(g.nodes, id).None? ==>
              && r.graph.nodes == g.nodes + [Node(id, pos, r.persisted)]
              && r.persisted == NewGoalData(id, p)
              && ((forall n :: n in g.nodes ==> !Before(n.data.date, r.persisted.date)) ==> r.graph.edges == g.edges)
              && ((exists n :: n in g.nodes && Before(n.data.date, r.persisted.date)) ==>
                    exists i :: FirstLatestAt(g.nodes, r.persisted.date, i)
                                && r.graph.edges == g.edges + [Link(g.nodes[i].id, id)])
  {
    match FindById(g.nodes, id)
    case Some(existing) =>
      UpdateOutcome(GraphState(UpdateWhere(g.nodes, id, d => Merge(d, p)), g.edges), Merge(existing.data, p))
    case None =>
      var data := NewGoalData(id, p);
      var prev := LatestEarlier(g.nodes, data.date);
      var link := if prev.Some? then [Link(prev.value.id, id)] else [];
      UpdateOutcome(GraphState(g.nodes + [Node(id, pos, data)], g.edges + link), data)
  }

  /* ------------------------------------------------------------------------ */
  /*  The session's graph                                                      */
  /* ------------------------------------------------------------------------ */

  class Graph {
    var nodes: seq<Node>
    var edges: seq<Edge>
    /** Every `upsertDailyGoal` call the setters fired, in order. */
    ghost var upserts: seq<NodeData>

    function State(): GraphState
      reads this
    {
      GraphState(nodes, edges)
    }

    constructor (initialNodes: seq<Node>, initialEdges: seq<Edge>)
      ensures nodes == initialNodes && edges == initialEdges && upserts == []
    {
      nodes := initialNodes;
      edges := initialEdges;
      upserts := [];
    }

    method CreateDayNode(date: DayKey, goal: string, pos: Position)
      modifies this
      ensures State() == AfterCreateDayNode(old(State()), date, goal, pos)
      ensures upserts == old(upserts)
    {
      var current := nodes;
      nodes := current + [DayNode(date, goal, pos)];
      var prev := GreatestEarlierId(current, date);
      if prev.Some? {
        edges := edges + [Link(prev.value, date)];
      }
    }

    method SetGoalSummary(id: string, summary: string)
      modifies this
      ensures nodes == WithSummary(old(nodes), id, summary)
      ensures edges == old(edges) && upserts == old(upserts)
    {
      nodes := WithSummary(nodes, id, summary);
    }

    method AddTodo(id: string, text: string, uuid: nat -> string)
      modifies this
      ensures nodes == WithTodo(old(nodes), id, text, uuid)
      ensures edges == old(edges) && upserts == old(upserts)
    {
      nodes := WithTodo(nodes, id, text, uuid);
    }

    method MarkTodoComplete(id: string, todoId: string)
      modifies this
      ensures nodes == WithTodoCompleted(old(nodes), id, todoId)
      ensures edges == old(edges) && upserts == old(upserts)
    {
      nodes := WithTodoCompleted(nodes, id, todoId);
    }

    method MarkGoalComplete(id: string)
      modifies this
      ensures nodes == WithGoalCompleted(old(nodes), id)
      ensures edges == old(edges) && upserts == old(upserts)
    {
      nodes := WithGoalCompleted(nodes, id);
    }

    method UpdateGoal(id: string, partial: PartialData, pos: Position)
      modifies this
      ensures State() == AfterUpdateGoal(old(State()), id, partial, pos).graph
      ensures upserts == old(upserts) + [AfterUpdateGoal(old(State()), id, partial, pos).persisted]
    {
      var existing := FindById(nodes, id);
      if existing.Some? {
        nodes := UpdateWhere(nodes, id, d => Merge(d, partial));
        upserts := upserts + [Merge(existing.value.data, partial)];
      } else {
        var data := NewGoalData(id, partial);
        var current := nodes;
        nodes := current + [Node(id, pos, data)];
        var prev := LatestEarlier(current, data.date);
        if prev.Some? {
          edges := edges + [Link(prev.value.id, id)];
        }
        upserts := upserts + [data];
      }
    }
  }

  /* ------------------------------------------------------------------------ */
  /*  Properties                                                               */
  /* ------------------------------------------------------------------------ */

  /** Merging the same partial twice is merging it once. */
  lemma MergeIdempotent(d: NodeData, p: PartialData)
    ensures Merge(Merge(d, p), p) == Merge(d, p)
  {
  }
}
