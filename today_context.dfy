/**
 * The chat context about today (context.ts): the node whose day is today is
 * kept in a list of at most one element, and that list is projected into a
 * `todayGoal` context entry. Today's day key is a parameter.
 */
module TodayContext {
  import opened Wrappers
  import opened DayKeys
  import opened GoalGraph

  /** `nodes.find(...)` on the day key of each node's date. */
  function FindByDay(nodes: seq<Node>, day: DayKey): (r: Option<Node>)
    ensures r.None? <==> forall n :: n in nodes ==> n.data.date != day
    ensures r.Some? ==> exists i :: 0 <= i < |nodes| && nodes[i] == r.value && r.value.data.date == day
                                    && forall j :: 0 <= j < i ==> nodes[j].data.date != day
  {
    if |nodes| == 0 then None
    else if nodes[0].data.date == day then Some(nodes[0])
    else
      var r := FindByDay(nodes[1..], day);
      assert forall n :: n in nodes ==> n == nodes[0] || n in nodes[1..];
      if r.Some? then
        var i :| 0 <= i < |nodes[1..]| && nodes[1..][i] == r.value && r.value.data.date == day
                 && forall j :: 0 <= j < i ==> nodes[1..][j].data.date != day;
        assert nodes[i + 1] == r.value;
        r
      else r
  }

  /** The list the effect stores: today's node alone, or nothing. */
  function TodayNodes(nodes: seq<Node>, today: DayKey): (r: seq<Node>)
    ensures |r| <= 1
    ensures r == [] <==> forall n :: n in nodes ==> n.data.date != today
    ensures r != [] ==> r[0] in nodes && r[0].data.date == today
  {
    match FindByDay(nodes, today)
    case Some(n) => [n]
    case None => []
  }

  /** One `todayGoal` entry; a missing summary is written as the empty string. */
  datatype GoalEntry = GoalEntry(
    id: string,
    date: DayKey,
    goal: string,
    completed: bool,
    summary: string,
    todos: seq<Todo>)

  function Entry(n: Node): (e: GoalEntry)
    ensures e.id == n.id && e.date == n.data.date && e.goal == n.data.goal
    ensures e.completed == n.data.completed && e.todos == n.data.todos
    ensures n.data.summary.None? ==> e.summary == ""
    ensures n.data.summary.Some? ==> e.summary == n.data.summary.value
  {
    GoalEntry(n.id, n.data.date, n.data.goal, n.data.completed, n.data.summary.GetOr(""), n.data.todos)
  }

  /** The context object: empty for an empty list, else a single `todayGoal` key holding one entry per node. */
  function ContextOf(arr: seq<Node>): (r: map<string, seq<GoalEntry>>)
    ensures |arr| == 0 <==> r == map[]
    ensures |arr| > 0 ==> r.Keys == {"todayGoal"} && |r["todayGoal"]| == |arr|
                          && forall i :: 0 <= i < |arr| ==> r["todayGoal"][i] == Entry(arr[i])
  {
    if |arr| == 0 then map[]
    else
      var m := map["todayGoal" := seq(|arr|, i requires 0 <= i < |arr| => Entry(arr[i]))];
      assert "todayGoal" in m;
      m
  }

  /** The context carries a today entry exactly when some node is dated today, and then it is the first such node. */
  lemma ContextHasTodayIffNodeToday(nodes: seq<Node>, today: DayKey)
    ensures "todayGoal" in ContextOf(TodayNodes(nodes, today)) <==> exists n :: n in nodes && n.data.date == today
    ensures "todayGoal" in ContextOf(TodayNodes(nodes, today)) ==>
              var e := ContextOf(TodayNodes(nodes, today))["todayGoal"];
              |e| == 1 && e[0].date == today && e[0] == Entry(FindByDay(nodes, today).value)
  {
  }

  /** The hook's state: the selected nodes and today's node list. */
  class DailyGoalsContext {
    var selectedNodes: seq<Node>
    var todayNodes: seq<Node>

    /** Both lists start empty. */
    constructor ()
      ensures selectedNodes == [] && todayNodes == []
    {
      selectedNodes := [];
      todayNodes := [];
    }

    /** The context object subscribed to the chat input. */
    function Context(): map<string, seq<GoalEntry>>
      reads this
    {
      ContextOf(todayNodes)
    }

    /** The effect that runs when the node list changes; the selection is untouched. */
    method Refresh(nodes: seq<Node>, today: DayKey)
      modifies this
      ensures todayNodes == TodayNodes(nodes, today)
      ensures selectedNodes == old(selectedNodes)
    {
      var todayNode := FindByDay(nodes, today);
      todayNodes := if todayNode.Some? then [todayNode.value] else [];
    }

    /** The selection setter the hook hands back. */
    method SetSelectedNodes(sel: seq<Node>)
      modifies this
      ensures selectedNodes == sel && todayNodes == old(todayNodes)
    {
      selectedNodes := sel;
    }
  }
}
