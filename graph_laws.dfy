/**
 * Laws that tie the pieces of the day graph together: the edges the setters
 * add against the chain the initial load builds, the two predecessor rules
 * against each other, updateGoal against the row store, and the mention
 * labels of the loaded chain.
 */
module GraphLaws {
  import opened Wrappers
  import opened DayKeys
  import opened GoalGraph
  import opened RowStore
  import opened Setters
  import opened InitialLoad
  import opened Mentions

  /* ------------------------------------------------------------------------ */
  /*  The two predecessor rules                                                */
  /* ------------------------------------------------------------------------ */

  /** Every node is keyed by its own day, as createDayNode and the initial load make them. */
  ghost predicate KeyedByDate(nodes: seq<Node>) {
    forall n :: n in nodes ==> n.id == n.data.date
  }

  /**
   * On nodes keyed by their own day, createDayNode's rule (greatest earlier
   * id) and updateGoal's rule (latest earlier date) pick the same day.
   */
  lemma {:induction false} PredecessorRulesAgree(nodes: seq<Node>, date: DayKey)
    requires KeyedByDate(nodes)
    ensures GreatestEarlierId(nodes, date).None? <==> LatestEarlier(nodes, date).None?
    ensures LatestEarlier(nodes, date).Some? ==>
              GreatestEarlierId(nodes, date) == Some(LatestEarlier(nodes, date).value.id)
  {
    var p := GreatestEarlierId(nodes, date);
    var n := LatestEarlier(nodes, date);
    if n.Some? {
      var m :| m in nodes && Before(m.data.date, date) && m.id == p.value;
      // p is not below n's id, and n's date is not below m's date = p.
      assert !Before(p.value, n.value.id);
      assert !Before(n.value.id, p.value);
      BeforeTotal(p.value, n.value.id);
    }
  }

  /** Two days where the rules differ: a node whose id is not its date. */
  function Mismatched(): seq<Node> {
    [Node("3", Position(0.0, 0.0), NodeData("1", "", false, None, [])),
     Node("2", Position(0.0, 0.0), NodeData("2", "", false, None, []))]
  }

  /**
   * With a node keyed `3` but dated `1` and a node keyed and dated `2`, a
   * new day `5` is linked from `3` by createDayNode but from `2` by updateGoal.
   */
  lemma {:induction false} PredecessorRulesDiffer()
    ensures GreatestEarlierId(Mismatched(), "5") == Some("3")
    ensures LatestEarlier(Mismatched(), "5").Some? && LatestEarlier(Mismatched(), "5").value.id == "2"
  {
    var nodes := Mismatched();
    assert Before("1", "5") && Before("2", "5") && Before("2", "3") && Before("1", "2");
    assert nodes[1..] == [nodes[1]];
    assert nodes[1..][1..] == [];
  }

  /* ------------------------------------------------------------------------ */
  /*  createDayNode in date order builds the load's chain                      */
  /* ------------------------------------------------------------------------ */

  /** Strictly increasing day keys. */
  ghost predicate Ascending(dates: seq<DayKey>) {
    forall i, j :: 0 <= i < j < |dates| ==> Before(dates[i], dates[j])
  }

  /** The graph after createDayNode(dates[0]), createDayNode(dates[1]), ... from `g`. */
  function CreateAll(g: GraphState, dates: seq<DayKey>, goal: string, pos: Position): GraphState
    decreases |dates|
  {
    if |dates| == 0 then g
    else CreateAll(AfterCreateDayNode(g, dates[0], goal, pos), dates[1..], goal, pos)
  }

  /** The nodes createDayNode builds for the days, in order. */
  function DayNodes(dates: seq<DayKey>, goal: string, pos: Position): seq<Node>
    decreases |dates|
  {
    if |dates| == 0 then [] else [DayNode(dates[0], goal, pos)] + DayNodes(dates[1..], goal, pos)
  }

  /** Among nodes keyed by strictly increasing days, a later day's predecessor is the last node. */
  lemma {:induction false} GreatestEarlierIsLast(nodes: seq<Node>, date: DayKey)
    requires |nodes| > 0 && KeyedByDate(nodes)
    requires forall i, j :: 0 <= i < j < |nodes| ==> Before(nodes[i].data.date, nodes[j].data.date)
    requires Before(nodes[|nodes| - 1].data.date, date)
    ensures GreatestEarlierId(nodes, date) == Some(nodes[|nodes| - 1].id)
  {
    var last := nodes[|nodes| - 1];
    assert last in nodes;
    var p := GreatestEarlierId(nodes, date).value;
    var m :| m in nodes && Before(m.data.date, date) && m.id == p;
    assert forall j :: 0 <= j < |nodes| - 1 ==> Before(nodes[j].id, last.id) by {
      forall j | 0 <= j < |nodes| - 1 ensures Before(nodes[j].id, last.id) {
        assert nodes[j] in nodes;
      }
    }
    assert !Before(p, last.id);
  }

  /** Nodes keyed by strictly increasing days, linked in a chain. */
  ghost predicate ChainedInOrder(g: GraphState) {
    && KeyedByDate(g.nodes)
    && (forall i, j :: 0 <= i < j < |g.nodes| ==> Before(g.nodes[i].data.date, g.nodes[j].data.date))
    && g.edges == ChainEdges(g.nodes)
  }

  /** Appending a node extends the chain by one edge from the former last node. */
  lemma {:induction false} ChainEdgesSnoc(nodes: seq<Node>, x: Node)
    requires |nodes| > 0
    ensures ChainEdges(nodes + [x]) == ChainEdges(nodes) + [Link(nodes[|nodes| - 1].id, x.id)]
  {
    var a, b := ChainEdges(nodes + [x]), ChainEdges(nodes) + [Link(nodes[|nodes| - 1].id, x.id)];
    assert forall i :: 0 <= i < |a| ==> a[i] == b[i];
  }

  /** One createDayNode of a day later than every day so far keeps the graph a chain in date order. */
  lemma {:induction false} CreateLaterDay(g: GraphState, d: DayKey, goal: string, pos: Position)
    requires ChainedInOrder(g)
    requires |g.nodes| > 0 ==> Before(g.nodes[|g.nodes| - 1].data.date, d)
    ensures var g' := AfterCreateDayNode(g, d, goal, pos);
            ChainedInOrder(g') && g'.nodes == g.nodes + [DayNode(d, goal, pos)]
  {
    var g' := AfterCreateDayNode(g, d, goal, pos);
    assert g'.nodes == g.nodes + [DayNode(d, goal, pos)];
    if |g.nodes| > 0 {
      GreatestEarlierIsLast(g.nodes, d);
      ChainEdgesSnoc(g.nodes, DayNode(d, goal, pos));
    }
    forall i, j | 0 <= i < j < |g'.nodes| ensures Before(g'.nodes[i].data.date, g'.nodes[j].data.date) {
      if j == |g.nodes| && i < |g.nodes| - 1 {
        BeforeTransitive(g.nodes[i].data.date, g.nodes[|g.nodes| - 1].data.date, d);
      }
    }
  }

  /**
   * Creating days one at a time in increasing date order, from a chain in
   * date order (the empty graph, say), appends one node per day keyed by
   * that day, linked in a chain exactly as the initial load links
   * date-sorted rows.
   */
  lemma {:induction false} CreateInOrderBuildsChain(g: GraphState, dates: seq<DayKey>, goal: string, pos: Position)
    requires ChainedInOrder(g) && Ascending(dates)
    requires |g.nodes| > 0 && |dates| > 0 ==> Before(g.nodes[|g.nodes| - 1].data.date, dates[0])
    ensures var r := CreateAll(g, dates, goal, pos);
            && ChainedInOrder(r)
            && r.nodes == g.nodes + DayNodes(dates, goal, pos)
    decreases |dates|
  {
    if |dates| == 0 {
      assert g.nodes + [] == g.nodes;
    } else {
      var d := dates[0];
      var x, rest := DayNode(d, goal, pos), DayNodes(dates[1..], goal, pos);
      assert g.nodes + ([x] + rest) == (g.nodes + [x]) + rest;
      CreateLaterDay(g, d, goal, pos);
      var g' := AfterCreateDayNode(g, d, goal, pos);
      assert Ascending(dates[1..]);
      assert |dates| > 1 ==> Before(d, dates[1..][0]);
      CreateInOrderBuildsChain(g', dates[1..], goal, pos);
      assert DayNodes(dates, goal, pos) == [x] + rest;
    }
  }

  /* ------------------------------------------------------------------------ */
  /*  updateGoal and the row store                                             */
  /* ------------------------------------------------------------------------ */

  /**
   * updateGoal run twice with the same partial leaves the graph of the first
   * run and persists the same data again, on an existing day or for a partial
   * without a date. A new day with a dated partial is excluded: the first run
   * stores `new Date(partial.date)`, the second merges the raw string in.
   */
  lemma {:induction false} UpdateGoalTwice(g: GraphState, id: string, p: PartialData, pos: Position, pos': Position)
    requires FindById(g.nodes, id).Some? || p.date.None?
    ensures var first := AfterUpdateGoal(g, id, p, pos);
            var second := AfterUpdateGoal(first.graph, id, p, pos');
            second.graph == first.graph && second.persisted == first.persisted
  {
    if FindById(g.nodes, id).Some? {
      UpdateGoalTwiceExisting(g, id, p, pos, pos');
    } else {
      UpdateGoalTwiceNew(g, id, p, pos, pos');
    }
  }

  /** Updating nodes with a function that leaves their data as it is changes nothing. */
  lemma {:induction false} UpdateWhereFixed(nodes: seq<Node>, id: string, f: NodeData -> NodeData)
    requires forall j :: 0 <= j < |nodes| && nodes[j].id == id ==> f(nodes[j].data) == nodes[j].data
    ensures UpdateWhere(nodes, id, f) == nodes
  {
    var r := UpdateWhere(nodes, id, f);
    assert forall j :: 0 <= j < |nodes| ==> r[j] == nodes[j];
  }

  /** After an update, `find` returns the updated first match. */
  lemma {:induction false} FindAfterUpdateWhere(nodes: seq<Node>, id: string, f: NodeData -> NodeData)
    requires FindById(nodes, id).Some?
    ensures var n := FindById(nodes, id).value;
            FindById(UpdateWhere(nodes, id, f), id) == Some(n.(data := f(n.data)))
  {
    var n := FindById(nodes, id).value;
    var k :| 0 <= k < |nodes| && nodes[k] == n && n.id == id && forall j :: 0 <= j < k ==> nodes[j].id != id;
    var r := UpdateWhere(nodes, id, f);
    assert forall j :: 0 <= j < k ==> r[j].id != id;
    FindByIdAt(r, id, k);
  }

  lemma {:induction false} UpdateGoalTwiceExisting(g: GraphState, id: string, p: PartialData, pos: Position, pos': Position)
    requires FindById(g.nodes, id).Some?
    ensures var first := AfterUpdateGoal(g, id, p, pos);
            var second := AfterUpdateGoal(first.graph, id, p, pos');
            second.graph == first.graph && second.persisted == first.persisted
  {
    var f := (d: NodeData) => Merge(d, p);
    var existing := FindById(g.nodes, id).value;
    var nodes := UpdateWhere(g.nodes, id, f);
    FindAfterUpdateWhere(g.nodes, id, f);
    MergeIdempotent(existing.data, p);
    forall j | 0 <= j < |nodes| && nodes[j].id == id
      ensures f(nodes[j].data) == nodes[j].data
    {
      MergeIdempotent(g.nodes[j].data, p);
    }
    UpdateWhereFixed(nodes, id, f);
  }

  /** On a new day, a partial without a date: the second run finds the created day and changes nothing. */
  lemma {:induction false} UpdateGoalTwiceNew(g: GraphState, id: string, p: PartialData, pos: Position, pos': Position)
    requires FindById(g.nodes, id).None?
    requires p.date.None?
    ensures var first := AfterUpdateGoal(g, id, p, pos);
            var second := AfterUpdateGoal(first.graph, id, p, pos');
            second.graph == first.graph && second.persisted == first.persisted
  {
    var f := (d: NodeData) => Merge(d, p);
    var data := NewGoalData(id, p);
    var nodes := g.nodes + [Node(id, pos, data)];
    forall j | 0 <= j < |g.nodes|
      ensures nodes[j].id != id
    {
      assert nodes[j] == g.nodes[j] && g.nodes[j] in g.nodes;
    }
    FindByIdAt(nodes, id, |g.nodes|);
    assert Merge(data, p) == data;
    UpdateWhereFixed(nodes, id, f);
  }

  /**
   * On a table without a `created_at` column, for a partial without a date,
   * when the first persist of updateGoal was written, persisting the same day
   * again finds the stored row equal to the candidate and writes nothing.
   */
  lemma {:induction false} UpdateGoalTwicePersistsOnce(table: map<string, Row>, g: GraphState, id: string, p: PartialData,
                                    pos: Position, pos': Position)
    requires Unstamped(table)
    requires p.date.None?
    ensures var first := AfterUpdateGoal(g, id, p, pos);
            var stored := UpsertSpec(table, first.persisted, None, false, false);
            var second := AfterUpdateGoal(first.graph, id, p, pos');
            !UpsertSpec(stored.table, second.persisted, None, false, false).wrote
  {
    UpdateGoalTwice(g, id, p, pos, pos');
    UpsertTwiceWritesOnce(table, AfterUpdateGoal(g, id, p, pos).persisted, false);
  }

  /**
   * A day saved as a row and loaded back has the data it was saved with,
   * exactly when its summary is not the empty string: the load turns an
   * empty summary into an absent one.
   */
  lemma {:induction false} SaveThenLoad(d: NodeData)
    ensures RowData(Candidate(d)) == d <==> d.summary != Some("")
  {
    if d.summary == Some("") {
      assert RowData(Candidate(d)).summary == None;
    }
  }

  /* ------------------------------------------------------------------------ */
  /*  Mention labels of the loaded chain                                       */
  /* ------------------------------------------------------------------------ */

  /** A node with a unique id is what `find` returns for its id. */
  lemma {:induction false} FindUnique(nodes: seq<Node>, i: nat)
    requires i < |nodes|
    requires forall p, q :: 0 <= p < q < |nodes| ==> nodes[p].id != nodes[q].id
    ensures FindById(nodes, nodes[i].id) == Some(nodes[i])
  {
    FindByIdAt(nodes, nodes[i].id, i);
  }

  /** Each chain edge between days with distinct ids and non-empty dates is labelled with its day, the arrow, then the next day. */
  lemma {:induction false} ChainEdgeLabels(nodes: seq<Node>, i: nat)
    requires i + 1 < |nodes|
    requires forall p, q :: 0 <= p < q < |nodes| ==> nodes[p].id != nodes[q].id
    requires nodes[i].data.date != "" && nodes[i + 1].data.date != ""
    ensures EdgeLabel(nodes, ChainEdges(nodes)[i]) == nodes[i].data.date + Arrow + nodes[i + 1].data.date
  {
    FindUnique(nodes, i);
    FindUnique(nodes, i + 1);
  }
}
