/**
 * The initial load of the canvas (useDailyGoalsData.ts): the listed rows are
 * sorted by date and turned into nodes laid out on a grid, one row per month
 * in order of first appearance and one column per day within the month, and
 * consecutive nodes are chained by edges.
 */
module InitialLoad {
  import opened Wrappers
  import opened DayKeys
  import opened GoalGraph
  import opened RowStore

  /* ------------------------------------------------------------------------ */
  /*  Sequence helpers                                                         */
  /* ------------------------------------------------------------------------ */

  /** The position of the first `x` in `s`. */
  function IndexOf(s: seq<string>, x: string): (r: nat)
    requires x in s
    ensures r < |s| && s[r] == x
    ensures forall j :: 0 <= j < r ==> s[j] != x
  {
    if s[0] == x then 0 else 1 + IndexOf(s[1..], x)
  }

  lemma {:induction false} IndexOfPrefix(s: seq<string>, t: seq<string>, x: string)
    requires s <= t && x in s
    ensures IndexOf(t, x) == IndexOf(s, x)
  {
    if s[0] != x {
      IndexOfPrefix(s[1..], t[1..], x);
    }
  }

  /** `rows.filter((r) => r.date.slice(0, 7) === monthKey)`. */
  function SameMonth(rows: seq<Row>, monthKey: string): (r: seq<Row>)
    ensures |r| <= |rows|
    decreases |rows|
  {
    if |rows| == 0 then []
    else
      var init := rows[..|rows| - 1];
      var last := rows[|rows| - 1];
      SameMonth(init, monthKey) + (if MonthKey(last.date) == monthKey then [last] else [])
  }

  /** The filter keeps exactly the rows of that month. */
  lemma {:induction false} SameMonthMembers(rows: seq<Row>, monthKey: string)
    ensures forall x :: x in SameMonth(rows, monthKey) <==> x in rows && MonthKey(x.date) == monthKey
    decreases |rows|
  {
    if |rows| > 0 {
      var init := rows[..|rows| - 1];
      assert rows == init + [rows[|rows| - 1]];
      SameMonthMembers(init, monthKey);
    }
  }

  lemma {:induction false} SameMonthAppend(a: seq<Row>, b: seq<Row>, monthKey: string)
    ensures SameMonth(a + b, monthKey) == SameMonth(a, monthKey) + SameMonth(b, monthKey)
    decreases |b|
  {
    if |b| == 0 {
      assert a + b == a;
    } else {
      var b' := b[..|b| - 1];
      assert (a + b)[..|a + b| - 1] == a + b';
      SameMonthAppend(a, b', monthKey);
    }
  }

  /** `findIndex((r) => r.id === id)`: the index of the first row with that id, or -1. */
  function FindIndexById(rows: seq<Row>, id: string): (r: int)
    ensures -1 <= r < |rows|
    ensures r == -1 <==> forall x :: x in rows ==> x.id != id
    ensures r >= 0 ==> rows[r].id == id && forall j :: 0 <= j < r ==> rows[j].id != id
  {
    if |rows| == 0 then -1
    else if rows[0].id == id then 0
    else
      var k := FindIndexById(rows[1..], id);
      assert forall x :: x in rows ==> x == rows[0] || x in rows[1..];
      if k == -1 then -1 else k + 1
  }

  /* ------------------------------------------------------------------------ */
  /*  Grid coordinates                                                         */
  /* ------------------------------------------------------------------------ */

  /** The month keys of the rows, each once, in order of first appearance. */
  function Months(rows: seq<Row>): (ms: seq<string>)
    ensures forall i :: 0 <= i < |rows| ==> MonthKey(rows[i].date) in ms
    ensures forall p, q :: 0 <= p < q < |ms| ==> ms[p] != ms[q]
    decreases |rows|
  {
    if |rows| == 0 then []
    else
      var init := rows[..|rows| - 1];
      var k := MonthKey(rows[|rows| - 1].date);
      var ms := Months(init);
      assert forall i :: 0 <= i < |init| ==> init[i] == rows[i];
      if k in ms then ms else ms + [k]
  }

  /** Every month listed is the month of some row. */
  lemma {:induction false} MonthsOfRows(rows: seq<Row>, k: string)
    requires k in Months(rows)
    ensures exists i :: 0 <= i < |rows| && MonthKey(rows[i].date) == k
    decreases |rows|
  {
    var init := rows[..|rows| - 1];
    if k in Months(init) {
      MonthsOfRows(init, k);
      var i :| 0 <= i < |init| && MonthKey(init[i].date) == k;
      assert init[i] == rows[i];
    } else {
      assert MonthKey(rows[|rows| - 1].date) == k;
    }
  }

  /** The months seen in a prefix of the rows are a prefix of the months of all rows. */
  lemma {:induction false} MonthsPrefix(rows: seq<Row>, i: nat)
    requires i <= |rows|
    ensures Months(rows[..i]) <= Months(rows)
    decreases |rows|
  {
    if i < |rows| {
      var init := rows[..|rows| - 1];
      assert rows[..i] == init[..i];
      MonthsPrefix(init, i);
    } else {
      assert rows[..i] == rows;
    }
  }

  /** The month index of row `i`. */
  function MonthIndex(rows: seq<Row>, i: nat): nat
    requires i < |rows|
  {
    IndexOf(Months(rows), MonthKey(rows[i].date))
  }

  /** The day index of row `i`: where its id is first found among the rows of its month. */
  function DayIndex(rows: seq<Row>, i: nat): int
    requires i < |rows|
  {
    FindIndexById(SameMonth(rows, MonthKey(rows[i].date)), rows[i].id)
  }

  /** The node data of a row: a null or empty summary becomes absent. */
  function RowData(row: Row): (d: NodeData)
    ensures d.date == row.date && d.goal == row.goal && d.completed == row.completed && d.todos == row.todos
    ensures d.summary.None? <==> row.summary.None? || row.summary == Some("")
    ensures d.summary.Some? ==> d.summary == row.summary
  {
    NodeData(row.date, row.goal, row.completed,
             if row.summary.Some? && row.summary.value != "" then row.summary else None,
             row.todos)
  }

  /** The node of a row at grid cell (dayIdx, monthIdx). */
  function GridNode(row: Row, monthIdx: int, dayIdx: int): Node {
    Node(row.id, Position((150 + dayIdx * 300) as real, (100 + monthIdx * 250) as real), RowData(row))
  }

  /** What reading row `i` adds to the months seen so far. */
  lemma {:induction false} MonthsStep(rows: seq<Row>, i: nat)
    requires i < |rows|
    ensures var before, k := Months(rows[..i]), MonthKey(rows[i].date);
            && k in Months(rows)
            && (k in before ==> Months(rows[..i + 1]) == before)
            && (k !in before ==> Months(rows[..i + 1]) == before + [k] && IndexOf(Months(rows), k) == |before|)
  {
    var before, k := Months(rows[..i]), MonthKey(rows[i].date);
    assert rows[..i + 1][..i] == rows[..i];
    MonthsPrefix(rows, i + 1);
    var all := Months(rows);
    if k !in before {
      assert all[|before|] == k;
      assert forall j :: 0 <= j < |before| ==> all[j] == before[j];
    }
  }

  /** The node the load builds for row `i` of the sorted rows. */
  function RowNode(rows: seq<Row>, i: nat): Node
    requires i < |rows|
  {
    GridNode(rows[i], MonthIndex(rows, i), DayIndex(rows, i))
  }

  /** The month counter after `i` rows: each month seen so far mapped to its index. */
  ghost predicate MonthTable(rows: seq<Row>, i: nat, monthOrder: map<string, nat>, monthCount: nat)
    requires i <= |rows|
  {
    && monthCount == |Months(rows[..i])|
    && (forall k :: k in monthOrder <==> k in Months(rows[..i]))
    && (forall k :: k in monthOrder ==> k in Months(rows) && monthOrder[k] == IndexOf(Months(rows), k))
  }

  lemma {:induction false} MonthTableStart(rows: seq<Row>)
    ensures MonthTable(rows, 0, map[], 0)
  {
    assert rows[..0] == [];
  }

  /** Reading row `i`: a month already counted keeps its index, a new one gets the counter. */
  lemma {:induction false} MonthTableStep(rows: seq<Row>, i: nat, monthOrder: map<string, nat>, monthCount: nat)
    requires i < |rows| && MonthTable(rows, i, monthOrder, monthCount)
    ensures var k := MonthKey(rows[i].date);
            && (k in monthOrder ==> monthOrder[k] == MonthIndex(rows, i) && MonthTable(rows, i + 1, monthOrder, monthCount))
            && (k !in monthOrder ==> monthCount == MonthIndex(rows, i)
                                     && MonthTable(rows, i + 1, monthOrder[k := monthCount], monthCount + 1))
  {
    var k := MonthKey(rows[i].date);
    if k in monthOrder {
      MonthTableKeep(rows, i, monthOrder, monthCount);
    } else {
      MonthTableAdd(rows, i, monthOrder, monthCount);
    }
  }

  lemma {:induction false} MonthTableKeep(rows: seq<Row>, i: nat, monthOrder: map<string, nat>, monthCount: nat)
    requires i < |rows| && MonthTable(rows, i, monthOrder, monthCount)
    requires MonthKey(rows[i].date) in monthOrder
    ensures monthOrder[MonthKey(rows[i].date)] == MonthIndex(rows, i)
    ensures MonthTable(rows, i + 1, monthOrder, monthCount)
  {
    MonthsStep(rows, i);
    assert Months(rows[..i + 1]) == Months(rows[..i]);
  }

  lemma {:induction false} MonthTableAdd(rows: seq<Row>, i: nat, monthOrder: map<string, nat>, monthCount: nat)
    requires i < |rows| && MonthTable(rows, i, monthOrder, monthCount)
    requires MonthKey(rows[i].date) !in monthOrder
    ensures monthCount == MonthIndex(rows, i)
    ensures MonthTable(rows, i + 1, monthOrder[MonthKey(rows[i].date) := monthCount], monthCount + 1)
  {
    var before, k := Months(rows[..i]), MonthKey(rows[i].date);
    MonthsStep(rows, i);
    var after := Months(rows[..i + 1]);
    assert after == before + [k];
    assert IndexOf(Months(rows), k) == monthCount;
    var m := monthOrder[k := monthCount];
    assert forall k' :: k' in m <==> k' in after;
    assert forall k' :: k' in m ==> k' in Months(rows) && m[k'] == IndexOf(Months(rows), k');
  }

  /** Appending the node of the next row keeps the nodes built so far the row nodes. */
  lemma {:induction false} RowNodesExtend(rows: seq<Row>, nodes: seq<Node>, node: Node)
    requires |nodes| < |rows|
    requires forall j :: 0 <= j < |nodes| ==> nodes[j] == RowNode(rows, j)
    requires node == RowNode(rows, |nodes|)
    ensures forall j :: 0 <= j < |nodes| + 1 ==> (nodes + [node])[j] == RowNode(rows, j)
  {
  }

  /** The `rows.map` callback run over the date-sorted rows, with its month counter. */
  method BuildNodes(rows: seq<Row>) returns (nodes: seq<Node>)
    ensures |nodes| == |rows|
    ensures forall i :: 0 <= i < |rows| ==> nodes[i] == RowNode(rows, i)
  {
    var monthOrder: map<string, nat> := map[];
    var monthCount: nat := 0;
    MonthTableStart(rows);
    nodes := [];
    var i := 0;
    while i < |rows|
      invariant 0 <= i <= |rows| && |nodes| == i
      invariant MonthTable(rows, i, monthOrder, monthCount)
      invariant forall j :: 0 <= j < i ==> nodes[j] == RowNode(rows, j)
    {
      var row := rows[i];
      var monthKey := MonthKey(row.date);
      MonthTableStep(rows, i, monthOrder, monthCount);
      if monthKey !in monthOrder {
        monthOrder := monthOrder[monthKey := monthCount];
        monthCount := monthCount + 1;
      }
      var monthIdx := monthOrder[monthKey];
      var dayIdx := DayIndex(rows, i);
      var node := GridNode(row, monthIdx, dayIdx);
      assert node == RowNode(rows, i);
      RowNodesExtend(rows, nodes, node);
      nodes := nodes + [node];
      i := i + 1;
    }
  }

  /** The edges between consecutive nodes, `e<a>-<b>` from node i-1 to node i. */
  function ChainEdges(nodes: seq<Node>): (r: seq<Edge>)
    ensures |r| == if |nodes| == 0 then 0 else |nodes| - 1
    ensures forall i :: 0 <= i < |r| ==> r[i] == Link(nodes[i].id, nodes[i + 1].id)
  {
    if |nodes| == 0 then []
    else seq(|nodes| - 1, i requires 0 <= i < |nodes| - 1 => Link(nodes[i].id, nodes[i + 1].id))
  }

  /**
   * The load effect once the rows are listed: no rows leave the graph empty;
   * otherwise one node per row of the date-sorted rows, in that order, chained.
   */
  method LoadGraph(rows: seq<Row>) returns (nodes: seq<Node>, edges: seq<Edge>)
    ensures |rows| == 0 ==> nodes == [] && edges == []
    ensures var sorted := SortByDate(rows);
            && |nodes| == |sorted|
            && forall i :: 0 <= i < |nodes| ==> nodes[i] == RowNode(sorted, i)
    ensures forall i, j :: 0 <= i < j < |nodes| ==> !Before(nodes[j].data.date, nodes[i].data.date)
    ensures edges == ChainEdges(nodes)
  {
    if |rows| == 0 {
      return [], [];
    }
    var sorted := SortByDate(rows);
    nodes := BuildNodes(sorted);
    edges := ChainEdges(nodes);
  }

  /* ------------------------------------------------------------------------ */
  /*  Properties                                                               */
  /* ------------------------------------------------------------------------ */

  /**
   * Month indices are 0, 1, 2, ... in order of first appearance: the row
   * where a month first appears gets the number of months seen before it.
   */
  lemma {:induction false} MonthIndexAtFirstAppearance(rows: seq<Row>, i: nat)
    requires i < |rows|
    requires forall j :: 0 <= j < i ==> MonthKey(rows[j].date) != MonthKey(rows[i].date)
    ensures MonthIndex(rows, i) == |Months(rows[..i])|
  {
    var k := MonthKey(rows[i].date);
    var before := Months(rows[..i]);
    assert rows[..i + 1][..i] == rows[..i];
    assert forall j :: 0 <= j < i ==> rows[..i][j] == rows[j];
    if k in before {
      MonthsOfRows(rows[..i], k);
    }
    assert k !in before;
    assert Months(rows[..i + 1]) == before + [k];
    MonthsPrefix(rows, i + 1);
    assert Months(rows)[|before|] == k;
  }

  /** Every row's day index is a real index: the row is among the rows of its own month. */
  lemma {:induction false} DayIndexFound(rows: seq<Row>, i: nat)
    requires i < |rows|
    ensures 0 <= DayIndex(rows, i) < |SameMonth(rows, MonthKey(rows[i].date))|
  {
    SameMonthMembers(rows, MonthKey(rows[i].date));
    assert rows[i] in rows;
  }

  /** The rows of row `i`'s month are those before it, row `i`, and those after it. */
  lemma {:induction false} SameMonthSingle(x: Row)
    ensures SameMonth([x], MonthKey(x.date)) == [x]
  {
    assert [x][..0] == [];
  }

  lemma {:induction false} SameMonthAround(rows: seq<Row>, i: nat)
    requires i < |rows|
    ensures var k := MonthKey(rows[i].date);
            SameMonth(rows, k) == SameMonth(rows[..i], k) + [rows[i]] + SameMonth(rows[i + 1..], k)
  {
    var k := MonthKey(rows[i].date);
    var front, x, back := rows[..i], rows[i], rows[i + 1..];
    assert rows == front + [x] + back;
    SameMonthSingle(x);
    calc {
      SameMonth(rows, k);
      SameMonth(front + [x] + back, k);
      { SameMonthAppend(front + [x], back, k); }
      SameMonth(front + [x], k) + SameMonth(back, k);
      { SameMonthAppend(front, [x], k); }
      SameMonth(front, k) + [x] + SameMonth(back, k);
    }
  }

  /** A row whose id no earlier row carries is found at its own position. */
  lemma {:induction false} FindIndexAfterFront(front: seq<Row>, x: Row, rest: seq<Row>)
    requires forall y :: y in front ==> y.id != x.id
    ensures FindIndexById(front + [x] + rest, x.id) == |front|
  {
    var all := front + [x] + rest;
    assert all[|front|] == x;
    assert forall j :: 0 <= j < |front| ==> all[j] == front[j] && front[j] in front;
  }

  /** With distinct ids, a row's day index counts the rows of its month before it. */
  lemma {:induction false} DayIndexCountsEarlierDays(rows: seq<Row>, i: nat)
    requires i < |rows|
    requires forall p, q :: 0 <= p < q < |rows| ==> rows[p].id != rows[q].id
    ensures DayIndex(rows, i) == |SameMonth(rows[..i], MonthKey(rows[i].date))|
  {
    var k := MonthKey(rows[i].date);
    var front := SameMonth(rows[..i], k);
    SameMonthAround(rows, i);
    SameMonthMembers(rows[..i], k);
    forall x | x in front
      ensures x.id != rows[i].id
    {
      var j :| 0 <= j < i && rows[..i][j] == x;
    }
    FindIndexAfterFront(front, rows[i], SameMonth(rows[i + 1..], k));
  }
}
