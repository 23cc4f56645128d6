/**
 * The row store adapter (supabase.ts): one row per day in the `daily_goals`
 * table, keyed by the row id. The table is an in-memory map; each call's
 * error outcome from the database client is a parameter.
 */
module RowStore {
  import opened Wrappers
  import opened DayKeys
  import opened GoalGraph

  /**
   * `DailyGoalRow`. `summary` is `None` for a stored null; `createdAt` is
   * `None` when the row has no `created_at` field. Whole-row equality is the
   * deep equality the adapter compares rows with.
   */
  datatype Row = Row(
    id: string,
    date: DayKey,
    goal: string,
    completed: bool,
    summary: Option<string>,
    todos: seq<Todo>,
    createdAt: Option<string>)

  /** The row upsertDailyGoal builds from a day's data: id and date are its day key, summary null when absent. */
  function Candidate(goal: NodeData): (r: Row)
    ensures r.id == goal.date && r.date == goal.date
    ensures r.goal == goal.goal && r.completed == goal.completed && r.todos == goal.todos
    ensures r.summary == goal.summary
    ensures r.createdAt.None?
  {
    Row(goal.date, goal.date, goal.goal, goal.completed, goal.summary, goal.todos, None)
  }

  /* ------------------------------------------------------------------------ */
  /*  Date order                                                               */
  /* ------------------------------------------------------------------------ */

  ghost predicate SortedByDate(rows: seq<Row>) {
    forall i, j :: 0 <= i < j < |rows| ==> !Before(rows[j].date, rows[i].date)
  }

  /** No row of `rows` is dated strictly before `d`. */
  ghost predicate NoneBefore(rows: seq<Row>, d: DayKey) {
    forall y :: y in rows ==> !Before(y.date, d)
  }

  lemma {:induction false} SortedCons(x: Row, rows: seq<Row>)
    requires SortedByDate(rows) && NoneBefore(rows, x.date)
    ensures SortedByDate([x] + rows)
  {
    forall i, j | 0 <= i < j < |rows| + 1 ensures !Before(([x] + rows)[j].date, ([x] + rows)[i].date) {
      if i > 0 {
        assert ([x] + rows)[i] == rows[i - 1];
      }
      assert ([x] + rows)[j] == rows[j - 1] && rows[j - 1] in rows;
    }
  }

  /** A row not dated before the first row of a sorted list is not dated before any of them. */
  lemma {:induction false} NoneBeforeFromHead(d: DayKey, rows: seq<Row>)
    requires SortedByDate(rows) && |rows| > 0 && !Before(rows[0].date, d)
    ensures NoneBefore(rows, d)
  {
    forall y | y in rows ensures !Before(y.date, d) {
      var k :| 0 <= k < |rows| && rows[k] == y;
      if k > 0 && Before(y.date, d) {
        BeforeTotal(rows[0].date, d);
        if rows[0].date != d {
          BeforeTransitive(y.date, d, rows[0].date);
        }
      }
    }
  }

  /** What is inserted after the head of a sorted list, being dated after it, is not dated before it. */
  lemma {:induction false} InsertAfterHead(r: Row, rows: seq<Row>, rest: seq<Row>)
    requires SortedByDate(rows) && |rows| > 0 && Before(rows[0].date, r.date)
    requires multiset(rest) == multiset(rows[1..]) + multiset{r}
    ensures NoneBefore(rest, rows[0].date)
  {
    forall y | y in rest ensures !Before(y.date, rows[0].date) {
      assert y in multiset(rest);
      if y != r {
        assert y in multiset(rows[1..]);
        var k :| 0 <= k < |rows[1..]| && rows[1..][k] == y;
        assert rows[k + 1] == y;
      } else {
        BeforeAsymmetric(rows[0].date, r.date);
      }
    }
  }

  /** Insert `r` into date-sorted `rows` before the first row not dated before it. */
  function InsertByDate(r: Row, rows: seq<Row>): (s: seq<Row>)
    requires SortedByDate(rows)
    ensures multiset(s) == multiset(rows) + multiset{r}
    ensures SortedByDate(s)
    decreases |rows|
  {
    if |rows| == 0 then [r]
    else if !Before(rows[0].date, r.date) then
      NoneBeforeFromHead(r.date, rows);
      SortedCons(r, rows);
      [r] + rows
    else
      assert rows == [rows[0]] + rows[1..];
      var rest := InsertByDate(r, rows[1..]);
      InsertAfterHead(r, rows, rest);
      SortedCons(rows[0], rest);
      [rows[0]] + rest
  }

  /**
   * Rows in ascending date order: the order of the table's `order('date')`
   * listing and of the client's `rows.sort`. Rows sharing a date may come in
   * any order: neither the database's ordering nor the client's comparator
   * fixes it. This one keeps them in list order.
   */
  function SortByDate(rows: seq<Row>): (s: seq<Row>)
    ensures multiset(s) == multiset(rows)
    ensures SortedByDate(s)
    decreases |rows|
  {
    if |rows| == 0 then []
    else
      assert rows == [rows[0]] + rows[1..];
      InsertByDate(rows[0], SortByDate(rows[1..]))
  }

  /** No two different rows of `rows` share a date. */
  ghost predicate DistinctDates(rows: seq<Row>) {
    forall x, y :: x in rows && y in rows && x.date == y.date ==> x == y
  }

  /** The tail of a date-sorted list is date-sorted. */
  lemma {:induction false} SortedTail(a: seq<Row>)
    requires |a| > 0 && SortedByDate(a)
    ensures SortedByDate(a[1..])
  {
    forall i, j | 0 <= i < j < |a| - 1 ensures !Before(a[1..][j].date, a[1..][i].date) {
      assert a[1..][j] == a[j + 1] && a[1..][i] == a[i + 1];
    }
  }

  /** The head of a date-sorted list is not dated after any row of it. */
  lemma {:induction false} HeadNotAfter(a: seq<Row>, y: Row)
    requires |a| > 0 && SortedByDate(a) && y in a
    ensures !Before(y.date, a[0].date)
  {
    var k :| 0 <= k < |a| && a[k] == y;
    if k == 0 {
      BeforeIrreflexive(y.date);
    }
  }

  /** Two date-sorted permutations of rows with distinct dates start with the same row. */
  lemma {:induction false} SortedHeadsAgree(a: seq<Row>, b: seq<Row>)
    requires DistinctDates(a) && multiset(a) == multiset(b)
    requires |a| > 0 && |b| > 0 && SortedByDate(a) && SortedByDate(b)
    ensures a[0] == b[0]
  {
    var x, y := a[0], b[0];
    assert y in multiset(a) && x in multiset(b);
    HeadNotAfter(a, y);
    HeadNotAfter(b, x);
    BeforeTotal(x.date, y.date);
    assert x in a;
  }

  /** Removing the same first row from two permutations leaves permutations. */
  lemma {:induction false} TailsSameRows(a: seq<Row>, b: seq<Row>)
    requires |a| > 0 && |b| > 0 && a[0] == b[0] && multiset(a) == multiset(b)
    ensures multiset(a[1..]) == multiset(b[1..])
  {
    assert a == [a[0]] + a[1..] && b == [b[0]] + b[1..];
    assert multiset(a) == multiset{a[0]} + multiset(a[1..]);
    assert multiset(b) == multiset{a[0]} + multiset(b[1..]);
    forall r ensures multiset(a[1..])[r] == multiset(b[1..])[r] {
      assert multiset(a)[r] == multiset(b)[r];
    }
  }

  lemma {:induction false} DistinctTail(a: seq<Row>)
    requires |a| > 0 && DistinctDates(a)
    ensures DistinctDates(a[1..])
  {
    forall u, v | u in a[1..] && v in a[1..] && u.date == v.date ensures u == v {
      assert u in a && v in a;
    }
  }

  /**
   * Without two different rows on one date, a date-sorted permutation is
   * unique: any sort of the rows, whatever it does with ties, gives the same
   * sequence.
   */
  lemma {:induction false} SortedPermutationUnique(a: seq<Row>, b: seq<Row>)
    requires DistinctDates(a)
    requires multiset(a) == multiset(b)
    requires SortedByDate(a) && SortedByDate(b)
    ensures a == b
    decreases |a|
  {
    assert |a| == |multiset(a)| && |b| == |multiset(b)|;
    if |a| > 0 {
      SortedHeadsAgree(a, b);
      TailsSameRows(a, b);
      DistinctTail(a);
      SortedTail(a);
      SortedTail(b);
      SortedPermutationUnique(a[1..], b[1..]);
    }
  }

  /**
   * When no two different rows share a date, every date-sorted permutation
   * of the rows, whichever sort produced it, is `SortByDate`'s.
   */
  lemma {:induction false} AnySortIsSortByDate(rows: seq<Row>, sorted: seq<Row>)
    requires DistinctDates(rows)
    requires multiset(sorted) == multiset(rows) && SortedByDate(sorted)
    ensures sorted == SortByDate(rows)
  {
    var s := SortByDate(rows);
    assert DistinctDates(s) by {
      forall u, v | u in s && v in s && u.date == v.date ensures u == v {
        assert u in multiset(s) && v in multiset(s);
        assert u in multiset(rows) && v in multiset(rows);
      }
    }
    SortedPermutationUnique(s, sorted);
  }

  /* ------------------------------------------------------------------------ */
  /*  Read, compare, then write                                                */
  /* ------------------------------------------------------------------------ */

  /** What an upsertDailyGoal call does: the table after it, its result, and whether it sent a write. */
  datatype UpsertOutcome = UpsertOutcome(table: map<string, Row>, result: Option<Row>, wrote: bool)

  /**
   * The row the table holds after the candidate `c` is upserted. The write
   * sends only the candidate's columns, so an existing row keeps its
   * `created_at`, and a new row gets the column's default, `stamp`
   * (`None` for a table without the column).
   */
  function Written(table: map<string, Row>, c: Row, stamp: Option<string>): (w: Row)
    ensures w.(createdAt := None) == c.(createdAt := None)
    ensures c.id in table ==> w.createdAt == table[c.id].createdAt
    ensures c.id !in table ==> w.createdAt == stamp
  {
    c.(createdAt := if c.id in table then table[c.id].createdAt else stamp)
  }

  /**
   * upsertDailyGoal: fetch the stored row of the day; when it deep-equals the
   * candidate, return it and write nothing; otherwise write the candidate,
   * returning the row the table then holds, or null when the write fails.
   */
  function UpsertSpec(table: map<string, Row>, goal: NodeData, stamp: Option<string>, fetchFailed: bool, writeFailed: bool)
    : (o: UpsertOutcome)
    ensures var c := Candidate(goal);
            if !fetchFailed && c.id in table && table[c.id] == c then
              o == UpsertOutcome(table, Some(c), false)
            else
              && o.wrote
              && (writeFailed ==> o.table == table && o.result.None?)
              && (!writeFailed ==> o.table == table[c.id := Written(table, c, stamp)]
                                   && o.result == Some(Written(table, c, stamp)))
  {
    var c := Candidate(goal);
    var existing := if !fetchFailed && c.id in table then Some(table[c.id]) else None;
    if existing.Some? && existing.value == c then UpsertOutcome(table, existing, false)
    else if writeFailed then UpsertOutcome(table, None, true)
    else
      var w := Written(table, c, stamp);
      UpsertOutcome(table[c.id := w], Some(w), true)
  }

  class Store {
    /** The `daily_goals` table by primary key. */
    var table: map<string, Row>

    /** Every row sits under its own id. */
    ghost predicate Valid()
      reads this
    {
      forall k :: k in table ==> table[k].id == k
    }

    constructor (initial: map<string, Row>)
      requires forall k :: k in initial ==> initial[k].id == k
      ensures Valid() && table == initial
    {
      table := initial;
    }

    /** fetchDailyGoal: the row of the day, or null when there is none or the query fails. */
    method Fetch(key: DayKey, failed: bool) returns (r: Option<Row>)
      ensures r.Some? <==> !failed && key in table
      ensures r.Some? ==> r.value == table[key]
    {
      if failed || key !in table {
        r := None;
      } else {
        r := Some(table[key]);
      }
    }

    /** upsertDailyGoal: read the stored row, compare, and write only when different. */
    method Upsert(goal: NodeData, stamp: Option<string>, fetchFailed: bool, writeFailed: bool) returns (r: Option<Row>)
      requires Valid()
      modifies this
      ensures Valid()
      ensures table == UpsertSpec(old(table), goal, stamp, fetchFailed, writeFailed).table
      ensures r == UpsertSpec(old(table), goal, stamp, fetchFailed, writeFailed).result
    {
      var row := Candidate(goal);
      var existing := Fetch(goal.date, fetchFailed);
      if existing.Some? && existing.value == row {
        return existing;
      }
      if writeFailed {
        return None;
      }
      var written := row.(createdAt := if row.id in table then table[row.id].createdAt else stamp);
      table := table[row.id := written];
      r := Some(written);
    }

    /** listDailyGoals: every row of the table in ascending date order, or no rows when the query fails. */
    method List(failed: bool) returns (rows: seq<Row>)
      requires Valid()
      ensures failed ==> rows == []
      ensures !failed ==> SortedByDate(rows) && |rows| == |table|
      ensures !failed ==> forall k :: k in table ==> table[k] in rows
      ensures forall r :: r in rows ==> r.id in table && table[r.id] == r
    {
      if failed {
        return [];
      }
      var pending := table.Keys;
      var acc: seq<Row> := [];
      while pending != {}
        invariant pending <= table.Keys
        invariant |acc| + |pending| == |table|
        invariant forall k :: k in table.Keys - pending ==> table[k] in acc
        invariant forall r :: r in acc ==> r.id in table.Keys - pending && table[r.id] == r
        invariant forall i, j :: 0 <= i < j < |acc| ==> acc[i].id != acc[j].id
        decreases |pending|
      {
        var k :| k in pending;
        acc := acc + [table[k]];
        pending := pending - {k};
      }
      assert |table.Keys| == |table|;
      rows := SortByDate(acc);
      assert forall r :: r in rows <==> r in acc by {
        forall r ensures r in rows <==> r in acc {
          assert r in rows <==> r in multiset(rows);
        }
      }
    }

    /** deleteDailyGoal: remove the day's row; true exactly when the query reports no error. */
    method Delete(key: DayKey, failed: bool) returns (ok: bool)
      requires Valid()
      modifies this
      ensures Valid()
      ensures ok == !failed
      ensures table == if failed then old(table) else old(table) - {key}
    {
      if !failed {
        table := table - {key};
      }
      ok := !failed;
    }
  }

  /* ------------------------------------------------------------------------ */
  /*  Properties                                                               */
  /* ------------------------------------------------------------------------ */

  /** A stored row carrying `created_at` never deep-equals a candidate, so the write is always sent. */
  lemma StoredCreatedAtAlwaysRewrites(table: map<string, Row>, goal: NodeData, stamp: Option<string>, writeFailed: bool)
    requires goal.date in table && table[goal.date].createdAt.Some?
    ensures UpsertSpec(table, goal, stamp, false, writeFailed).wrote
  {
  }

  /** Every row of the table carries a `created_at`, as it does when the column exists. */
  ghost predicate Stamped(table: map<string, Row>) {
    forall k :: k in table ==> table[k].createdAt.Some?
  }

  /**
   * On a table with a `created_at` column, every upsert sends its write, and
   * the table it leaves still stamps every row: the read-compare guard never
   * saves a write there.
   */
  lemma StampedTableAlwaysWrites(table: map<string, Row>, goal: NodeData, stamp: Option<string>, writeFailed: bool)
    requires Stamped(table) && stamp.Some?
    ensures UpsertSpec(table, goal, stamp, false, writeFailed).wrote
    ensures Stamped(UpsertSpec(table, goal, stamp, false, writeFailed).table)
  {
    var c := Candidate(goal);
    var o := UpsertSpec(table, goal, stamp, false, writeFailed);
    if c.id in table {
      StoredCreatedAtAlwaysRewrites(table, goal, stamp, writeFailed);
    }
    if !writeFailed {
      assert Written(table, c, stamp).createdAt.Some?;
      forall k | k in o.table ensures o.table[k].createdAt.Some? {
        if k != c.id {
          assert o.table[k] == table[k];
        }
      }
    }
  }

  /** No row of the table carries a `created_at`, as when the column does not exist. */
  ghost predicate Unstamped(table: map<string, Row>) {
    forall k :: k in table ==> table[k].createdAt.None?
  }

  /**
   * On a table without a `created_at` column, a successful upsert followed by
   * the same upsert: the second one returns the stored row and writes nothing.
   */
  lemma UpsertTwiceWritesOnce(table: map<string, Row>, goal: NodeData, writeFailed: bool)
    requires Unstamped(table)
    ensures var first := UpsertSpec(table, goal, None, false, false);
            UpsertSpec(first.table, goal, None, false, writeFailed) == UpsertOutcome(first.table, Some(Candidate(goal)), false)
  {
    var c := Candidate(goal);
    assert Written(table, c, None) == c;
  }
}
