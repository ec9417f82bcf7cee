/**
 * The three GET listings: every task in ascending id order, and the tasks
 * filtered on their completed flag.
 */
module Listings {
  import opened Todo

  /** Strictly increasing, hence free of repeats. */
  predicate Ascending(ids: seq<int>) {
    forall i, j :: 0 <= i < j < |ids| ==> ids[i] < ids[j]
  }

  /** The head of an ascending sequence is below everything after it. */
  lemma HeadBelowTail(ids: seq<int>)
    requires Ascending(ids) && ids != []
    ensures Ascending(ids[1..])
    ensures forall y :: y in ids[1..] ==> ids[0] < y
  {
  }

  /** An element below everything in an ascending sequence can go in front of it. */
  lemma ConsAscending(x: int, ids: seq<int>)
    requires Ascending(ids)
    requires forall y :: y in ids ==> x < y
    ensures Ascending([x] + ids)
  {
    var r := [x] + ids;
    forall i, j | 0 <= i < j < |r| ensures r[i] < r[j] {
      assert r[j] == ids[j - 1];
      if i == 0 {
        assert ids[j - 1] in ids;
      } else {
        assert r[i] == ids[i - 1];
      }
    }
  }

  /** `x` put in its place in an ascending sequence that lacks it. */
  function Insert(ids: seq<int>, x: int): (r: seq<int>)
    requires Ascending(ids)
    requires x !in ids
    ensures Ascending(r)
    ensures |r| == |ids| + 1
    ensures forall y :: y in r <==> y in ids || y == x
  {
    if ids == [] || x < ids[0] then
      assert forall y :: y in ids ==> x < y by {
        if ids != [] {
          HeadBelowTail(ids);
        }
      }
      ConsAscending(x, ids);
      [x] + ids
    else
      HeadBelowTail(ids);
      var rest := Insert(ids[1..], x);
      ConsAscending(ids[0], rest);
      [ids[0]] + rest
  }

  /** A non-empty set has an element to pick. */
  lemma HasElement(s: set<int>)
    requires s != {}
    ensures exists x :: x in s
  {
    if forall x :: x !in s {
      assert false;
    }
  }

  /** The elements of a set, each once, smallest first. */
  method Sort(keys: set<int>) returns (ids: seq<int>)
    ensures Ascending(ids)
    ensures |ids| == |keys|
    ensures forall k :: k in ids <==> k in keys
  {
    ids := [];
    var rest := keys;
    ghost var seen: set<int> := {};
    while rest != {}
      invariant Ascending(ids)
      invariant seen !! rest && seen + rest == keys
      invariant forall k :: k in ids <==> k in seen
      invariant |ids| == |seen|
      decreases rest
    {
      HasElement(rest);
      var k :| k in rest;
      ids := Insert(ids, k);
      seen, rest := seen + {k}, rest - {k};
    }
  }

  /** ORDER BY id: the keys of the table, each once, smallest first. */
  method OrderById(tasks: map<int, Task>) returns (ids: seq<int>)
    ensures Ascending(ids)
    ensures |ids| == |tasks|
    ensures forall k :: k in ids <==> k in tasks
    ensures forall i :: 0 <= i < |ids| ==> ids[i] in tasks
  {
    ids := Sort(tasks.Keys);
    assert |tasks.Keys| == |tasks|;
  }

  /** The ids among `ids` whose task has `completed == done`, in the same order. */
  function Matching(tasks: map<int, Task>, ids: seq<int>, done: bool): (r: seq<int>)
    requires forall i :: 0 <= i < |ids| ==> ids[i] in tasks
    ensures |r| <= |ids|
    ensures forall k :: k in r <==> k in ids && tasks[k].completed == done
    ensures forall i :: 0 <= i < |r| ==> r[i] in tasks
  {
    if ids == [] then []
    else
      var rest := Matching(tasks, ids[1..], done);
      if tasks[ids[0]].completed == done then [ids[0]] + rest else rest
  }

  /** Filtering keeps the order: an ascending input gives an ascending selection. */
  lemma {:induction false} MatchingAscending(tasks: map<int, Task>, ids: seq<int>, done: bool)
    requires forall i :: 0 <= i < |ids| ==> ids[i] in tasks
    requires Ascending(ids)
    ensures Ascending(Matching(tasks, ids, done))
  {
    if ids != [] {
      HeadBelowTail(ids);
      MatchingAscending(tasks, ids[1..], done);
      if tasks[ids[0]].completed == done {
        ConsAscending(ids[0], Matching(tasks, ids[1..], done));
      }
    }
  }

  /** Every id goes to exactly one of the two filters, so together they hold as many ids as the input. */
  lemma {:induction false} MatchingPartition(tasks: map<int, Task>, ids: seq<int>)
    requires forall i :: 0 <= i < |ids| ==> ids[i] in tasks
    ensures |Matching(tasks, ids, true)| + |Matching(tasks, ids, false)| == |ids|
    ensures forall k :: k in ids ==> (k in Matching(tasks, ids, true) <==> k !in Matching(tasks, ids, false))
  {
    if ids != [] {
      MatchingPartition(tasks, ids[1..]);
    }
  }

  /** The response rows for `ids`, in order. */
  function Rows(tasks: map<int, Task>, ids: seq<int>, style: DateStyle): (rows: seq<TaskView>)
    requires forall i :: 0 <= i < |ids| ==> ids[i] in tasks
    ensures |rows| == |ids|
    ensures forall i :: 0 <= i < |ids| ==> rows[i] == Serialize(tasks[ids[i]], style)
  {
    seq(|ids|, i requires 0 <= i < |ids| => Serialize(tasks[ids[i]], style))
  }

  /** The id column of a listing. */
  function RowIds(rows: seq<TaskView>): (ids: seq<int>)
    ensures |ids| == |rows|
    ensures forall i :: 0 <= i < |rows| ==> ids[i] == rows[i].id
  {
    seq(|rows|, i requires 0 <= i < |rows| => rows[i].id)
  }

  /** GET /tasks: every task, ascending by id, due dates printed with the underscore format. */
  method ListAll(db: Db) returns (status: Status, rows: seq<TaskView>)
    requires Keyed(db.tasks)
    ensures status == Ok
    ensures |rows| == |db.tasks|
    ensures Ascending(RowIds(rows))
    ensures forall k :: k in db.tasks <==> k in RowIds(rows)
    ensures forall i :: 0 <= i < |rows| ==> rows[i].id in db.tasks && rows[i] == Serialize(db.tasks[rows[i].id], Underscore)
  {
    var ids := OrderById(db.tasks);
    rows := Rows(db.tasks, ids, Underscore);
    assert forall i :: 0 <= i < |ids| ==> RowIds(rows)[i] == db.tasks[ids[i]].id == ids[i];
    assert RowIds(rows) == ids;
    status := Ok;
  }

  /** The rows whose completed flag is `done`, ascending by id, due dates in the hyphen format. */
  method ListByCompleted(db: Db, done: bool) returns (rows: seq<TaskView>)
    requires Keyed(db.tasks)
    ensures Ascending(RowIds(rows))
    ensures forall k :: k in RowIds(rows) <==> k in db.tasks && db.tasks[k].completed == done
    ensures forall i :: 0 <= i < |rows| ==> rows[i].id in db.tasks && rows[i] == Serialize(db.tasks[rows[i].id], Hyphen)
  {
    var ids := OrderById(db.tasks);
    var selected := Matching(db.tasks, ids, done);
    MatchingAscending(db.tasks, ids, done);
    rows := Rows(db.tasks, selected, Hyphen);
    assert forall i :: 0 <= i < |selected| ==> RowIds(rows)[i] == db.tasks[selected[i]].id == selected[i];
    assert RowIds(rows) == selected;
  }

  /** GET /tasks/completed. */
  method CompletedTasks(db: Db) returns (status: Status, rows: seq<TaskView>)
    requires Keyed(db.tasks)
    ensures status == Ok
    ensures Ascending(RowIds(rows))
    ensures forall k :: k in RowIds(rows) <==> k in db.tasks && db.tasks[k].completed
    ensures forall i :: 0 <= i < |rows| ==> rows[i].id in db.tasks && rows[i] == Serialize(db.tasks[rows[i].id], Hyphen)
  {
    rows := ListByCompleted(db, true);
    status := Ok;
  }

  /** GET /tasks/uncompleted. */
  method UncompletedTasks(db: Db) returns (status: Status, rows: seq<TaskView>)
    requires Keyed(db.tasks)
    ensures status == Ok
    ensures Ascending(RowIds(rows))
    ensures forall k :: k in RowIds(rows) <==> k in db.tasks && !db.tasks[k].completed
    ensures forall i :: 0 <= i < |rows| ==> rows[i].id in db.tasks && rows[i] == Serialize(db.tasks[rows[i].id], Hyphen)
  {
    rows := ListByCompleted(db, false);
    status := Ok;
  }
}
