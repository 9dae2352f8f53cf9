/** The merge_queue table: the statements that insert, update and select its rows. */
module MergeStore {
  import opened Options
  import opened Commits
  import opened MergeQueue

  datatype Row = Row(task: TaskId, item: Item)

  /** Primary key and the uniqueness of task_id. */
  predicate Keyed(rows: seq<Row>) {
    forall i, j | 0 <= i < j < |rows| :: rows[i].item.id != rows[j].item.id && rows[i].task != rows[j].task
  }

  datatype Change = ToStatus(st: Status) | OneMoreAttempt | ToMergeSha(sha: Commit) | ToResolver(task: TaskId)

  function Apply(change: Change, item: Item): (r: Item)
    ensures r.id == item.id && r.target == item.target
  {
    match change
    case ToStatus(st) => item.(status := st)
    case OneMoreAttempt => item.(attempts := item.attempts + 1)
    case ToMergeSha(sha) => item.(mergeSha := Some(sha))
    case ToResolver(task) => item.(resolver := Some(task))
  }

  /** UPDATE merge_queue SET ... WHERE id = ? */
  function Updated(rows: seq<Row>, id: nat, change: Change): seq<Row> {
    seq(|rows|, i requires 0 <= i < |rows| =>
      if rows[i].item.id == id then Row(rows[i].task, Apply(change, rows[i].item)) else rows[i])
  }

  /** The row of a task among the first n. */
  function RowOf(rows: seq<Row>, n: nat, task: TaskId): (item: Option<Item>)
    requires n <= |rows|
    ensures item.Some? <==> exists i | 0 <= i < n :: rows[i].task == task
    ensures item.Some? ==> exists i | 0 <= i < n :: rows[i] == Row(task, item.value)
  {
    if n == 0 then None
    else if rows[n - 1].task == task then Some(rows[n - 1].item)
    else RowOf(rows, n - 1, task)
  }

  lemma {:induction false} RowIs(rows: seq<Row>, n: nat, i: nat)
    requires Keyed(rows) && i < n <= |rows|
    ensures RowOf(rows, n, rows[i].task) == Some(rows[i].item)
  {
    if i < n - 1 {
      RowIs(rows, n - 1, i);
    }
  }

  lemma UpdateKeepsKeys(rows: seq<Row>, id: nat, change: Change)
    requires Keyed(rows)
    ensures Keyed(Updated(rows, id, change))
  {}

  /** An update by id changes the row that has the id and no other. */
  lemma {:induction false} UpdateOne(rows: seq<Row>, n: nat, id: nat, change: Change, task: TaskId)
    requires n <= |rows|
    ensures var before := RowOf(rows, n, task);
            RowOf(Updated(rows, id, change), n, task)
              == if before.Some? && before.value.id == id then Some(Apply(change, before.value)) else before
  {
    hide Keyed, Apply;
    if n > 0 {
      UpdateOne(rows, n - 1, id, change, task);
    }
  }

  lemma OtherId(rows: seq<Row>, task: TaskId, other: TaskId)
    requires Keyed(rows) && task != other
    ensures var a, b := RowOf(rows, |rows|, task), RowOf(rows, |rows|, other);
            a.Some? && b.Some? ==> a.value.id != b.value.id
  {}

  lemma RowById(rows: seq<Row>, task: TaskId, id: nat)
    requires Keyed(rows) && RowOf(rows, |rows|, task).Some? && RowOf(rows, |rows|, task).value.id == id
    ensures exists i | 0 <= i < |rows| :: rows[i].item.id == id
    ensures forall i | 0 <= i < |rows| && rows[i].item.id == id :: rows[i].item == RowOf(rows, |rows|, task).value
  {}

  /** Updating a task's row by its id changes that task's row only. */
  lemma UpdateOwn(rows: seq<Row>, id: nat, change: Change, task: TaskId)
    requires Keyed(rows) && RowOf(rows, |rows|, task).Some? && RowOf(rows, |rows|, task).value.id == id
    ensures var after := Updated(rows, id, change);
            && Keyed(after)
            && RowOf(after, |after|, task) == Some(Apply(change, RowOf(rows, |rows|, task).value))
            && forall t | t != task :: RowOf(after, |after|, t) == RowOf(rows, |rows|, t)
  {
    hide Keyed, RowOf, Apply;
    UpdateKeepsKeys(rows, id, change);
    UpdateOne(rows, |rows|, id, change, task);
    forall t | t != task ensures RowOf(Updated(rows, id, change), |rows|, t) == RowOf(rows, |rows|, t) {
      UpdateOne(rows, |rows|, id, change, t);
      OtherId(rows, task, t);
    }
  }

  predicate IsQueuedIn(row: Row, repo: nat) {
    row.item.status == Queued && row.item.target.repo == repo
  }

  /** ORDER BY priority DESC, queued_at ASC. */
  predicate GoesFirst(a: Item, b: Item) {
    a.priority > b.priority || (a.priority == b.priority && a.queuedAt <= b.queuedAt)
  }

  class Store {
    var rows: seq<Row>
    var tasks: map<TaskId, TaskStatus>

    constructor ()
      ensures rows == [] && tasks == map[]
    {
      rows, tasks := [], map[];
    }

    /** MergeQueueGet. */
    method Get(id: nat) returns (item: Option<Item>)
      ensures item.Some? <==> exists i | 0 <= i < |rows| :: rows[i].item.id == id
      ensures item.Some? ==> exists i | 0 <= i < |rows| :: rows[i].item == item.value && item.value.id == id
    {
      for i := 0 to |rows|
        invariant forall k | 0 <= k < i :: rows[k].item.id != id
      {
        if rows[i].item.id == id {
          return Some(rows[i].item);
        }
      }
      item := None;
    }

    method SetStatus(id: nat, st: Status)
      modifies this`rows
      ensures rows == Updated(old(rows), id, ToStatus(st))
    {
      rows := Updated(rows, id, ToStatus(st));
    }

    method IncrAttempt(id: nat)
      modifies this`rows
      ensures rows == Updated(old(rows), id, OneMoreAttempt)
    {
      rows := Updated(rows, id, OneMoreAttempt);
    }

    /** Any of the updates by id. */
    method Update(id: nat, change: Change)
      modifies this`rows
      ensures rows == Updated(old(rows), id, change)
    {
      match change
      case ToStatus(st) => SetStatus(id, st);
      case OneMoreAttempt => IncrAttempt(id);
      case ToMergeSha(sha) => SetMergeSha(id, sha);
      case ToResolver(task) => SetConflictTask(id, task);
    }

    method SetMergeSha(id: nat, sha: Commit)
      modifies this`rows
      ensures rows == Updated(old(rows), id, ToMergeSha(sha))
    {
      rows := Updated(rows, id, ToMergeSha(sha));
    }

    method SetConflictTask(id: nat, resolver: TaskId)
      modifies this`rows
      ensures rows == Updated(old(rows), id, ToResolver(resolver))
    {
      rows := Updated(rows, id, ToResolver(resolver));
    }

    method TaskSetStatus(task: TaskId, st: TaskStatus)
      modifies this`tasks
      ensures tasks == old(tasks)[task := st]
    {
      tasks := tasks[task := st];
    }

    /** MergeQueueNext: the queued row of the repo that goes first. */
    method Next(repo: nat) returns (next: Option<Row>)
      ensures next.None? <==> forall i | 0 <= i < |rows| :: !IsQueuedIn(rows[i], repo)
      ensures next.Some? ==> next.value in rows && IsQueuedIn(next.value, repo)
                             && forall i | 0 <= i < |rows| && IsQueuedIn(rows[i], repo) :: GoesFirst(next.value.item, rows[i].item)
    {
      next := None;
      for i := 0 to |rows|
        invariant next.None? <==> forall k | 0 <= k < i :: !IsQueuedIn(rows[k], repo)
        invariant next.Some? ==> next.value in rows && IsQueuedIn(next.value, repo)
                                 && forall k | 0 <= k < i && IsQueuedIn(rows[k], repo) :: GoesFirst(next.value.item, rows[k].item)
      {
        if IsQueuedIn(rows[i], repo) && (next.None? || !GoesFirst(next.value.item, rows[i].item)) {
          next := Some(rows[i]);
        }
      }
    }

    /** MergeQueueResetStuck: the rows a crash left in progress. */
    method Stuck() returns (stuck: seq<Row>)
      ensures forall row :: row in stuck <==> row in rows && InProgress(row.item.status)
      ensures Keyed(rows) ==> Keyed(stuck)
    {
      stuck := [];
      for i := 0 to |rows|
        invariant forall row :: row in stuck <==> row in rows[..i] && InProgress(row.item.status)
        invariant Keyed(rows) ==> Keyed(stuck)
      {
        if InProgress(rows[i].item.status) {
          assert forall k | 0 <= k < |stuck| :: stuck[k] in stuck;
          stuck := stuck + [rows[i]];
        }
      }
      assert rows[..|rows|] == rows;
    }

    /** MergeQueueEnqueue: a new row, or a terminal row of the task reset under the new id;
        otherwise nothing changes. */
    method Enqueue(id: nat, task: TaskId, target: Ref, priority: int, now: nat) returns (ok: bool)
      requires Keyed(rows)
      modifies this`rows
      ensures Keyed(rows)
      ensures var before := RowOf(old(rows), |old(rows)|, task);
              var idFree := forall i | 0 <= i < |old(rows)| :: old(rows)[i].item.id != id;
              ok <==> if before.None? then idFree
                      else before.value.status in {Failed, Rejected} && (idFree || before.value.id == id)
      ensures ok ==> RowOf(rows, |rows|, task) == Some(Item(id, target, Queued, 0, priority, now, None, None))
      ensures forall t | t != task :: RowOf(rows, |rows|, t) == RowOf(old(rows), |old(rows)|, t)
      ensures !ok ==> rows == old(rows)
    {
      var mine, clash := |rows|, false;
      for i := 0 to |rows|
        invariant 0 <= mine <= |rows|
        invariant mine == |rows| ==> forall k | 0 <= k < i :: rows[k].task != task
        invariant mine < |rows| ==> mine < i && rows[mine].task == task
        invariant clash <==> exists k | 0 <= k < i :: rows[k].item.id == id && rows[k].task != task
      {
        if rows[i].task == task {
          mine := i;
        } else if rows[i].item.id == id {
          clash := true;
        }
      }
      var entry := Row(task, Item(id, target, Queued, 0, priority, now, None, None));
      if mine < |rows| {
        RowIs(rows, |rows|, mine);
      }
      if mine == |rows| {
        ok := !clash;
        if ok {
          ghost var before := rows;
          rows := rows + [entry];
          forall t | t != task ensures RowOf(rows, |rows|, t) == RowOf(before, |before|, t) {
            Prefix(before, rows, |before|, t);
          }
        }
      } else {
        ok := rows[mine].item.status in {Failed, Rejected} && !clash;
        if ok {
          ghost var before := rows;
          rows := rows[mine := entry];
          RowIs(rows, |rows|, mine);
          forall t | t != task ensures RowOf(rows, |rows|, t) == RowOf(before, |before|, t) {
            Replaced(before, mine, entry, |before|, t);
          }
        }
      }
    }
  }

  lemma {:induction false} Prefix(a: seq<Row>, b: seq<Row>, n: nat, task: TaskId)
    requires a <= b && n <= |a|
    ensures RowOf(a, n, task) == RowOf(b, n, task)
  {
    if n > 0 {
      Prefix(a, b, n - 1, task);
    }
  }

  lemma {:induction false} Replaced(rows: seq<Row>, at: nat, row: Row, n: nat, task: TaskId)
    requires at < |rows| && n <= |rows| && row.task == rows[at].task != task
    ensures RowOf(rows[at := row], n, task) == RowOf(rows, n, task)
  {
    if n > 0 {
      Replaced(rows, at, row, n - 1, task);
    }
  }
}
