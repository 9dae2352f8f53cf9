/** The task_deps table, its cycle check, and the query that picks dispatchable tasks. */
module TaskDag {
  import opened Digraph

  type Id = nat

  datatype Status = Pending | Running | Done | Failed | Blocked | Merged | Closed

  datatype Task = Task(id: Id, status: Status, priority: int, createdAt: nat)

  /** A row (task, dependency) says the task depends on the dependency. */
  type Deps = seq<(Id, Id)>

  function EdgesOf(deps: Deps): set<(Id, Id)> {
    set i | 0 <= i < |deps| :: deps[i]
  }

  function DependencyIds(deps: Deps): set<Id> {
    set i | 0 <= i < |deps| :: deps[i].1
  }

  lemma EdgesAfterAdding(deps: Deps, e: (Id, Id))
    ensures EdgesOf(deps + [e]) == EdgesOf(deps) + {e}
    ensures e in deps ==> EdgesOf(deps) == EdgesOf(deps) + {e}
  {
    var more := deps + [e];
    forall x | x in EdgesOf(deps) + {e} ensures x in EdgesOf(more) {
      if x == e {
        assert more[|deps|] == e;
      } else {
        var i :| 0 <= i < |deps| && deps[i] == x;
        assert more[i] == x;
      }
    }
  }

  /** SELECT depends_on_id FROM task_deps WHERE task_id = ?. */
  method DependenciesOf(deps: Deps, id: Id) returns (nexts: seq<Id>)
    ensures forall n :: n in nexts <==> (id, n) in EdgesOf(deps)
  {
    nexts := [];
    for i := 0 to |deps|
      invariant forall n :: n in nexts <==> exists j | 0 <= j < i :: deps[j] == (id, n)
    {
      if deps[i].0 == id {
        nexts := nexts + [deps[i].1];
      }
    }
  }

  class TaskStore {
    var deps: Deps

    constructor ()
      ensures deps == []
    {
      deps := [];
    }

    /** INSERT OR IGNORE INTO task_deps. */
    method AddDep(task: Id, dependsOn: Id)
      modifies this
      ensures deps == if (task, dependsOn) in old(deps) then old(deps) else old(deps) + [(task, dependsOn)]
    {
      if (task, dependsOn) !in deps {
        deps := deps + [(task, dependsOn)];
      }
    }

    /** The recursive search of checkNoCycle. Unless it meets the target, everything it adds to
        `visited` has all its dependencies there too. */
    method Dfs(target: Id, id: Id, visited: set<Id>) returns (cyclic: bool, visited': set<Id>)
      ensures visited <= visited'
      ensures cyclic ==> Reaches(EdgesOf(deps), id, target)
      ensures !cyclic && target !in visited ==>
                && visited + {id} <= visited' && target !in visited'
                && forall a, b | a in visited' && a !in visited && (a, b) in EdgesOf(deps) :: b in visited'
      decreases DependencyIds(deps) + {id} - visited
    {
      if id == target {
        SelfReaches(EdgesOf(deps), id);
        return true, visited;
      }
      if id in visited {
        return false, visited;
      }
      visited' := visited + {id};
      var nexts := DependenciesOf(deps, id);
      for i := 0 to |nexts|
        invariant target !in visited ==>
                    && visited + {id} <= visited' && target !in visited'
                    && (forall j | 0 <= j < i :: nexts[j] in visited')
                    && forall a, b | a in visited' && a !in visited && a != id && (a, b) in EdgesOf(deps) :: b in visited'
        invariant visited + {id} <= visited'
      {
        assert nexts[i] in nexts;
        assert (id, nexts[i]) in EdgesOf(deps);
        cyclic, visited' := Dfs(target, nexts[i], visited');
        if cyclic {
          EdgeReaches(EdgesOf(deps), id, nexts[i]);
          ReachesTransitive(EdgesOf(deps), id, nexts[i], target);
          return;
        }
      }
      cyclic := false;
    }

    /** checkNoCycle: refuses the edge target -> from exactly when from already reaches target. */
    method CheckNoCycle(target: Id, from: Id) returns (ok: bool)
      ensures ok <==> !Reaches(EdgesOf(deps), from, target)
    {
      var cyclic, visited := Dfs(target, from, {});
      if !cyclic {
        if Reaches(EdgesOf(deps), from, target) {
          var p :| PathBetween(EdgesOf(deps), p, from, target);
          ClosedUnderPaths(EdgesOf(deps), visited, p);
        }
      }
      ok := !cyclic;
    }

    /** TaskAddDepWithCycleCheck: keeps the graph acyclic and refuses no edge that would. */
    method AddDepWithCycleCheck(task: Id, dependsOn: Id) returns (ok: bool)
      modifies this
      ensures ok <==> !Reaches(EdgesOf(old(deps)), dependsOn, task)
      ensures EdgesOf(deps) == if ok then EdgesOf(old(deps)) + {(task, dependsOn)} else EdgesOf(old(deps))
      ensures Acyclic(EdgesOf(old(deps))) ==>
                Acyclic(EdgesOf(deps)) && (ok <==> Acyclic(EdgesOf(old(deps)) + {(task, dependsOn)}))
    {
      if Acyclic(EdgesOf(deps)) {
        AcyclicAfterAdding(EdgesOf(deps), task, dependsOn);
      }
      ok := CheckNoCycle(task, dependsOn);
      if ok {
        EdgesAfterAdding(deps, (task, dependsOn));
        AddDep(task, dependsOn);
      }
    }
  }

  lemma {:induction false} ClosedUnderPaths(edges: set<(Id, Id)>, closed: set<Id>, p: seq<Id>)
    requires IsPath(edges, p) && p[0] in closed
    requires forall a, b | a in closed && (a, b) in edges :: b in closed
    ensures p[|p| - 1] in closed
  {
    if |p| > 1 {
      ClosedUnderPaths(edges, closed, p[1..]);
    }
  }

  /** The graph after a series of checked insertions into an empty table. */
  ghost function Inserted(edges: set<(Id, Id)>, adds: seq<(Id, Id)>): set<(Id, Id)>
    decreases |adds|
  {
    if adds == [] then edges
    else if Reaches(edges, adds[0].1, adds[0].0) then Inserted(edges, adds[1..])
    else Inserted(edges + {adds[0]}, adds[1..])
  }

  /** Whatever is inserted through the check, in whatever order, the graph stays acyclic. */
  lemma {:induction false} CheckedInsertionsStayAcyclic(edges: set<(Id, Id)>, adds: seq<(Id, Id)>)
    requires Acyclic(edges)
    ensures Acyclic(Inserted(edges, adds))
    decreases |adds|
  {
    if adds != [] {
      AcyclicAfterAdding(edges, adds[0].0, adds[0].1);
      assert adds[0] == (adds[0].0, adds[0].1);
      if Reaches(edges, adds[0].1, adds[0].0) {
        CheckedInsertionsStayAcyclic(edges, adds[1..]);
      } else {
        CheckedInsertionsStayAcyclic(edges + {adds[0]}, adds[1..]);
      }
    }
  }

  // ---- Dispatchable tasks ------------------------------------------------------------------

  /** NOT EXISTS over the join: a dependency without a tasks row does not block. */
  predicate IsReady(tasks: seq<Task>, deps: Deps, t: Task) {
    && t.status == Pending
    && !exists i, j | 0 <= i < |deps| && 0 <= j < |tasks| ::
         deps[i] == (t.id, tasks[j].id) && tasks[j].status !in {Done, Merged}
  }

  /** ORDER BY priority DESC, created_at ASC. */
  predicate Before(a: Task, b: Task) {
    a.priority > b.priority || (a.priority == b.priority && a.createdAt <= b.createdAt)
  }

  function Insert(t: Task, sorted: seq<Task>): seq<Task> {
    if sorted == [] then [t]
    else if Before(t, sorted[0]) then [t] + sorted
    else [sorted[0]] + Insert(t, sorted[1..])
  }

  function ReadySorted(all: seq<Task>, deps: Deps, tasks: seq<Task>): seq<Task> {
    if tasks == [] then []
    else
      var rest := ReadySorted(all, deps, tasks[1..]);
      if IsReady(all, deps, tasks[0]) then Insert(tasks[0], rest) else rest
  }

  /** TasksReady with a non-negative LIMIT. */
  function TasksReady(tasks: seq<Task>, deps: Deps, limit: nat): seq<Task> {
    var ready := ReadySorted(tasks, deps, tasks);
    if |ready| <= limit then ready else ready[..limit]
  }

  ghost predicate Sorted(ts: seq<Task>) {
    forall i, j | 0 <= i < j < |ts| :: Before(ts[i], ts[j])
  }

  lemma {:induction false} InsertKeeps(t: Task, sorted: seq<Task>, x: Task)
    ensures x in Insert(t, sorted) <==> x == t || x in sorted
  {
    if sorted != [] {
      InsertKeeps(t, sorted[1..], x);
      assert sorted == [sorted[0]] + sorted[1..];
    }
  }

  lemma {:induction false} InsertSorts(t: Task, sorted: seq<Task>)
    requires Sorted(sorted)
    ensures Sorted(Insert(t, sorted))
  {
    if sorted != [] && !Before(t, sorted[0]) {
      var rest := Insert(t, sorted[1..]);
      InsertSorts(t, sorted[1..]);
      forall i | 0 <= i < |rest| ensures Before(sorted[0], rest[i]) {
        InsertKeeps(t, sorted[1..], rest[i]);
      }
    }
  }

  lemma {:induction false} ReadySortedIs(all: seq<Task>, deps: Deps, tasks: seq<Task>)
    ensures Sorted(ReadySorted(all, deps, tasks))
    ensures forall t :: t in ReadySorted(all, deps, tasks) <==> t in tasks && IsReady(all, deps, t)
  {
    if tasks != [] {
      ReadySortedIs(all, deps, tasks[1..]);
      var rest := ReadySorted(all, deps, tasks[1..]);
      if IsReady(all, deps, tasks[0]) {
        InsertSorts(tasks[0], rest);
        forall t ensures t in Insert(tasks[0], rest) <==> t == tasks[0] || t in rest {
          InsertKeeps(tasks[0], rest, t);
        }
      }
    }
  }

  lemma PrefixHas(s: seq<Task>, n: nat, j: nat)
    requires n <= |s| && j < |s|
    ensures j < n ==> s[j] in s[..n]
  {
    if j < n {
      assert s[..n][j] == s[j];
    }
  }

  /** The batch holds only ready tasks, no ready task left out goes before one taken, and a
      task is left out only when the limit is used up. */
  lemma TasksReadyIsTheBestBatch(tasks: seq<Task>, deps: Deps, limit: nat)
    ensures var batch := TasksReady(tasks, deps, limit);
            && |batch| <= limit && Sorted(batch)
            && (forall t | t in batch :: t in tasks && IsReady(tasks, deps, t))
            && (forall t | t in tasks && IsReady(tasks, deps, t) && t !in batch ::
                  |batch| == limit && forall b | b in batch :: Before(b, t))
  {
    ReadySortedIs(tasks, deps, tasks);
    var ready, batch := ReadySorted(tasks, deps, tasks), TasksReady(tasks, deps, limit);
    forall t | t in tasks && IsReady(tasks, deps, t) && t !in batch
      ensures |batch| == limit && forall b | b in batch :: Before(b, t)
    {
      var j :| 0 <= j < |ready| && ready[j] == t;
      PrefixHas(ready, |batch|, j);
    }
  }

  /** No deadlock: in an acyclic graph whose tasks are all pending, done or merged, with one
      pending, some task is dispatchable. */
  lemma SomethingIsReady(tasks: seq<Task>, deps: Deps, limit: nat, t: Task)
    requires Acyclic(EdgesOf(deps)) && limit >= 1
    requires forall a | a in tasks :: a.status in {Pending, Done, Merged}
    requires t in tasks && t.status == Pending
    ensures TasksReady(tasks, deps, limit) != []
  {
    var pending := set i | 0 <= i < |tasks| && tasks[i].status == Pending :: tasks[i].id;
    var id := SinkBelow(EdgesOf(deps), pending, t.id);
    var i :| 0 <= i < |tasks| && tasks[i].status == Pending && tasks[i].id == id;
    forall k, j | 0 <= k < |deps| && 0 <= j < |tasks| && deps[k] == (id, tasks[j].id)
      ensures tasks[j].status in {Done, Merged}
    {
      assert (id, tasks[j].id) in EdgesOf(deps);
      assert tasks[j] in tasks;
    }
    assert IsReady(tasks, deps, tasks[i]);
    ReadySortedIs(tasks, deps, tasks);
    assert tasks[i] in ReadySorted(tasks, deps, tasks);
  }
}
