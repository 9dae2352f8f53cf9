/** Several checked insertions into the task_deps table at once. The search of a cycle check is
    one SELECT for each task it visits and the insertion is another statement, so other
    insertions come between any two of them. Rows of the table are never deleted. */
module DepRace {
  import opened Options
  import opened Digraph
  import TaskDag

  type Id = TaskDag.Id

  datatype Phase = Searching | Refused | Written

  /** A call of TaskAddDepWithCycleCheck: the tasks it has still to visit, in any order, those
      it has visited, and the rows there were when it began (history). */
  datatype Call = Call(task: Id, dependsOn: Id, todo: set<Id>, visited: set<Id>, start: set<(Id, Id)>, phase: Phase)

  datatype Race = Race(edges: set<(Id, Id)>, calls: map<nat, Call>)

  datatype Event =
    | Begin(k: nat, task: Id, dependsOn: Id)
    | Visit(k: nat, id: Id)
    | Insert(k: nat)

  function DependenciesOf(edges: set<(Id, Id)>, id: Id): set<Id> {
    set e | e in edges && e.0 == id :: e.1
  }

  /** dfs at one task: refuse at the target, skip what is visited, else read its rows. */
  function Searched(c: Call, edges: set<(Id, Id)>, id: Id): Call {
    if id == c.task then c.(phase := Refused)
    else if id in c.visited then c.(todo := c.todo - {id})
    else c.(todo := c.todo - {id} + DependenciesOf(edges, id), visited := c.visited + {id})
  }

  function Next(s: Race, e: Event): Option<Race> {
    match e
    case Begin(k, task, dependsOn) =>
      if k in s.calls then None
      else Some(s.(calls := s.calls[k := Call(task, dependsOn, {dependsOn}, {}, s.edges, Searching)]))
    case Visit(k, id) =>
      if k in s.calls && s.calls[k].phase == Searching && id in s.calls[k].todo
      then Some(s.(calls := s.calls[k := Searched(s.calls[k], s.edges, id)]))
      else None
    case Insert(k) =>
      if k in s.calls && s.calls[k].phase == Searching && s.calls[k].todo == {}
      then Some(Race(s.edges + {(s.calls[k].task, s.calls[k].dependsOn)}, s.calls[k := s.calls[k].(phase := Written)]))
      else None
  }

  ghost predicate IsRace(states: seq<Race>, events: seq<Event>) {
    && |states| == |events| + 1 && states[0].calls == map[] && Acyclic(states[0].edges)
    && forall i | 0 <= i < |events| :: Next(states[i], events[i]) == Some(states[i + 1])
  }

  // ---- What a search knows -------------------------------------------------------------------

  lemma {:induction false} PathsRemain(edges: set<(Id, Id)>, more: set<(Id, Id)>, a: Id, b: Id)
    requires edges <= more && Reaches(edges, a, b)
    ensures Reaches(more, a, b)
  {
    var p :| PathBetween(edges, p, a, b);
    assert PathBetween(more, p, a, b);
  }

  /** All it has met can be reached; what it has visited was left with all the rows there were
      at the beginning. */
  ghost predicate SearchOk(c: Call, edges: set<(Id, Id)>) {
    && c.start <= edges && c.task !in c.visited && c.dependsOn in c.todo + c.visited
    && (forall v | v in c.todo :: Reaches(edges, c.dependsOn, v))
    && (forall v | v in c.visited :: Reaches(edges, c.dependsOn, v))
    && (forall a, b | a in c.visited && (a, b) in c.start :: b in c.todo + c.visited)
    && (c.phase == Refused ==> Reaches(edges, c.dependsOn, c.task))
  }

  ghost predicate Inv(s: Race) {
    forall k | k in s.calls :: SearchOk(s.calls[k], s.edges)
  }

  lemma BeginOk(edges: set<(Id, Id)>, task: Id, dependsOn: Id)
    ensures SearchOk(Call(task, dependsOn, {dependsOn}, {}, edges, Searching), edges)
  {
    SelfReaches(edges, dependsOn);
  }

  lemma VisitOk(c: Call, edges: set<(Id, Id)>, id: Id)
    requires SearchOk(c, edges) && c.phase == Searching && id in c.todo
    ensures SearchOk(Searched(c, edges, id), edges)
  {
    hide Reaches;
    var c' := Searched(c, edges, id);
    forall v | v in c'.todo ensures Reaches(edges, c.dependsOn, v) {
      if v !in c.todo {
        assert (id, v) in edges;
        EdgeReaches(edges, id, v);
        ReachesTransitive(edges, c.dependsOn, id, v);
      }
    }
    forall a, b | a in c'.visited && (a, b) in c.start ensures b in c'.todo + c'.visited {
      if a !in c.visited {
        assert (a, b) in edges;
      }
    }
  }

  lemma WriteOk(c: Call, edges: set<(Id, Id)>, e: (Id, Id))
    requires SearchOk(c, edges)
    ensures SearchOk(c, edges + {e})
  {
    hide Reaches;
    forall v | Reaches(edges, c.dependsOn, v) ensures Reaches(edges + {e}, c.dependsOn, v) {
      PathsRemain(edges, edges + {e}, c.dependsOn, v);
    }
  }

  lemma NextInv(s: Race, e: Event)
    requires Inv(s) && Next(s, e).Some?
    ensures Inv(Next(s, e).value)
  {
    hide SearchOk, Searched;
    var s' := Next(s, e).value;
    forall k | k in s'.calls ensures SearchOk(s'.calls[k], s'.edges) {
      match e
      case Begin(j, task, dependsOn) => BeginOk(s.edges, task, dependsOn);
      case Visit(j, id) => VisitOk(s.calls[j], s.edges, id);
      case Insert(j) =>
        var edge := (s.calls[j].task, s.calls[j].dependsOn);
        WriteOk(s.calls[k], s.edges, edge);
        if k == j {
          WrittenOk(s.calls[k], s'.edges);
        }
    }
  }

  lemma WrittenOk(c: Call, edges: set<(Id, Id)>)
    requires SearchOk(c, edges)
    ensures SearchOk(c.(phase := Written), edges)
  {}

  lemma {:induction false} RaceInv(states: seq<Race>, events: seq<Event>, i: nat)
    requires IsRace(states, events) && i < |states|
    ensures Inv(states[i])
  {
    hide Next, SearchOk, Acyclic;
    if i > 0 {
      var j := i - 1;
      RaceInv(states, events, j);
      assert Next(states[j], events[j]) == Some(states[j + 1]);
      NextInv(states[j], events[j]);
    }
  }

  /** The search has ended: the target was out of reach when it began. */
  lemma AcceptedWasAcyclic(c: Call, edges: set<(Id, Id)>)
    requires SearchOk(c, edges) && c.phase == Searching && c.todo == {}
    ensures !Reaches(c.start, c.dependsOn, c.task)
  {
    if Reaches(c.start, c.dependsOn, c.task) {
      var p :| PathBetween(c.start, p, c.dependsOn, c.task);
      TaskDag.ClosedUnderPaths(c.start, c.visited, p);
      assert false;
    }
  }

  // ---- When the graph stays acyclic ------------------------------------------------------------

  /** At event j, with the search of call k under way, another row is written that leaves a task
      the search has already visited: the search will not read it. */
  ghost predicate MissedAt(states: seq<Race>, events: seq<Event>, j: nat, k: nat, edge: (Id, Id))
    requires |states| == |events| + 1
  {
    && j < |events| && events[j].Insert? && events[j].k in states[j].calls && k in states[j].calls
    && edge == (states[j].calls[events[j].k].task, states[j].calls[events[j].k].dependsOn)
    && edge.0 in states[j].calls[k].visited
  }

  /** Up to state i, such a row was written that leads on to the call's task. */
  ghost predicate Overtaken(states: seq<Race>, events: seq<Event>, i: nat, k: nat)
    requires |states| == |events| + 1 && i < |states| && k in states[i].calls
  {
    exists j: nat, edge: (Id, Id) ::
      j < i && MissedAt(states, events, j, k, edge) && Reaches(states[i].edges, edge.1, states[i].calls[k].task)
  }

  /** The row was written behind the search of call k, before state i. */
  ghost predicate WasMissed(states: seq<Race>, events: seq<Event>, i: nat, k: nat, edge: (Id, Id))
    requires |states| == |events| + 1
  {
    exists j: nat :: j < i && MissedAt(states, events, j, k, edge)
  }

  /** A call keeps its task, and a visited task stays visited. */
  lemma CallStays(s: Race, e: Event, k: nat)
    requires Next(s, e).Some? && k in s.calls
    ensures var s' := Next(s, e).value;
            && s.edges <= s'.edges && k in s'.calls
            && s'.calls[k].task == s.calls[k].task && s'.calls[k].dependsOn == s.calls[k].dependsOn
            && s.calls[k].visited <= s'.calls[k].visited
  {}

  lemma {:induction false} CallStaysInRace(states: seq<Race>, events: seq<Event>, j: nat, i: nat, k: nat)
    requires IsRace(states, events) && j <= i < |states| && k in states[j].calls
    ensures states[j].edges <= states[i].edges && k in states[i].calls
    ensures states[i].calls[k].task == states[j].calls[k].task && states[i].calls[k].dependsOn == states[j].calls[k].dependsOn
    ensures states[j].calls[k].visited <= states[i].calls[k].visited
  {
    hide Next, Acyclic;
    if j < i {
      var m := i - 1;
      CallStaysInRace(states, events, j, m, k);
      assert Next(states[m], events[m]) == Some(states[m + 1]);
      CallStays(states[m], events[m], k);
    }
  }

  /** A row that leaves a visited task and is unknown to the search was so before the event, or
      is the one that the event writes. */
  lemma MissedInStep(s: Race, e: Event, k: nat, edge: (Id, Id))
    requires Next(s, e).Some? && k in s.calls
    requires var s' := Next(s, e).value;
             edge in s'.edges && edge.0 in s'.calls[k].visited && edge.1 !in s'.calls[k].todo + s'.calls[k].visited
    ensures (edge in s.edges && edge.0 in s.calls[k].visited && edge.1 !in s.calls[k].todo + s.calls[k].visited)
            || (e.Insert? && edge.0 in s.calls[k].visited && edge == (s.calls[e.k].task, s.calls[e.k].dependsOn))
  {}

  /** Every row that leaves a visited task was read, or written behind the search. */
  lemma {:induction false} ReadOrMissed(states: seq<Race>, events: seq<Event>, i: nat, k: nat, edge: (Id, Id))
    requires IsRace(states, events) && i < |states| && k in states[i].calls
    requires edge in states[i].edges && edge.0 in states[i].calls[k].visited
    ensures edge.1 in states[i].calls[k].todo + states[i].calls[k].visited || WasMissed(states, events, i, k, edge)
  {
    hide Next, Acyclic, MissedAt;
    if i > 0 && edge.1 !in states[i].calls[k].todo + states[i].calls[k].visited {
      var m: nat := i - 1;
      assert Next(states[m], events[m]) == Some(states[m + 1]);
      BegunOrVisitless(states[m], events[m], k);
      MissedInStep(states[m], events[m], k, edge);
      if edge in states[m].edges && edge.0 in states[m].calls[k].visited && edge.1 !in states[m].calls[k].todo + states[m].calls[k].visited {
        ReadOrMissed(states, events, m, k, edge);
      } else {
        InsertedCall(states[m], events[m]);
        MissedNow(states, events, m, k, edge);
      }
    }
  }

  lemma BegunOrVisitless(s: Race, e: Event, k: nat)
    requires Next(s, e).Some? && k in Next(s, e).value.calls && Next(s, e).value.calls[k].visited != {}
    ensures k in s.calls
  {}

  lemma InsertedCall(s: Race, e: Event)
    requires Next(s, e).Some? && e.Insert?
    ensures e.k in s.calls
  {}

  lemma MissedNow(states: seq<Race>, events: seq<Event>, m: nat, k: nat, edge: (Id, Id))
    requires |states| == |events| + 1 && m < |events| && events[m].Insert? && events[m].k in states[m].calls && k in states[m].calls
    requires edge == (states[m].calls[events[m].k].task, states[m].calls[events[m].k].dependsOn)
    requires edge.0 in states[m].calls[k].visited
    ensures WasMissed(states, events, m + 1, k, edge)
  {
    assert MissedAt(states, events, m, k, edge);
  }

  /** A path out of a set leaves it by some edge. */
  lemma {:induction false} PathLeaves(edges: set<(Id, Id)>, inside: set<Id>, p: seq<Id>) returns (i: nat)
    requires IsPath(edges, p) && p[0] in inside && p[|p| - 1] !in inside
    ensures i + 1 < |p| && p[i] in inside && p[i + 1] !in inside && (p[i], p[i + 1]) in edges
    ensures Reaches(edges, p[i + 1], p[|p| - 1])
  {
    if p[1] !in inside {
      i := 0;
      assert PathBetween(edges, p[1..], p[1], p[|p| - 1]);
    } else {
      var j := PathLeaves(edges, inside, p[1..]);
      i := j + 1;
    }
  }

  /** When the search of a call is over, its task can be reached iff it was overtaken. */
  lemma ReachedIffOvertaken(states: seq<Race>, events: seq<Event>, i: nat, k: nat)
    requires IsRace(states, events) && i < |states| && k in states[i].calls
    requires states[i].calls[k].phase == Searching && states[i].calls[k].todo == {}
    ensures Reaches(states[i].edges, states[i].calls[k].dependsOn, states[i].calls[k].task) <==> Overtaken(states, events, i, k)
  {
    hide Next, Acyclic, MissedAt, Reaches;
    assert |states| == |events| + 1;
    hide IsRace;
    var c, edges := states[i].calls[k], states[i].edges;
    RaceInv(states, events, i);
    assert SearchOk(c, edges);
    if Reaches(edges, c.dependsOn, c.task) {
      var p := PathOf(edges, c.dependsOn, c.task);
      var n := PathLeaves(edges, c.visited, p);
      ReadOrMissed(states, events, i, k, (p[n], p[n + 1]));
    }
    if j: nat, edge: (Id, Id) :| j < i && MissedAt(states, events, j, k, edge) && Reaches(edges, edge.1, c.task) {
      MissedIsOnTheWay(states, events, j, i, k, edge);
      EdgeReaches(edges, edge.0, edge.1);
      ReachesTransitive(edges, c.dependsOn, edge.0, edge.1);
      ReachesTransitive(edges, c.dependsOn, edge.1, c.task);
    }
  }

  lemma PathOf(edges: set<(Id, Id)>, a: Id, b: Id) returns (p: seq<Id>)
    requires Reaches(edges, a, b)
    ensures PathBetween(edges, p, a, b)
  {
    p :| PathBetween(edges, p, a, b);
  }

  lemma MissedIsOnTheWay(states: seq<Race>, events: seq<Event>, j: nat, i: nat, k: nat, edge: (Id, Id))
    requires IsRace(states, events) && j < i < |states| && k in states[i].calls && MissedAt(states, events, j, k, edge)
    ensures edge in states[i].edges && Reaches(states[i].edges, states[i].calls[k].dependsOn, edge.0)
  {
    hide Acyclic, Reaches;
    assert Next(states[j], events[j]) == Some(states[j + 1]);
    assert edge in states[j + 1].edges;
    CallStays(states[j], events[j], k);
    hide Next;
    CallStaysInRace(states, events, j + 1, i, k);
    RaceInv(states, events, i);
    assert SearchOk(states[i].calls[k], states[i].edges);
  }

  /** No refusal is wrong, whatever else is inserted during the search and after it: at any
      time the edge would close a cycle. */
  lemma RefusedRightly(states: seq<Race>, events: seq<Event>, i: nat, k: nat)
    requires IsRace(states, events) && i < |states| && k in states[i].calls && states[i].calls[k].phase == Refused
    ensures var c := states[i].calls[k]; !Acyclic(states[i].edges + {(c.task, c.dependsOn)})
  {
    hide Acyclic, Next;
    RaceInv(states, events, i);
    var c, edges := states[i].calls[k], states[i].edges;
    assert SearchOk(c, edges);
    var more := edges + {(c.task, c.dependsOn)};
    PathsRemain(edges, more, c.dependsOn, c.task);
    BackEdgeClosesCycle(more, c.task, c.dependsOn);
  }

  lemma BackEdgeClosesCycle(edges: set<(Id, Id)>, a: Id, b: Id)
    requires (a, b) in edges && Reaches(edges, b, a)
    ensures !Acyclic(edges)
  {
    var p :| PathBetween(edges, p, b, a);
    assert PathBetween(edges, [a, b], a, b);
    PathsJoin(edges, [a, b], p, a, b, a);
  }

  /** An insertion into an acyclic graph keeps it acyclic iff its check was not overtaken. */
  lemma InsertExactly(states: seq<Race>, events: seq<Event>, i: nat)
    requires IsRace(states, events) && i < |events| && events[i].Insert? && Acyclic(states[i].edges)
    ensures events[i].k in states[i].calls
    ensures Acyclic(states[i + 1].edges) <==> !Overtaken(states, events, i, events[i].k)
  {
    hide Acyclic, Overtaken, Reaches;
    assert Next(states[i], events[i]) == Some(states[i + 1]);
    hide IsRace;
    var c, edges := states[i].calls[events[i].k], states[i].edges;
    AcyclicAfterAdding(edges, c.task, c.dependsOn);
    ReachedIffOvertaken(states, events, i, events[i].k);
  }

  ghost predicate NoneOvertaken(states: seq<Race>, events: seq<Event>, n: nat)
    requires |states| == |events| + 1 && n <= |events|
  {
    forall i: nat | i < n && events[i].Insert? && events[i].k in states[i].calls :: !Overtaken(states, events, i, events[i].k)
  }

  /** The graph is acyclic in every state up to n iff no insertion up to then had been overtaken
      during its check by a row that leaves a visited task and leads back. */
  lemma {:induction false} AcyclicExactly(states: seq<Race>, events: seq<Event>, n: nat)
    requires IsRace(states, events) && n < |states|
    ensures (forall i | 0 <= i <= n :: Acyclic(states[i].edges)) <==> NoneOvertaken(states, events, n)
  {
    hide Acyclic, Overtaken;
    if n > 0 {
      var m: nat := n - 1;
      AcyclicExactly(states, events, m);
      assert Next(states[m], events[m]) == Some(states[m + 1]);
      if (forall i | 0 <= i <= m :: Acyclic(states[i].edges)) && events[m].Insert? {
        InsertExactly(states, events, m);
      }
    }
  }

  /** In particular calls that are not disturbed between their begin and their insertion keep
      the graph acyclic. */
  lemma UndisturbedStaysAcyclic(states: seq<Race>, events: seq<Event>, n: nat)
    requires IsRace(states, events) && n < |states|
    requires forall i: nat | i < n && events[i].Insert? && events[i].k in states[i].calls ::
               states[i].edges == states[i].calls[events[i].k].start
    ensures Acyclic(states[n].edges)
  {
    hide Acyclic, Next, Overtaken;
    forall i: nat | i < n && events[i].Insert? && events[i].k in states[i].calls
      ensures !Overtaken(states, events, i, events[i].k)
    {
      UndisturbedIsNotOvertaken(states, events, i);
    }
    AcyclicExactly(states, events, n);
  }

  lemma UndisturbedIsNotOvertaken(states: seq<Race>, events: seq<Event>, i: nat)
    requires IsRace(states, events) && i < |events| && events[i].Insert? && events[i].k in states[i].calls
    requires states[i].edges == states[i].calls[events[i].k].start
    ensures !Overtaken(states, events, i, events[i].k)
  {
    hide Acyclic, Overtaken, Reaches, SearchOk;
    assert Next(states[i], events[i]) == Some(states[i + 1]);
    RaceInv(states, events, i);
    hide IsRace;
    AcceptedWasAcyclic(states[i].calls[events[i].k], states[i].edges);
    ReachedIffOvertaken(states, events, i, events[i].k);
  }

  /** The condition can fail: a -> b and b -> a are both checked on the empty table, and then
      both inserted. */
  lemma CrossingInsertions(a: Id, b: Id) returns (states: seq<Race>, events: seq<Event>)
    requires a != b
    ensures IsRace(states, events) && states[0].edges == {} && |events| == 6
    ensures states[6].edges == {(a, b), (b, a)} && !Acyclic(states[6].edges)
  {
    var c, d := Call(a, b, {b}, {}, {}, Searching), Call(b, a, {a}, {}, {}, Searching);
    var c1, d1 := c.(todo := {}, visited := {b}), d.(todo := {}, visited := {a});
    assert Searched(c, {}, b) == c1 && Searched(d, {}, a) == d1;
    var s0, s1, s2 := Race({}, map[]), Race({}, map[0 := c]), Race({}, map[0 := c, 1 := d]);
    var s3, s4 := Race({}, map[0 := c1, 1 := d]), Race({}, map[0 := c1, 1 := d1]);
    var s5 := Race({(a, b)}, map[0 := c1.(phase := Written), 1 := d1]);
    var s6 := Race({(a, b), (b, a)}, map[0 := c1.(phase := Written), 1 := d1.(phase := Written)]);
    events := [Begin(0, a, b), Begin(1, b, a), Visit(0, b), Visit(1, a), Insert(0), Insert(1)];
    states := [s0, s1, s2, s3, s4, s5, s6];
    assert s0.calls[0 := c] == s1.calls && s1.calls[1 := d] == s2.calls;
    assert s2.calls[0 := c1] == s3.calls && s3.calls[1 := d1] == s4.calls;
    assert s4.calls[0 := c1.(phase := Written)] == s5.calls && s5.calls[1 := d1.(phase := Written)] == s6.calls;
    assert {} + {(a, b)} == s5.edges && s5.edges + {(b, a)} == s6.edges;
    EmptyIsAcyclic();
    EdgeReaches(s6.edges, b, a);
    BackEdgeClosesCycle(s6.edges, a, b);
  }

  lemma HasEdge(edges: set<(Id, Id)>, p: seq<Id>)
    requires IsPath(edges, p) && |p| > 1
    ensures edges != {}
  {
    assert (p[0], p[0 + 1]) in edges;
  }

  lemma EmptyIsAcyclic()
    ensures Acyclic<Id>({})
  {
    if p: seq<Id> :| IsPath({}, p) && |p| > 1 && p[0] == p[|p| - 1] {
      HasEdge({}, p);
    }
  }
}
