/** A run of the merge queue in which a merged item is queued again: its conflict resolver
    signals its end twice, both calls read the conflicted item, the first re-queues it, the
    item is merged, and then the second call writes. */
module LateRequeue {
  import opened Options
  import opened Commits
  import opened MergeQueue
  import opened MergeSafety

  const MAX := 2
  const TARGET := Ref(0, 0)
  const BASE := Commit(0, [])
  const WORK := Commit(1, [BASE])

  function ItemIn(st: Status, attempts: nat, sha: Option<Commit>, resolver: Option<TaskId>): Item {
    Item(0, TARGET, st, attempts, 0, 0, sha, resolver)
  }

  /** The daemon is up and no worker runs. */
  function Idling(task: Task, others: map<TaskId, Task>, requeues: map<nat, Requeue>, tips: seq<Commit>, nextId: nat,
                  advances: seq<Advance>): System {
    System(Up, others[0 := task], map[TARGET := tips], map[], {}, requeues, nextId, advances)
  }

  /** The daemon is up and worker k runs task 0. */
  function Busy(k: WorkerId, w: Worker, task: Task, others: map<TaskId, Task>, requeues: map<nat, Requeue>, tips: seq<Commit>,
                nextId: nat, advances: seq<Advance>): System {
    System(Up, others[0 := task], map[TARGET := tips], map[k := w], {0}, requeues, nextId, advances)
  }

  function WorkerAt(pc: Pc, rebase: Option<(Commit, Commit)>): Worker {
    Worker(0, 0, TARGET, false, pc, rebase, None)
  }

  // ---- Building runs ---------------------------------------------------------------------------

  function Last(run: seq<System>): System {
    if run == [] then Idling(NO_TASK, map[], map[], [], 0, []) else run[|run| - 1]
  }

  /** Equality field by field. */
  lemma SameSystem(a: System, b: System)
    requires a.phase == b.phase && a.tasks == b.tasks && a.refs == b.refs && a.workers == b.workers && a.activeRepo == b.activeRepo
    requires a.requeues == b.requeues && a.nextId == b.nextId && a.advances == b.advances
    ensures a == b
  {}

  lemma Do(run: seq<System>, events: seq<Event>, e: Event, s: System) returns (run': seq<System>, events': seq<Event>)
    requires IsRun(MAX, run, events) && Next(MAX, Last(run), e) == Some(s)
    ensures IsRun(MAX, run', events') && Last(run') == s && events' == events + [e] && run' == run + [s]
  {
    hide Next, Init;
    run', events' := run + [s], events + [e];
    forall i | 0 <= i < |events'| ensures Next(MAX, run'[i], events'[i]) == Some(run'[i + 1]) {
      if i < |events| {
        assert Next(MAX, run[i], events[i]) == Some(run[i + 1]);
      }
    }
  }

  /** A worker's step in such a state, given what WorkerStep says. */
  lemma Work(run: seq<System>, events: seq<Event>, k: WorkerId, w: Worker, task: Task, others: map<TaskId, Task>,
             requeues: map<nat, Requeue>, tips: seq<Commit>, nextId: nat, advances: seq<Advance>, a: Answer, o: Outcome)
      returns (run': seq<System>, events': seq<Event>)
    requires IsRun(MAX, run, events) && Last(run) == Busy(k, w, task, others, requeues, tips, nextId, advances)
    requires w.task == 0 && w.target == TARGET && w.pc != Finished && |tips| > 0 && !a.NewTask?
    requires WorkerStep(MAX, w, task, Some(tips[|tips| - 1]), a) == Some(o)
    requires o.worker.task == 0 && o.worker.target == TARGET && o.tip.None? && o.created.None?
    ensures IsRun(MAX, run', events') && Last(run') == Busy(k, o.worker, o.task, others, requeues, tips, nextId, advances)
  {
    hide WorkerStep, IsRun, IsAncestor;
    WorkIsNext(k, w, task, others, requeues, tips, nextId, advances, a, o);
    run', events' := Do(run, events, Step(k, a), Busy(k, o.worker, o.task, others, requeues, tips, nextId, advances));
  }

  lemma WorkIsNext(k: WorkerId, w: Worker, task: Task, others: map<TaskId, Task>, requeues: map<nat, Requeue>, tips: seq<Commit>,
                   nextId: nat, advances: seq<Advance>, a: Answer, o: Outcome)
    requires w.task == 0 && w.target == TARGET && w.pc != Finished && |tips| > 0 && !a.NewTask?
    requires WorkerStep(MAX, w, task, Some(tips[|tips| - 1]), a) == Some(o)
    requires o.worker.task == 0 && o.worker.target == TARGET && o.tip.None? && o.created.None?
    ensures Next(MAX, Busy(k, w, task, others, requeues, tips, nextId, advances), Step(k, a))
         == Some(Busy(k, o.worker, o.task, others, requeues, tips, nextId, advances))
  {
    hide WorkerStep, IsAncestor;
    assert others[0 := task][0 := o.task] == others[0 := o.task];
    assert map[k := w][k := o.worker] == map[k := o.worker];
  }

  // ---- The run -----------------------------------------------------------------------------------

  function Fresh(row: Option<Item>): Task {
    Task(Done, row, Some(WORK), Some(WORK), false, 0)
  }

  const INITIAL := System(Down, map[0 := Fresh(None)], map[TARGET := [BASE]], map[], {}, map[], 0, [])

  lemma StartIsNext()
    ensures Next(MAX, INITIAL, Boot) == Some(INITIAL.(phase := Recovering({}, Scan)))
    ensures Next(MAX, INITIAL.(phase := Recovering({}, Scan)), RecoveryDone) == Some(INITIAL.(phase := Up))
    ensures Next(MAX, INITIAL.(phase := Up), Enqueue(0, TARGET, 0, 0))
         == Some(Idling(Fresh(Some(ItemIn(Queued, 0, None, None))), map[], map[], [BASE], 1, []))
  {
    hide IsAncestor;
    assert (set t | t in INITIAL.tasks && IsStuck(INITIAL, t)) == {};
    var queued := Fresh(Some(ItemIn(Queued, 0, None, None)));
    assert map[0 := Fresh(None)][0 := queued] == map[][0 := queued];
  }

  lemma Started() returns (run: seq<System>, events: seq<Event>)
    ensures IsRun(MAX, run, events)
    ensures Last(run) == Idling(Fresh(Some(ItemIn(Queued, 0, None, None))), map[], map[], [BASE], 1, [])
  {
    run, events := [INITIAL], [];
    hide Next;
    assert IsRun(MAX, run, events);
    hide IsRun;
    StartIsNext();
    run, events := Do(run, events, Boot, INITIAL.(phase := Recovering({}, Scan)));
    run, events := Do(run, events, RecoveryDone, INITIAL.(phase := Up));
    run, events := Do(run, events, Enqueue(0, TARGET, 0, 0),
                      Idling(Fresh(Some(ItemIn(Queued, 0, None, None))), map[], map[], [BASE], 1, []));
  }

  lemma TickIsNext(task: Task, others: map<TaskId, Task>, requeues: map<nat, Requeue>, nextId: nat)
    requires task.row.Some? && task.row.value.id == 0 && task.row.value.target == TARGET && task.row.value.status == Queued
    requires forall u | u in others :: others[u].row.None?
    ensures Next(MAX, Idling(task, others, requeues, [BASE], nextId, []), Tick(0, false))
         == Some(Busy(nextId, WorkerAt(Picked, None), task, others, requeues, [BASE], nextId + 1, []))
  {
    var s := Idling(task, others, requeues, [BASE], nextId, []);
    assert IsNext(s, 0);
    assert s.activeRepo + {0} == {0};
    assert s.workers[nextId := WorkerAt(Picked, None)] == map[nextId := WorkerAt(Picked, None)];
  }

  /** A queued item is picked and its worker goes as far as the rebase. */
  lemma PickedUp(run: seq<System>, events: seq<Event>, task: Task, others: map<TaskId, Task>, requeues: map<nat, Requeue>, nextId: nat)
      returns (run': seq<System>, events': seq<Event>)
    requires IsRun(MAX, run, events) && Last(run) == Idling(task, others, requeues, [BASE], nextId, [])
    requires task.row.Some? && task.row.value.id == 0 && task.row.value.target == TARGET && task.row.value.status == Queued
    requires task.branch.Some? && forall u | u in others :: others[u].row.None?
    ensures IsRun(MAX, run', events')
    ensures Last(run') == Busy(nextId, WorkerAt(Rebase(BASE), None), task.(row := Some(task.row.value.(status := Rebasing))),
                               others, requeues, [BASE], nextId + 1, [])
  {
    hide IsRun, IsAncestor;
    var w := WorkerAt(Picked, None);
    TickIsNext(task, others, requeues, nextId);
    run', events' := Do(run, events, Tick(0, false), Busy(nextId, w, task, others, requeues, [BASE], nextId + 1, []));
    var rebasing := task.(row := Some(task.row.value.(status := Rebasing)));
    var tree, resolve, rebase := WorkerAt(CreateTree, None), WorkerAt(ResolveTip, None), WorkerAt(Rebase(BASE), None);
    run', events' := Work(run', events', nextId, w, task, others, requeues, [BASE], nextId + 1, [], Ok,
                          Outcome(tree, rebasing, None, None));
    run', events' := Work(run', events', nextId, tree, rebasing, others, requeues, [BASE], nextId + 1, [], Ok,
                          Outcome(resolve, rebasing, None, None));
    run', events' := Work(run', events', nextId, resolve, rebasing, others, requeues, [BASE], nextId + 1, [], Ok,
                          Outcome(rebase, rebasing, None, None));
  }

  /** The state with the item in conflict and its resolver task 1 done. */
  function InConflict(requeues: map<nat, Requeue>): System {
    Idling(Task(Done, Some(ItemIn(Conflicted, 1, None, Some(1))), Some(WORK), Some(WORK), false, 1),
           map[1 := NO_TASK.(status := Done)], requeues, [BASE], 2, [])
  }

  lemma Conflicts() returns (run: seq<System>, events: seq<Event>)
    ensures IsRun(MAX, run, events) && Last(run) == InConflict(map[])
  {
    hide IsRun, IsAncestor;
    run, events := Started();
    var t := Fresh(Some(ItemIn(Queued, 0, None, None)));
    run, events := PickedUp(run, events, t, map[], map[], 1);
    var t0, t1 := Fresh(Some(ItemIn(Rebasing, 0, None, None))), Fresh(Some(ItemIn(Rebasing, 1, None, None)));
    var incr, decide, create := WorkerAt(ConflictIncr, None), WorkerAt(ConflictDecide, None), WorkerAt(ConflictCreate, None);
    run, events := Work(run, events, 1, WorkerAt(Rebase(BASE), None), t0, map[], map[], [BASE], 2, [], TrivialConflict,
                        Outcome(incr, t0, None, None));
    run, events := Work(run, events, 1, incr, t0, map[], map[], [BASE], 2, [], Ok, Outcome(decide, t1, None, None));
    run, events := Work(run, events, 1, decide, t1, map[], map[], [BASE], 2, [], Ok, Outcome(create, t1, None, None));
    run, events := ResolverSpawned(run, events);
  }

  lemma ResolverSpawned(run: seq<System>, events: seq<Event>) returns (run': seq<System>, events': seq<Event>)
    requires IsRun(MAX, run, events)
    requires Last(run) == Busy(1, WorkerAt(ConflictCreate, None), Fresh(Some(ItemIn(Rebasing, 1, None, None))), map[], map[], [BASE], 2, [])
    ensures IsRun(MAX, run', events') && Last(run') == InConflict(map[])
  {
    hide IsRun, IsAncestor, Next;
    var t1, t2 := Fresh(Some(ItemIn(Rebasing, 1, None, None))), Fresh(Some(ItemIn(Rebasing, 1, None, Some(1))));
    var t3 := Fresh(Some(ItemIn(Conflicted, 1, None, Some(1)))).(retries := 1);
    var link, write, finished := WorkerAt(ConflictLink(1), None), WorkerAt(ConflictWrite, None), WorkerAt(Finished, None);
    var others := map[1 := NO_TASK];
    SpawnIsNext();
    run', events' := Do(run, events, Step(1, NewTask(1)), Busy(1, link, t1, others, map[], [BASE], 2, []));
    run', events' := Work(run', events', 1, link, t1, others, map[], [BASE], 2, [], Ok, Outcome(write, t2, None, None));
    run', events' := Work(run', events', 1, write, t2, others, map[], [BASE], 2, [], Ok, Outcome(finished, t3, None, None));
    ResolverEnds(t3);
    run', events' := Do(run', events', Step(1, Ok), Idling(t3, others, map[], [BASE], 2, []));
    run', events' := Do(run', events', TaskMove(1, Done), InConflict(map[]));
  }

  lemma SpawnIsNext()
    ensures var t := Fresh(Some(ItemIn(Rebasing, 1, None, None)));
            Next(MAX, Busy(1, WorkerAt(ConflictCreate, None), t, map[], map[], [BASE], 2, []), Step(1, NewTask(1)))
            == Some(Busy(1, WorkerAt(ConflictLink(1), None), t, map[1 := NO_TASK], map[], [BASE], 2, []))
  {
    hide IsAncestor;
    var t := Fresh(Some(ItemIn(Rebasing, 1, None, None)));
    assert map[0 := t][0 := t][1 := NO_TASK] == map[1 := NO_TASK][0 := t];
    assert map[1 := WorkerAt(ConflictCreate, None)][1 := WorkerAt(ConflictLink(1), None)] == map[1 := WorkerAt(ConflictLink(1), None)];
  }

  lemma ResolverEnds(t: Task)
    requires t == Task(Done, Some(ItemIn(Conflicted, 1, None, Some(1))), Some(WORK), Some(WORK), false, 1)
    ensures Next(MAX, Busy(1, WorkerAt(Finished, None), t, map[1 := NO_TASK], map[], [BASE], 2, []), Step(1, Ok))
         == Some(Idling(t, map[1 := NO_TASK], map[], [BASE], 2, []))
    ensures Next(MAX, Idling(t, map[1 := NO_TASK], map[], [BASE], 2, []), TaskMove(1, Done)) == Some(InConflict(map[]))
  {
    var s := Busy(1, WorkerAt(Finished, None), t, map[1 := NO_TASK], map[], [BASE], 2, []);
    assert s.workers - {1} == map[];
    assert s.activeRepo - {0} == {};
    assert map[1 := NO_TASK][0 := t][1 := NO_TASK.(status := Done)] == map[1 := NO_TASK.(status := Done)][0 := t];
  }

  function BothSeen(): map<nat, Requeue> { map[0 := ItemSeen(0, 0), 1 := ItemSeen(0, 0)] }

  lemma CallsOverlap()
    ensures Next(MAX, InConflict(map[]), ResolverSeen(0, 1)) == Some(InConflict(map[0 := EndedSeen(1)]))
    ensures Next(MAX, InConflict(map[0 := EndedSeen(1)]), ResolverSeen(1, 1)) == Some(InConflict(map[0 := EndedSeen(1), 1 := EndedSeen(1)]))
    ensures Next(MAX, InConflict(map[0 := EndedSeen(1), 1 := EndedSeen(1)]), ResolverItem(0, 0))
         == Some(InConflict(map[0 := ItemSeen(0, 0), 1 := EndedSeen(1)]))
    ensures Next(MAX, InConflict(map[0 := ItemSeen(0, 0), 1 := EndedSeen(1)]), ResolverItem(1, 0)) == Some(InConflict(BothSeen()))
    ensures Next(MAX, InConflict(BothSeen()), ResolverWrite(0))
         == Some(Idling(Task(Done, Some(ItemIn(Queued, 1, None, Some(1))), Some(WORK), Some(WORK), false, 1),
                        map[1 := NO_TASK.(status := Done)], map[1 := ItemSeen(0, 0)], [BASE], 2, []))
  {
    hide IsAncestor;
    assert map[0 := EndedSeen(1), 1 := EndedSeen(1)][0 := ItemSeen(0, 0)] == map[0 := ItemSeen(0, 0), 1 := EndedSeen(1)];
    assert map[0 := ItemSeen(0, 0), 1 := EndedSeen(1)][1 := ItemSeen(0, 0)] == BothSeen();
    assert BothSeen() - {0} == map[1 := ItemSeen(0, 0)];
    var before, after := InConflict(BothSeen()).tasks[0], Task(Done, Some(ItemIn(Queued, 1, None, Some(1))), Some(WORK), Some(WORK), false, 1);
    var others := map[1 := NO_TASK.(status := Done)];
    assert others[0 := before][0 := after] == others[0 := after];
  }

  /** Both calls read the conflicted item, and the first writes. */
  lemma Overlap() returns (run: seq<System>, events: seq<Event>)
    ensures IsRun(MAX, run, events)
    ensures Last(run) == Idling(Task(Done, Some(ItemIn(Queued, 1, None, Some(1))), Some(WORK), Some(WORK), false, 1),
                                map[1 := NO_TASK.(status := Done)], map[1 := ItemSeen(0, 0)], [BASE], 2, [])
  {
    hide IsRun;
    run, events := Conflicts();
    CallsOverlap();
    hide Next;
    run, events := Do(run, events, ResolverSeen(0, 1), InConflict(map[0 := EndedSeen(1)]));
    run, events := Do(run, events, ResolverSeen(1, 1), InConflict(map[0 := EndedSeen(1), 1 := EndedSeen(1)]));
    run, events := Do(run, events, ResolverItem(0, 0), InConflict(map[0 := ItemSeen(0, 0), 1 := EndedSeen(1)]));
    run, events := Do(run, events, ResolverItem(1, 0), InConflict(BothSeen()));
    run, events := Do(run, events, ResolverWrite(0),
                      Idling(Task(Done, Some(ItemIn(Queued, 1, None, Some(1))), Some(WORK), Some(WORK), false, 1),
                             map[1 := NO_TASK.(status := Done)], map[1 := ItemSeen(0, 0)], [BASE], 2, []));
  }

  /** Task 0 while its second worker merges it. */
  function Merges(st: TaskStatus, item: Status, sha: Option<Commit>, branch: Option<Commit>, landed: bool): Task {
    Task(st, Some(ItemIn(item, 1, sha, Some(1))), branch, Some(WORK), landed, 1)
  }

  const OTHERS := map[1 := NO_TASK.(status := Done)]
  const LATE := map[1 := ItemSeen(0, 0)]
  const BOTH := Some((BASE, WORK))

  const SECOND := Merges(Done, Rebasing, None, Some(WORK), false)

  lemma WorkDescends()
    ensures IsAncestor(BASE, WORK)
  {
    assert IsAncestor(BASE, WORK.parents[0]);
  }

  lemma RebaseSteps()
    ensures WorkerStep(MAX, WorkerAt(Rebase(BASE), None), SECOND, Some(BASE), RebasedTo(WORK))
         == Some(Outcome(WorkerAt(Rebased(BASE, WORK), BOTH), SECOND, None, None))
    ensures WorkerStep(MAX, WorkerAt(Rebased(BASE, WORK), BOTH), SECOND, Some(BASE), Ok)
         == Some(Outcome(WorkerAt(Swap(BASE, WORK), BOTH), Merges(Done, Merging, None, Some(WORK), false), None, None))
  {
    WorkDescends();
    hide IsAncestor;
  }

  /** The item is queued again, picked and rebased: what is left is the swap. */
  lemma ReadyToSwap() returns (run: seq<System>, events: seq<Event>)
    ensures IsRun(MAX, run, events)
    ensures Last(run) == Busy(2, WorkerAt(Swap(BASE, WORK), BOTH), Merges(Done, Merging, None, Some(WORK), false), OTHERS, LATE, [BASE], 3, [])
  {
    hide IsRun, Last, WorkerStep;
    run, events := Overlap();
    run, events := PickedUp(run, events, Merges(Done, Queued, None, Some(WORK), false), OTHERS, LATE, 2);
    RebaseSteps();
    run, events := Work(run, events, 2, WorkerAt(Rebase(BASE), None), SECOND, OTHERS, LATE, [BASE], 3, [], RebasedTo(WORK),
                        Outcome(WorkerAt(Rebased(BASE, WORK), BOTH), SECOND, None, None));
    run, events := Work(run, events, 2, WorkerAt(Rebased(BASE, WORK), BOTH), SECOND, OTHERS, LATE, [BASE], 3, [], Ok,
                        Outcome(WorkerAt(Swap(BASE, WORK), BOTH), Merges(Done, Merging, None, Some(WORK), false), None, None));
  }

  lemma Swapped() returns (run: seq<System>, events: seq<Event>)
    ensures IsRun(MAX, run, events)
    ensures Last(run) == Busy(2, WorkerAt(Landed(WORK), BOTH), Merges(Done, Merging, None, Some(WORK), true), OTHERS, LATE, [BASE, WORK], 3,
                              [Advance(TARGET, BASE, WORK, WorkerAt(Landed(WORK), BOTH))])
  {
    hide IsRun, Next, IsAncestor;
    run, events := ReadyToSwap();
    var t1, landed := Merges(Done, Merging, None, Some(WORK), false), WorkerAt(Landed(WORK), BOTH);
    SwapIsNext(WorkerAt(Swap(BASE, WORK), BOTH), landed, t1, OTHERS, LATE);
    run, events := Do(run, events, Step(2, Ok),
                      Busy(2, landed, t1.(landed := true), OTHERS, LATE, [BASE, WORK], 3, [Advance(TARGET, BASE, WORK, landed)]));
  }

  lemma SwapIsNext(swap: Worker, landed: Worker, task: Task, others: map<TaskId, Task>, requeues: map<nat, Requeue>)
    requires swap.task == 0 && swap.target == TARGET && swap.pc == Swap(BASE, WORK) && landed == swap.(pc := Landed(WORK))
    ensures Next(MAX, Busy(2, swap, task, others, requeues, [BASE], 3, []), Step(2, Ok))
         == Some(Busy(2, landed, task.(landed := true), others, requeues, [BASE, WORK], 3, [Advance(TARGET, BASE, WORK, landed)]))
  {
    hide IsAncestor;
    var s := Busy(2, swap, task, others, requeues, [BASE], 3, []);
    var o := Outcome(landed, task.(landed := true), Some(WORK), None);
    assert WorkerStep(MAX, swap, task, Some(BASE), Ok) == Some(o);
    hide WorkerStep;
    assert Tip(s, TARGET) == Some(BASE) && TaskOf(s, 0) == task;
    SwapIsStored(swap, landed, task, others, requeues);
  }

  lemma SwapIsStored(swap: Worker, landed: Worker, task: Task, others: map<TaskId, Task>, requeues: map<nat, Requeue>)
    requires landed.task == 0 && landed.target == TARGET
    ensures Store(Busy(2, swap, task, others, requeues, [BASE], 3, []), 2, Some(BASE), Outcome(landed, task.(landed := true), Some(WORK), None))
         == Busy(2, landed, task.(landed := true), others, requeues, [BASE, WORK], 3, [Advance(TARGET, BASE, WORK, landed)])
  {
    var s := Busy(2, swap, task, others, requeues, [BASE], 3, []);
    var s' := Store(s, 2, Some(BASE), Outcome(landed, task.(landed := true), Some(WORK), None));
    assert s'.tasks == others[0 := task.(landed := true)];
    assert s'.workers == map[2 := landed];
    assert [BASE] + [WORK] == [BASE, WORK];
    assert s'.refs == map[TARGET := [BASE, WORK]];
    SameSystem(s', Busy(2, landed, task.(landed := true), others, requeues, [BASE, WORK], 3, [Advance(TARGET, BASE, WORK, landed)]));
  }

  /** The item is merged, its task is marked merged, and then the second resolver call queues
      the item again: what merged items and tasks keep in runs without such a write is lost. */
  lemma LateWriteUnmerges() returns (run: seq<System>, events: seq<Event>, i: nat)
    ensures IsRun(MAX, run, events) && i == |events| - 1
    ensures MergedAt(run[i], 0) && WritesRow(run[i], events[i], 0) && !StaysMerged(run)
    ensures run[i + 1].tasks[0].status == TaskMerged && StillQueued(run[i + 1], 0)
  {
    hide IsRun, IsAncestor;
    run, events := Swapped();
    var others, requeues, tips := map[1 := NO_TASK.(status := Done)], map[1 := ItemSeen(0, 0)], [BASE, WORK];
    var both := Some((BASE, WORK));
    var advances := [Advance(TARGET, BASE, WORK, WorkerAt(Landed(WORK), both))];
    var w0, w1, w2 := WorkerAt(Landed(WORK), both), WorkerAt(Unbranched(WORK), both), WorkerAt(WriteMerged(WORK), both);
    var w3, w4 := WorkerAt(WriteTaskMerged, both), WorkerAt(Finished, both);
    var t0, t1 := Merges(Done, Merging, None, Some(WORK), true), Merges(Done, Merging, None, None, true);
    var t2, t3, t4 := Merges(Done, Merging, Some(WORK), None, true), Merges(Done, Merged, Some(WORK), None, true), Merges(TaskMerged, Merged, Some(WORK), None, true);
    run, events := Work(run, events, 2, w0, t0, others, requeues, tips, 3, advances, Ok, Outcome(w1, t1, None, None));
    run, events := Work(run, events, 2, w1, t1, others, requeues, tips, 3, advances, Ok, Outcome(w2, t2, None, None));
    run, events := Work(run, events, 2, w2, t2, others, requeues, tips, 3, advances, Ok, Outcome(w3, t3, None, None));
    run, events := Work(run, events, 2, w3, t3, others, requeues, tips, 3, advances, Ok, Outcome(w4, t4, None, None));
    run, events, i := Late(run, events);
  }

  lemma Late(run: seq<System>, events: seq<Event>) returns (run': seq<System>, events': seq<Event>, i: nat)
    requires IsRun(MAX, run, events) && 0 in Last(run).tasks && MergedAt(Last(run), 0) && Last(run).tasks[0].status == TaskMerged
    requires Last(run).requeues == map[1 := ItemSeen(0, 0)] && Last(run).tasks[0].row.value.id == 0
    ensures IsRun(MAX, run', events') && i == |events'| - 1
    ensures MergedAt(run'[i], 0) && WritesRow(run'[i], events'[i], 0) && !StaysMerged(run')
    ensures run'[i + 1].tasks[0].status == TaskMerged && StillQueued(run'[i + 1], 0)
  {
    i := |events|;
    assert |run| == i + 1;
    hide IsAncestor;
    var s := Last(run);
    run', events' := Do(run, events, ResolverWrite(1), Next(MAX, s, ResolverWrite(1)).value);
    assert run'[i] == s && MergedAt(run'[i], 0) && !MergedAt(run'[i + 1], 0);
  }
}
