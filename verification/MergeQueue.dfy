/** The merge queue protocol: rows of the merge_queue and tasks tables, git refs and the
    goroutines of the processor, advanced by atomic events. Each SQL statement, each
    `update-ref` and each read of a ref is one event, so a crash or another actor can
    come between any two of them. */
module MergeQueue {
  import opened Options
  import opened Commits

  type TaskId = nat
  type WorkerId = nat

  datatype Status = Queued | Rebasing | Verifying | Merging | Merged | Failed | Rejected | Conflicted

  datatype TaskStatus = Pending | Running | Done | TaskFailed | Blocked | Closed | TaskMerged

  /** refs/heads/<name> of one repository. */
  datatype Ref = Ref(repo: nat, name: nat)

  /** A merge_queue row. `id` is the primary key, which MergeQueueEnqueue replaces
      whenever it reuses a terminal row. */
  datatype Item = Item(
    id: nat,
    target: Ref,
    status: Status,
    attempts: nat,
    priority: int,
    queuedAt: nat,
    mergeSha: Option<Commit>,
    resolver: Option<TaskId>)

  /** Everything keyed by one task id: its status, its queue row (task_id is UNIQUE) and
      its branch refs/heads/clankwork/<task>. The last three fields are history. */
  datatype Task = Task(
    status: TaskStatus,
    row: Option<Item>,
    branch: Option<Commit>,
    lastTip: Option<Commit>,   // last tip of the branch, kept after its deletion
    landed: bool,              // the branch's current tip was written to the target
    retries: nat)              // re-queues since the last enqueue, lost swaps not counted

  /** Where one processItem goroutine stands: the next thing it will do. */
  datatype Pc =
    | Picked                                // write 'rebasing'
    | CreateTree                            // git worktree add
    | ResolveTip                            // rev-parse the target
    | Rebase(base: Commit)                  // git rebase, which reads the target again
    | Rebased(base: Commit, sha: Commit)    // write 'verifying' or 'merging'
    | Verify(base: Commit, sha: Commit)     // run the verify command
    | Checked(base: Commit, sha: Commit)    // write 'merging'
    | Swap(base: Commit, sha: Commit)       // update-ref with the expected old value
    | StaleIncr                             // advanceTarget failed: count the attempt
    | StaleWrite                            // ... and re-queue
    | Landed(sha: Commit)                   // git branch -D
    | Unbranched(sha: Commit)               // write merge_sha
    | WriteMerged(sha: Commit)              // write 'merged'
    | WriteTaskMerged                       // write the task's 'merged'
    | FailIncr | FailDecide                 // failItem
    | VerifyIncr | VerifyDecide | VerifyTask | VerifyWrite   // requeueOrReject
    | SemanticWrite | SemanticTask          // handleConflict, semantic
    | ConflictIncr | ConflictDecide | ConflictCreate         // handleConflict, trivial
    | ConflictLink(resolver: TaskId) | ConflictWrite
    | Finished

  /** A goroutine. `rebase` (the tip the rebase saw and its result) and `verified` (the
      commit the verify command accepted) are history. */
  datatype Worker = Worker(
    task: TaskId,
    id: nat,
    target: Ref,
    verify: bool,
    pc: Pc,
    rebase: Option<(Commit, Commit)>,
    verified: Option<Commit>)

  /** What the outside world answers to a worker's step. */
  datatype Answer =
    | Ok
    | Error
    | RebasedTo(sha: Commit)
    | SemanticConflict
    | TrivialConflict
    | SyncFailed              // update-ref succeeded, `git reset --hard` did not
    | NewTask(task: TaskId)

  datatype RecoveryPc = Scan | Found(task: TaskId) | Absent(task: TaskId) | MarkTask(task: TaskId)

  /** A call of EnqueueIfAutoMerge or HandleConflictFailed, which nothing orders with others: it
      has seen that the resolver task ended, or the conflicted item it is about to re-queue. */
  datatype Requeue = EndedSeen(resolver: TaskId) | ItemSeen(task: TaskId, id: nat)

  datatype Phase = Down | Recovering(todo: set<TaskId>, at: RecoveryPc) | Up

  /** A queue write to a target ref, with the history of the worker that made it. */
  datatype Advance = Advance(ref: Ref, before: Commit, after: Commit, queue: Worker)

  /** A target ref is the list of all its tips; the last one is its value. */
  datatype System = System(
    phase: Phase,
    tasks: map<TaskId, Task>,
    refs: map<Ref, seq<Commit>>,
    workers: map<WorkerId, Worker>,
    activeRepo: set<nat>,
    requeues: map<nat, Requeue>,             // resolver calls between their reads and their write
    nextId: nat,                             // bound on the ids handed out
    advances: seq<Advance>)                  // history: every queue write to a target ref

  datatype Event =
    | Push(ref: Ref, tip: Commit)
    | AgentCommit(task: TaskId, tip: Commit)
    | TaskMove(task: TaskId, to: TaskStatus)
    | Enqueue(task: TaskId, target: Ref, priority: int, queuedAt: nat)
    | ResolverSeen(call: nat, resolver: TaskId)
    | ResolverItem(call: nat, task: TaskId)
    | ResolverWrite(call: nat)
    | Tick(task: TaskId, verify: bool)
    | Step(worker: WorkerId, answer: Answer)
    | Crash
    | Boot
    | Recover(task: TaskId)
    | RecoveryDone

  predicate InProgress(st: Status) {
    st == Rebasing || st == Verifying || st == Merging
  }

  predicate HasRow(s: System, t: TaskId) {
    t in s.tasks && s.tasks[t].row.Some?
  }

  predicate IsStuck(s: System, t: TaskId) {
    HasRow(s, t) && InProgress(s.tasks[t].row.value.status)
  }

  function Tip(s: System, r: Ref): Option<Commit> {
    if r in s.refs && s.refs[r] != [] then Some(s.refs[r][|s.refs[r]| - 1]) else None
  }

  /** MergeQueueNext: the queued row of a repo with the highest priority, oldest first. */
  predicate IsNext(s: System, t: TaskId) {
    HasRow(s, t) && s.tasks[t].row.value.status == Queued
    && forall u | u in s.tasks ::
         s.tasks[u].row.Some? && s.tasks[u].row.value.status == Queued
         && s.tasks[u].row.value.target.repo == s.tasks[t].row.value.target.repo ==>
           s.tasks[u].row.value.priority < s.tasks[t].row.value.priority
           || (s.tasks[u].row.value.priority == s.tasks[t].row.value.priority
               && s.tasks[t].row.value.queuedAt <= s.tasks[u].row.value.queuedAt)
  }

  /** isMergedInto: false as well when either ref is missing. */
  predicate IsMergedInto(branch: Option<Commit>, tip: Option<Commit>) {
    branch.Some? && tip.Some? && IsAncestor(branch.value, tip.value)
  }

  // ---- Row writes, all guarded by WHERE id=? -------------------------------------------

  predicate Owns(w: Worker, task: Task) {
    task.row.Some? && task.row.value.id == w.id
  }

  function SetStatus(w: Worker, task: Task, st: Status): (after: Task)
    ensures after.status == task.status
  {
    if Owns(w, task) then task.(row := Some(task.row.value.(status := st))) else task
  }

  function IncrAttempt(w: Worker, task: Task): (after: Task)
    ensures after.status == task.status
  {
    if Owns(w, task) then task.(row := Some(task.row.value.(attempts := task.row.value.attempts + 1))) else task
  }

  function SetMergeSha(w: Worker, task: Task, sha: Commit): (after: Task)
    ensures after.status == task.status
  {
    if Owns(w, task) then task.(row := Some(task.row.value.(mergeSha := Some(sha)))) else task
  }

  function SetResolver(w: Worker, task: Task, u: TaskId): (after: Task)
    ensures after.status == task.status
  {
    if Owns(w, task) then task.(row := Some(task.row.value.(resolver := Some(u)))) else task
  }

  /** MergeQueueGet after the increment; None when the row has been replaced. */
  function Attempts(w: Worker, task: Task): Option<nat> {
    if Owns(w, task) then Some(task.row.value.attempts) else None
  }

  function MoveBranch(task: Task, c: Commit): (after: Task)
    ensures after.status == task.status
  {
    task.(branch := Some(c), lastTip := Some(c), landed := false)
  }

  /** What one step of a worker does: its next state, its task's, a tip it wrote, a task it created. */
  datatype Outcome = Outcome(worker: Worker, task: Task, tip: Option<Commit>, created: Option<TaskId>)

  function Moved(w: Worker, pc: Pc, task: Task): Option<Outcome> {
    Some(Outcome(w.(pc := pc), task, None, None))
  }

  /** The body of processItem and of the functions it calls, one effect at a time. */
  function WorkerStep(maxAttempts: int, w: Worker, task: Task, tip: Option<Commit>, a: Answer): Option<Outcome> {
    match w.pc
    case Picked => Moved(w, CreateTree, SetStatus(w, task, Rebasing))
    case CreateTree =>
      if a == Ok && task.branch.Some? then Moved(w, ResolveTip, task)
      else if a == Error then Moved(w, FailIncr, task)
      else None
    case ResolveTip =>
      if a == Ok && tip.Some? then Moved(w, Rebase(tip.value), task)
      else if a == Error then Moved(w, FailIncr, task)
      else None
    case Rebase(base) =>
      (match a
       case RebasedTo(sha) =>
         if tip.Some? && IsAncestor(tip.value, sha)
         then Moved(w.(rebase := Some((tip.value, sha))), Rebased(base, sha), MoveBranch(task, sha))
         else None
       case SemanticConflict => Moved(w, SemanticWrite, task)
       case TrivialConflict => Moved(w, ConflictIncr, task)
       case Error => Moved(w, FailIncr, task)
       case _ => None)
    case Rebased(base, sha) =>
      if w.verify then Moved(w, Verify(base, sha), SetStatus(w, task, Verifying))
      else Moved(w, Swap(base, sha), SetStatus(w, task, Merging))
    case Verify(base, sha) =>
      if a == Ok then Moved(w.(verified := Some(sha)), Checked(base, sha), task)
      else if a == Error then Moved(w, VerifyIncr, task)
      else None
    case Checked(base, sha) => Moved(w, Swap(base, sha), SetStatus(w, task, Merging))
    case Swap(base, sha) =>
      if (a == Ok || a == SyncFailed) && tip == Some(base) then
        Some(Outcome(w.(pc := if a == Ok then Landed(sha) else StaleIncr), task.(landed := true), Some(sha), None))
      else if a == Error then Moved(w, StaleIncr, task)
      else None
    case StaleIncr => Moved(w, StaleWrite, IncrAttempt(w, task))
    case StaleWrite => Moved(w, Finished, SetStatus(w, task, Queued))
    case Landed(sha) =>
      if a == Ok then Moved(w, Unbranched(sha), task.(branch := None))
      else if a == Error then Moved(w, Unbranched(sha), task)
      else None
    case Unbranched(sha) => Moved(w, WriteMerged(sha), SetMergeSha(w, task, sha))
    case WriteMerged(_) => Moved(w, WriteTaskMerged, SetStatus(w, task, Merged))
    case WriteTaskMerged => Moved(w, Finished, task.(status := TaskMerged))
    case FailIncr => Moved(w, FailDecide, IncrAttempt(w, task))
    case FailDecide =>
      var n := Attempts(w, task);
      if n.Some? && n.value < maxAttempts
      then Moved(w, Finished, SetStatus(w, task, Queued).(retries := task.retries + 1))
      else Moved(w, Finished, SetStatus(w, task, Failed))
    case VerifyIncr => Moved(w, VerifyDecide, IncrAttempt(w, task))
    case VerifyDecide =>
      var n := Attempts(w, task);
      if n.Some? && n.value >= maxAttempts
      then Moved(w, Finished, SetStatus(w, task, Rejected))
      else Moved(w, VerifyTask, task)
    case VerifyTask => Moved(w, VerifyWrite, task.(status := Pending))
    case VerifyWrite => Moved(w, Finished, SetStatus(w, task, Failed).(retries := task.retries + 1))
    case SemanticWrite => Moved(w, SemanticTask, SetStatus(w, task, Rejected))
    case SemanticTask => Moved(w, Finished, task.(status := Pending))
    case ConflictIncr => Moved(w, ConflictDecide, IncrAttempt(w, task))
    case ConflictDecide =>
      var n := Attempts(w, task);
      if n.Some? && n.value >= maxAttempts
      then Moved(w, Finished, SetStatus(w, task, Rejected))
      else Moved(w, ConflictCreate, task)
    case ConflictCreate =>
      if a.NewTask? then Some(Outcome(w.(pc := ConflictLink(a.task)), task, None, Some(a.task))) else None
    case ConflictLink(u) => Moved(w, ConflictWrite, SetResolver(w, task, u))
    case ConflictWrite => Moved(w, Finished, SetStatus(w, task, Conflicted).(retries := task.retries + 1))
    case Finished => None
  }

  // ---- The whole system ----------------------------------------------------------------

  const NO_TASK := Task(Pending, None, None, None, false, 0)

  function TaskOf(s: System, t: TaskId): Task {
    if t in s.tasks then s.tasks[t] else NO_TASK
  }

  function SetTask(s: System, t: TaskId, task: Task): System {
    s.(tasks := s.tasks[t := task])
  }

  function AppendTip(s: System, r: Ref, c: Commit): System {
    s.(refs := s.refs[r := (if r in s.refs then s.refs[r] else []) + [c]])
  }

  /** Store the outcome of worker k's step. */
  function Store(s: System, k: WorkerId, before: Option<Commit>, o: Outcome): System {
    var s1 := SetTask(s, o.worker.task, o.task).(workers := s.workers[k := o.worker]);
    var s2 := if o.created.Some? then SetTask(s1, o.created.value, NO_TASK) else s1;
    if o.tip.Some? && before.Some? then
      AppendTip(s2, o.worker.target, o.tip.value).(
        advances := s2.advances + [Advance(o.worker.target, before.value, o.tip.value, o.worker)])
    else s2
  }

  /** A worker is past picking the task's item and has not left it yet. */
  predicate IsHandled(s: System, t: TaskId) {
    exists k | k in s.workers :: s.workers[k].task == t && IsBusy(s.workers[k].pc)
  }

  predicate IsBusy(pc: Pc) {
    pc != Picked && pc != SemanticTask && pc != Finished
  }

  predicate HasRowId(s: System, t: TaskId, id: nat) {
    HasRow(s, t) && s.tasks[t].row.value.id == id
  }

  /** UPDATE merge_queue SET status = 'queued' WHERE id = ? */
  function RequeueById(s: System, t: TaskId, id: nat): System {
    if HasRowId(s, t, id) then Mark(s, t, Queued) else s
  }

  function Next(maxAttempts: int, s: System, e: Event): Option<System> {
    match e
    // External pushers only fast-forward a target ref, or create it.
    case Push(r, c) =>
      if Tip(s, r).Some? ==> IsAncestor(Tip(s, r).value, c) then Some(AppendTip(s, r, c)) else None
    // Agents commit to a task branch only while its item is neither handled nor merged.
    case AgentCommit(t, c) =>
      if IsHandled(s, t)
         || (HasRow(s, t) && (InProgress(s.tasks[t].row.value.status) || s.tasks[t].row.value.status == Merged)) then None
      else Some(SetTask(s, t, MoveBranch(TaskOf(s, t), c)))
    // Scheduler and signals: anything but 'merged', which only the queue writes.
    case TaskMove(t, to) =>
      if to == TaskMerged then None else Some(SetTask(s, t, TaskOf(s, t).(status := to)))
    // MergeQueueEnqueue: insert, or reset a terminal row under a new id.
    case Enqueue(t, target, priority, queuedAt) =>
      if s.phase == Down then None
      else if HasRow(s, t) && (s.tasks[t].row.value.status !in {Failed, Rejected}
                               || s.tasks[t].row.value.target.repo != target.repo) then None
      else
        var row := Item(s.nextId, target, Queued, 0, priority, queuedAt, None, None);
        Some(SetTask(s, t, TaskOf(s, t).(row := Some(row), retries := 0, landed := false)).(nextId := s.nextId + 1))
    // EnqueueIfAutoMerge, HandleConflictFailed and StartupRecovery: SELECT the resolver task,
    // SELECT the item that waits for it, clean up, and UPDATE the item by its id alone.
    case ResolverSeen(c, u) =>
      if s.phase != Down && c !in s.requeues && TaskOf(s, u).status in {Done, TaskFailed, TaskMerged}
      then Some(s.(requeues := s.requeues[c := EndedSeen(u)])) else None
    case ResolverItem(c, t) =>
      if c in s.requeues && s.requeues[c].EndedSeen? && HasRow(s, t) && s.tasks[t].row.value.status == Conflicted
         && s.tasks[t].row.value.resolver == Some(s.requeues[c].resolver)
      then Some(s.(requeues := s.requeues[c := ItemSeen(t, s.tasks[t].row.value.id)])) else None
    case ResolverWrite(c) =>
      if c in s.requeues && s.requeues[c].ItemSeen?
      then Some(RequeueById(s, s.requeues[c].task, s.requeues[c].id).(requeues := s.requeues - {c})) else None
    case Tick(t, verify) =>
      if s.phase == Up && IsNext(s, t) && s.tasks[t].row.value.target.repo !in s.activeRepo then
        var item := s.tasks[t].row.value;
        Some(s.(workers := s.workers[s.nextId := Worker(t, item.id, item.target, verify, Picked, None, None)],
                activeRepo := s.activeRepo + {item.target.repo},
                nextId := s.nextId + 1))
      else None
    case Step(k, a) =>
      if k !in s.workers then None
      else if s.workers[k].pc == Finished then
        Some(s.(workers := s.workers - {k}, activeRepo := s.activeRepo - {s.workers[k].target.repo}))
      else if a.NewTask? && a.task in s.tasks then None
      else
        var w := s.workers[k];
        var o := WorkerStep(maxAttempts, w, TaskOf(s, w.task), Tip(s, w.target), a);
        if o.None? then None else Some(Store(s, k, Tip(s, w.target), o.value))
    // A crash keeps rows and refs and loses every goroutine and the activeRepo map.
    case Crash => Some(s.(phase := Down, workers := map[], activeRepo := {}, requeues := map[]))
    case Boot =>
      if s.phase == Down then Some(s.(phase := Recovering((set t | t in s.tasks && IsStuck(s, t)), Scan))) else None
    case Recover(t) =>
      if s.phase.Recovering? then RecoveryStep(s, t) else None
    case RecoveryDone =>
      if s.phase == Recovering({}, Scan) then Some(s.(phase := Up)) else None
  }

  function Mark(s: System, t: TaskId, st: Status): System
    requires HasRow(s, t)
  {
    SetTask(s, t, s.tasks[t].(row := Some(s.tasks[t].row.value.(status := st))))
  }

  /** One iteration of the StartupRecovery loop over the stuck items. */
  function RecoveryStep(s: System, t: TaskId): Option<System>
    requires s.phase.Recovering?
  {
    match s.phase.at
    case Scan =>
      if t in s.phase.todo && HasRow(s, t) then
        var merged := IsMergedInto(s.tasks[t].branch, Tip(s, s.tasks[t].row.value.target));
        Some(s.(phase := s.phase.(at := if merged then Found(t) else Absent(t))))
      else None
    case Found(u) =>
      if HasRow(s, u) then Some(Mark(s, u, Merged).(phase := Recovering(s.phase.todo - {u}, MarkTask(u)))) else None
    case Absent(u) =>
      if HasRow(s, u) then Some(Mark(s, u, Queued).(phase := Recovering(s.phase.todo - {u}, Scan))) else None
    case MarkTask(u) =>
      Some(SetTask(s, u, TaskOf(s, u).(status := TaskMerged)).(phase := s.phase.(at := Scan)))
  }

  /** No queue items yet; tasks, branches and target refs are arbitrary. */
  ghost predicate Init(s: System) {
    && s.phase == Down && s.workers == map[] && s.activeRepo == {} && s.requeues == map[] && s.advances == []
    && (forall t | t in s.tasks ::
          s.tasks[t].status != TaskMerged && s.tasks[t].row.None? && s.tasks[t].retries == 0
          && !s.tasks[t].landed && s.tasks[t].lastTip == s.tasks[t].branch)
    && (forall r | r in s.refs :: |s.refs[r]| == 1)
  }

  /** A run: states linked by enabled events, from an initial state. */
  ghost predicate IsRun(maxAttempts: int, run: seq<System>, events: seq<Event>) {
    && |run| == |events| + 1
    && Init(run[0])
    && forall i | 0 <= i < |events| :: Next(maxAttempts, run[i], events[i]) == Some(run[i + 1])
  }
}
