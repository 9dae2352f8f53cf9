/** The inductive invariant of the merge queue protocol and its preservation by every event. */
module MergeInvariant {
  import opened Options
  import opened Commits
  import opened MergeQueue

  // ---- One worker, its task and the tip of its target ----------------------------------

  ghost predicate AtLeast(tip: Option<Commit>, c: Commit) {
    tip.Some? && IsAncestor(c, tip.value)
  }

  /** The row the worker was started for is still its row, in the given status or back in
      'queued', where a late resolver call may have put it. */
  ghost predicate At(w: Worker, task: Task, st: Status) {
    Owns(w, task) && task.row.value.target == w.target && task.row.value.status in {st, Queued}
  }

  /** Between rebase and swap: the branch is the rebased commit, which descends from the tip
      the rebase saw, which descends from the tip recorded before it. */
  ghost predicate Carries(w: Worker, task: Task, tip: Option<Commit>, base: Commit, sha: Commit) {
    && task.branch == Some(sha) && task.lastTip == Some(sha)
    && w.rebase.Some? && w.rebase.value.1 == sha
    && IsAncestor(base, w.rebase.value.0) && IsAncestor(w.rebase.value.0, sha) && AtLeast(tip, w.rebase.value.0)
  }

  ghost predicate AttemptSpare(task: Task) {
    task.row.Some? && task.retries < task.row.value.attempts
  }

  ghost predicate AttemptSpent(max: int, task: Task) {
    AttemptSpare(task) && task.row.value.attempts < max
  }

  ghost predicate PcOk(max: int, w: Worker, task: Task, tip: Option<Commit>) {
    match w.pc
    case Picked => At(w, task, Queued)
    case CreateTree => At(w, task, Rebasing)
    case ResolveTip => At(w, task, Rebasing)
    case Rebase(base) => At(w, task, Rebasing) && AtLeast(tip, base)
    case Rebased(base, sha) => At(w, task, Rebasing) && Carries(w, task, tip, base, sha)
    case Verify(base, sha) => At(w, task, Verifying) && Carries(w, task, tip, base, sha)
    case Checked(base, sha) => At(w, task, Verifying) && Carries(w, task, tip, base, sha) && w.verified == Some(sha)
    case Swap(base, sha) =>
      At(w, task, Merging) && Carries(w, task, tip, base, sha) && (w.verify ==> w.verified == Some(sha))
    case StaleIncr => At(w, task, Merging)
    case StaleWrite => At(w, task, Merging)
    case Landed(sha) => At(w, task, Merging) && LandedOk(task, tip, sha) && task.branch == Some(sha) && task.landed
    case Unbranched(sha) => At(w, task, Merging) && LandedOk(task, tip, sha)
    case WriteMerged(sha) => At(w, task, Merging) && LandedOk(task, tip, sha) && task.row.value.mergeSha == Some(sha)
    case WriteTaskMerged => At(w, task, Merged)
    case FailIncr => At(w, task, Rebasing)
    case FailDecide => At(w, task, Rebasing) && AttemptSpare(task)
    case VerifyIncr => At(w, task, Verifying)
    case VerifyDecide => At(w, task, Verifying) && AttemptSpare(task)
    case VerifyTask => At(w, task, Verifying) && AttemptSpent(max, task)
    case VerifyWrite => At(w, task, Verifying) && AttemptSpent(max, task)
    case SemanticWrite => At(w, task, Rebasing)
    case ConflictIncr => At(w, task, Rebasing)
    case ConflictDecide => At(w, task, Rebasing) && AttemptSpare(task)
    case ConflictCreate => At(w, task, Rebasing) && AttemptSpent(max, task)
    case ConflictLink(_) => At(w, task, Rebasing) && AttemptSpent(max, task)
    case ConflictWrite => At(w, task, Rebasing) && AttemptSpent(max, task)
    case SemanticTask => Idle(w, task)
    case Finished => Idle(w, task)
  }

  ghost predicate LandedOk(task: Task, tip: Option<Commit>, sha: Commit) {
    task.lastTip == Some(sha) && AtLeast(tip, sha)
  }

  /** The worker's row, if it still is its row, is neither in progress nor merged. */
  ghost predicate Idle(w: Worker, task: Task) {
    Owns(w, task) ==> !InProgress(task.row.value.status)
  }

  /** A worker beside its task and the tip of its target. */
  ghost predicate WorkerOk(max: int, w: Worker, task: Task, tip: Option<Commit>) {
    task.row.Some? && task.row.value.target.repo == w.target.repo && PcOk(max, w, task, tip)
  }

  /** A task beside the tip of its row's target. */
  ghost predicate TaskOk(max: int, task: Task, tip: Option<Commit>) {
    && (task.branch.Some? ==> task.lastTip == task.branch)
    && (IsMerged(task) ==> task.lastTip.Some? && AtLeast(tip, task.lastTip.value))
    && (task.row.Some? && task.row.value.mergeSha.Some? ==> AtLeast(tip, task.row.value.mergeSha.value))
    && (task.row.Some? && task.landed && task.branch.Some? ==> AtLeast(tip, task.branch.value))
    && (task.row.Some? ==> task.retries <= task.row.value.attempts)
    && (task.retries == 0 || task.retries < max)
  }

  ghost predicate IsMerged(task: Task) {
    task.row.Some? && task.row.value.status == Merged
  }

  ghost predicate AdvanceOk(a: Advance) {
    && IsAncestor(a.before, a.after)
    && a.queue.target == a.ref
    && a.queue.rebase == Some((a.before, a.after))
    && (a.queue.verify ==> a.queue.verified == Some(a.after))
  }

  /** What a step from (w, task) to o must keep, rowTip being the tip of the row's target. */
  ghost predicate Keeps(max: int, w: Worker, task: Task, tip: Option<Commit>, rowTip: Option<Commit>, o: Outcome)
    requires task.row.Some?
  {
    && WorkerOk(max, o.worker, o.task, if o.tip.Some? then o.tip else tip)
    && TaskOk(max, o.task, if o.tip.Some? then o.tip else rowTip)
    && (o.tip.Some? ==> task.row.value.target == w.target && tip.Some?
                        && AdvanceOk(Advance(w.target, tip.value, o.tip.value, o.worker)))
    && o.worker.task == w.task && o.worker.id == w.id && o.worker.target == w.target
    && o.task.row.Some? && o.task.row.value.id == task.row.value.id
    && o.task.row.value.target == task.row.value.target
    && (!Owns(w, task) ==> o.task.row == task.row)
  }

  ghost predicate StepPre(max: int, w: Worker, task: Task, tip: Option<Commit>, a: Answer, rowTip: Option<Commit>) {
    && WorkerOk(max, w, task, tip) && TaskOk(max, task, rowTip)
    && (task.row.value.target == w.target ==> rowTip == tip)
    && WorkerStep(max, w, task, tip, a).Some?
  }

  lemma RebaseStepOk(max: int, w: Worker, task: Task, tip: Option<Commit>, a: Answer, rowTip: Option<Commit>)
    requires StepPre(max, w, task, tip, a, rowTip)
    requires w.pc.Picked? || w.pc.CreateTree? || w.pc.ResolveTip? || w.pc.Rebase? || w.pc.Rebased? || w.pc.Verify? || w.pc.Checked?
    ensures Keeps(max, w, task, tip, rowTip, WorkerStep(max, w, task, tip, a).value)
  {
    hide IsAncestor;
    if tip.Some? {
      AncestorReflexive(tip.value);
    }
  }

  /** The swap: the expected value, the tip the rebase saw and the current tip are in order
      and the outer two are equal, so the rebase saw exactly the tip being replaced. */
  lemma SwapStepOk(max: int, w: Worker, task: Task, tip: Option<Commit>, a: Answer, rowTip: Option<Commit>)
    requires StepPre(max, w, task, tip, a, rowTip) && w.pc.Swap?
    ensures Keeps(max, w, task, tip, rowTip, WorkerStep(max, w, task, tip, a).value)
  {
    hide IsAncestor;
    AncestorReflexive(w.pc.sha);
    if tip == Some(w.pc.base) {
      AncestorAntisymmetric(w.pc.base, w.rebase.value.0);
      if task.row.value.mergeSha.Some? {
        AncestorTransitive(task.row.value.mergeSha.value, w.pc.base, w.pc.sha);
      }
    }
  }

  lemma LandedStepOk(max: int, w: Worker, task: Task, tip: Option<Commit>, a: Answer, rowTip: Option<Commit>)
    requires StepPre(max, w, task, tip, a, rowTip)
    requires w.pc.Landed? || w.pc.Unbranched? || w.pc.WriteMerged? || w.pc.WriteTaskMerged?
    ensures Keeps(max, w, task, tip, rowTip, WorkerStep(max, w, task, tip, a).value)
  {
    hide IsAncestor;
  }

  lemma FailStepOk(max: int, w: Worker, task: Task, tip: Option<Commit>, a: Answer, rowTip: Option<Commit>)
    requires StepPre(max, w, task, tip, a, rowTip)
    requires w.pc.StaleIncr? || w.pc.StaleWrite? || w.pc.FailIncr? || w.pc.FailDecide?
    ensures Keeps(max, w, task, tip, rowTip, WorkerStep(max, w, task, tip, a).value)
  {
    hide IsAncestor;
  }

  lemma VerifyStepOk(max: int, w: Worker, task: Task, tip: Option<Commit>, a: Answer, rowTip: Option<Commit>)
    requires StepPre(max, w, task, tip, a, rowTip)
    requires w.pc.VerifyIncr? || w.pc.VerifyDecide? || w.pc.VerifyTask? || w.pc.VerifyWrite?
    ensures Keeps(max, w, task, tip, rowTip, WorkerStep(max, w, task, tip, a).value)
  {
    hide IsAncestor;
  }

  lemma ConflictStepOk(max: int, w: Worker, task: Task, tip: Option<Commit>, a: Answer, rowTip: Option<Commit>)
    requires StepPre(max, w, task, tip, a, rowTip)
    requires w.pc.ConflictIncr? || w.pc.ConflictDecide? || w.pc.ConflictCreate?
    ensures Keeps(max, w, task, tip, rowTip, WorkerStep(max, w, task, tip, a).value)
  {
    hide IsAncestor;
  }

  lemma ConflictedStepOk(max: int, w: Worker, task: Task, tip: Option<Commit>, a: Answer, rowTip: Option<Commit>)
    requires StepPre(max, w, task, tip, a, rowTip)
    requires w.pc.ConflictLink? || w.pc.ConflictWrite? || w.pc.SemanticWrite? || w.pc.SemanticTask?
    ensures Keeps(max, w, task, tip, rowTip, WorkerStep(max, w, task, tip, a).value)
  {
    hide IsAncestor;
  }

  /** One step keeps a worker's own invariant and its task's. */
  lemma StepOk(max: int, w: Worker, task: Task, tip: Option<Commit>, a: Answer, rowTip: Option<Commit>)
    requires StepPre(max, w, task, tip, a, rowTip)
    ensures Keeps(max, w, task, tip, rowTip, WorkerStep(max, w, task, tip, a).value)
  {
    hide IsAncestor, WorkerOk, TaskOk, Keeps;
    match w.pc
    case Picked | CreateTree | ResolveTip | Rebase(_) | Rebased(_, _) | Verify(_, _) | Checked(_, _) =>
      RebaseStepOk(max, w, task, tip, a, rowTip);
    case Swap(_, _) => SwapStepOk(max, w, task, tip, a, rowTip);
    case Landed(_) | Unbranched(_) | WriteMerged(_) | WriteTaskMerged => LandedStepOk(max, w, task, tip, a, rowTip);
    case StaleIncr | StaleWrite | FailIncr | FailDecide => FailStepOk(max, w, task, tip, a, rowTip);
    case VerifyIncr | VerifyDecide | VerifyTask | VerifyWrite => VerifyStepOk(max, w, task, tip, a, rowTip);
    case ConflictIncr | ConflictDecide | ConflictCreate => ConflictStepOk(max, w, task, tip, a, rowTip);
    case ConflictLink(_) | ConflictWrite | SemanticWrite | SemanticTask => ConflictedStepOk(max, w, task, tip, a, rowTip);
    case Finished =>
  }

  // ---- The whole system ----------------------------------------------------------------

  function RowTip(s: System, task: Task): Option<Commit> {
    if task.row.Some? then Tip(s, task.row.value.target) else None
  }

  ghost predicate Runs(s: System, k: WorkerId, t: TaskId) {
    k in s.workers && HasRow(s, t) && s.workers[k].task == t && s.workers[k].id == s.tasks[t].row.value.id
  }

  /** Every in-progress row has someone who will move it on. */
  ghost predicate Owned(s: System, t: TaskId) {
    match s.phase
    case Down => true
    case Recovering(todo, _) => t in todo
    case Up => exists k :: Runs(s, k, t)
  }

  /** Every entry is an ancestor of every later one. */
  ghost predicate Chain(cs: seq<Commit>) {
    cs != [] && forall i, j | 0 <= i <= j < |cs| :: IsAncestor(cs[i], cs[j])
  }

  ghost predicate WorkersOk(max: int, s: System) {
    && (s.phase != Up ==> s.workers == map[])
    && (forall j, k | j in s.workers && k in s.workers && j != k ::
          s.workers[j].target.repo != s.workers[k].target.repo)
    && (forall k | k in s.workers ::
          && k < s.nextId && s.workers[k].id < s.nextId
          && s.workers[k].target.repo in s.activeRepo
          && s.workers[k].task in s.tasks
          && WorkerOk(max, s.workers[k], s.tasks[s.workers[k].task], Tip(s, s.workers[k].target)))
  }

  ghost predicate TasksOk(max: int, s: System) {
    forall t | t in s.tasks ::
      && TaskOk(max, s.tasks[t], RowTip(s, s.tasks[t]))
      && (HasRow(s, t) ==> s.tasks[t].row.value.id < s.nextId)
      && (IsStuck(s, t) ==> Owned(s, t))
  }

  ghost predicate OnePerRepo(s: System) {
    forall t, u | IsStuck(s, t) && IsStuck(s, u) && t != u ::
      s.tasks[t].row.value.target.repo != s.tasks[u].row.value.target.repo
  }

  ghost predicate RefsOk(s: System) {
    && (forall r | r in s.refs :: Chain(s.refs[r]))
    && (forall i | 0 <= i < |s.advances| :: AdvanceOk(s.advances[i]))
  }

  ghost predicate RecoveryOk(s: System) {
    s.phase.Recovering? ==>
      && (forall t | t in s.phase.todo :: IsStuck(s, t))
      && match s.phase.at
         case Scan => true
         case Found(u) =>
           && u in s.phase.todo && s.tasks[u].branch.Some?
           && AtLeast(RowTip(s, s.tasks[u]), s.tasks[u].branch.value)
         case Absent(u) => u in s.phase.todo && !(s.tasks[u].landed && s.tasks[u].branch.Some?)
         case MarkTask(u) => u in s.tasks && IsMerged(s.tasks[u])
  }

  /** A pending re-queue names a row that existed; until the daemon is up no worker has moved
      that row on since the call read it. */
  ghost predicate RequeuesOk(s: System) {
    && (s.phase == Down ==> s.requeues == map[])
    && forall c | c in s.requeues && s.requeues[c].ItemSeen? ::
         && s.requeues[c].id < s.nextId
         && (s.phase != Up && HasRowId(s, s.requeues[c].task, s.requeues[c].id) ==>
               s.tasks[s.requeues[c].task].row.value.status in {Conflicted, Queued})
  }

  ghost predicate Inv(max: int, s: System) {
    WorkersOk(max, s) && TasksOk(max, s) && OnePerRepo(s) && RefsOk(s) && RecoveryOk(s) && RequeuesOk(s)
  }

  lemma InitInv(max: int, s: System)
    requires Init(s)
    ensures Inv(max, s)
  {
    forall r | r in s.refs ensures Chain(s.refs[r]) {
      AncestorReflexive(s.refs[r][0]);
    }
  }

  /** Target refs only move forward. */
  ghost predicate TipsGrow(s: System, s': System) {
    forall r | Tip(s, r).Some? :: AtLeast(Tip(s', r), Tip(s, r).value)
  }

  lemma TipGrows(s: System, s': System, r: Ref, c: Commit)
    requires TipsGrow(s, s') && AtLeast(Tip(s, r), c)
    ensures AtLeast(Tip(s', r), c)
  {
    AncestorTransitive(c, Tip(s, r).value, Tip(s', r).value);
  }

  lemma WorkerFrame(max: int, s: System, s': System, w: Worker, task: Task)
    requires TipsGrow(s, s') && WorkerOk(max, w, task, Tip(s, w.target))
    ensures WorkerOk(max, w, task, Tip(s', w.target))
  {
    hide IsAncestor;
    forall c | AtLeast(Tip(s, w.target), c) ensures AtLeast(Tip(s', w.target), c) {
      TipGrows(s, s', w.target, c);
    }
  }

  lemma TaskFrame(max: int, s: System, s': System, task: Task)
    requires TipsGrow(s, s') && TaskOk(max, task, RowTip(s, task))
    ensures TaskOk(max, task, RowTip(s', task))
  {
    hide IsAncestor;
    if task.row.Some? {
      forall c | AtLeast(RowTip(s, task), c) ensures AtLeast(RowTip(s', task), c) {
        TipGrows(s, s', task.row.value.target, c);
      }
    }
  }

  lemma TipsUnmoved(s: System, s': System)
    requires s'.refs == s.refs
    ensures TipsGrow(s, s') && forall r :: Tip(s', r) == Tip(s, r)
  {
    forall r | Tip(s, r).Some? ensures AtLeast(Tip(s', r), Tip(s, r).value) {
      AncestorReflexive(Tip(s, r).value);
    }
  }

  lemma ChainExtends(cs: seq<Commit>, c: Commit)
    requires Chain(cs) && IsAncestor(cs[|cs| - 1], c)
    ensures Chain(cs + [c])
  {
    hide IsAncestor;
    var ds := cs + [c];
    forall i, j | 0 <= i <= j < |ds| ensures IsAncestor(ds[i], ds[j]) {
      if j == |cs| {
        if i == |cs| {
          AncestorReflexive(c);
        } else {
          AncestorTransitive(cs[i], cs[|cs| - 1], c);
        }
      }
    }
  }

  /** Appending a descendant to a ref keeps the ref histories and moves tips forward. */
  lemma AppendOk(s: System, r: Ref, c: Commit)
    requires RefsOk(s) && (Tip(s, r).Some? ==> IsAncestor(Tip(s, r).value, c))
    ensures RefsOk(AppendTip(s, r, c)) && TipsGrow(s, AppendTip(s, r, c))
    ensures Tip(AppendTip(s, r, c), r) == Some(c)
    ensures forall q | q != r :: Tip(AppendTip(s, r, c), q) == Tip(s, q)
  {
    hide IsAncestor;
    AncestorReflexive(c);
    if r in s.refs {
      ChainExtends(s.refs[r], c);
    }
    var s' := AppendTip(s, r, c);
    forall q | Tip(s, q).Some? ensures AtLeast(Tip(s', q), Tip(s, q).value) {
      AncestorReflexive(Tip(s, q).value);
    }
  }

  // ---- Every event keeps the invariant --------------------------------------------------

  /** A change confined to one task, with the refs moving forward. */
  ghost predicate OneTask(s: System, s': System, t: TaskId) {
    && s.tasks.Keys <= s'.tasks.Keys && t in s'.tasks
    && (forall u | u in s'.tasks && u != t :: if u in s.tasks then s'.tasks[u] == s.tasks[u] else s'.tasks[u] == NO_TASK)
    && TipsGrow(s, s') && s.nextId <= s'.nextId
  }

  lemma TasksKept(max: int, s: System, s': System, t: TaskId)
    requires TasksOk(max, s) && OneTask(s, s', t)
    requires TaskOk(max, s'.tasks[t], RowTip(s', s'.tasks[t]))
    requires HasRow(s', t) ==> s'.tasks[t].row.value.id < s'.nextId
    requires forall u | IsStuck(s', u) && (u == t || Owned(s, u)) :: Owned(s', u)
    ensures TasksOk(max, s')
  {
    hide IsAncestor;
    forall u | u in s'.tasks && u != t ensures TaskOk(max, s'.tasks[u], RowTip(s', s'.tasks[u])) {
      if u in s.tasks {
        TaskFrame(max, s, s', s.tasks[u]);
      }
    }
  }

  lemma WorkersKept(max: int, s: System, s': System, t: TaskId)
    requires WorkersOk(max, s) && OneTask(s, s', t)
    requires s'.phase == s.phase && s'.workers == s.workers && s'.activeRepo == s.activeRepo
    requires forall k | k in s.workers && s.workers[k].task == t ::
               WorkerOk(max, s.workers[k], s'.tasks[t], Tip(s', s.workers[k].target))
    ensures WorkersOk(max, s')
  {
    hide IsAncestor;
    forall k | k in s'.workers && s'.workers[k].task != t
      ensures WorkerOk(max, s'.workers[k], s'.tasks[s'.workers[k].task], Tip(s', s'.workers[k].target))
    {
      WorkerFrame(max, s, s', s.workers[k], s.tasks[s.workers[k].task]);
    }
  }

  /** A worker that has not started on its item, or has left it, does not depend on the branch. */
  lemma RestingWorker(max: int, w: Worker, task: Task, task': Task, tip: Option<Commit>)
    requires WorkerOk(max, w, task, tip) && task'.row == task.row && !IsBusy(w.pc)
    ensures WorkerOk(max, w, task', tip)
  {}

  /** Once a row is terminal, the worker that left it does not look at it again. */
  lemma LeftWorker(max: int, w: Worker, task: Task, task': Task, tip: Option<Commit>)
    requires WorkerOk(max, w, task, tip) && task'.row.Some?
    requires task.row.value.status in {Failed, Rejected}
    requires task'.row.value.target.repo == task.row.value.target.repo && task'.row.value.status == Queued
    ensures WorkerOk(max, w, task', tip)
  {}

  /** A worker goes on whatever status a late re-queue leaves its row in. */
  lemma RequeuedWorker(max: int, w: Worker, task: Task, tip: Option<Commit>)
    requires WorkerOk(max, w, task, tip)
    ensures WorkerOk(max, w, task.(row := Some(task.row.value.(status := Queued))), tip)
  {
    hide IsAncestor;
  }

  lemma PushInv(max: int, s: System, r: Ref, c: Commit)
    requires Inv(max, s) && Next(max, s, Push(r, c)).Some?
    ensures Inv(max, Next(max, s, Push(r, c)).value)
  {
    hide IsAncestor, WorkerOk, TaskOk, Chain, AdvanceOk;
    var s' := AppendTip(s, r, c);
    AppendOk(s, r, c);
    forall k | k in s'.workers
      ensures WorkerOk(max, s'.workers[k], s'.tasks[s'.workers[k].task], Tip(s', s'.workers[k].target))
    {
      WorkerFrame(max, s, s', s.workers[k], s.tasks[s.workers[k].task]);
    }
    assert forall k, t :: Runs(s, k, t) == Runs(s', k, t);
    forall t | t in s'.tasks ensures TaskOk(max, s'.tasks[t], RowTip(s', s'.tasks[t])) && (IsStuck(s', t) ==> Owned(s', t)) {
      TaskFrame(max, s, s', s.tasks[t]);
      if IsStuck(s', t) {
        assert IsStuck(s, t);
      }
    }
    if s.phase.Recovering? && s.phase.at.Found? {
      TipGrows(s, s', s.tasks[s.phase.at.task].row.value.target, s.tasks[s.phase.at.task].branch.value);
    }
  }

  /** Events that touch neither tasks nor refs. */
  lemma SameTables(max: int, s: System, s': System)
    requires TasksOk(max, s) && OnePerRepo(s) && RefsOk(s) && RecoveryOk(s)
    requires s'.tasks == s.tasks && s'.refs == s.refs && s'.advances == s.advances && s.nextId <= s'.nextId && s'.phase == s.phase
    requires forall u | IsStuck(s, u) && Owned(s, u) :: Owned(s', u)
    ensures TasksOk(max, s') && OnePerRepo(s') && RefsOk(s') && RecoveryOk(s')
  {
    hide IsAncestor, TaskOk, Chain, AdvanceOk;
    assert forall u :: IsStuck(s', u) == IsStuck(s, u);
    assert forall t | t in s'.tasks :: RowTip(s', s'.tasks[t]) == RowTip(s, s.tasks[t]);
  }

  /** Events that rewrite one task without moving a target ref or a goroutine. */
  lemma OneTaskInv(max: int, s: System, s': System, t: TaskId)
    requires Inv(max, s) && OneTask(s, s', t) && s'.refs == s.refs && s'.advances == s.advances
    requires s'.phase == s.phase && s'.workers == s.workers && s'.activeRepo == s.activeRepo
    requires TaskOk(max, s'.tasks[t], RowTip(s', s'.tasks[t]))
    requires forall k | k in s.workers && s.workers[k].task == t ::
               WorkerOk(max, s.workers[k], s'.tasks[t], Tip(s', s.workers[k].target))
    requires HasRow(s', t) ==> s'.tasks[t].row.value.id < s'.nextId
    requires IsStuck(s', t) ==> t in s.tasks && s'.tasks[t].row == s.tasks[t].row && s'.tasks[t].branch == s.tasks[t].branch
                                && s'.tasks[t].landed == s.tasks[t].landed
    requires s.phase.Recovering? && IsStuck(s, t) ==> IsStuck(s', t)
    requires s.phase.Recovering? && t in s.tasks && IsMerged(s.tasks[t]) ==> IsMerged(s'.tasks[t])
    requires RequeuesOk(s')
    ensures Inv(max, s')
  {
    hide IsAncestor, WorkerOk, TaskOk, Chain, AdvanceOk, RequeuesOk, WorkersOk, OnePerRepo, RecoveryOk;
    TipsUnmoved(s, s');
    WorkersKept(max, s, s', t);
    StuckIsOwned(max, s);
    StuckKept(s, s', t);
    TasksKept(max, s, s', t);
    StillOnePerRepo(s, s');
    RecoveryKept(s, s', t);
  }

  lemma StuckIsOwned(max: int, s: System)
    requires TasksOk(max, s)
    ensures forall u | IsStuck(s, u) :: Owned(s, u)
  {
    hide TaskOk, Owned;
  }

  lemma StillOnePerRepo(s: System, s': System)
    requires OnePerRepo(s) && forall u | IsStuck(s', u) :: IsStuck(s, u) && s'.tasks[u].row == s.tasks[u].row
    ensures OnePerRepo(s')
  {}

  lemma RecoveryKept(s: System, s': System, t: TaskId)
    requires RecoveryOk(s) && OneTask(s, s', t) && s'.refs == s.refs && s'.phase == s.phase
    requires IsStuck(s', t) ==> t in s.tasks && s'.tasks[t].row == s.tasks[t].row && s'.tasks[t].branch == s.tasks[t].branch
                                && s'.tasks[t].landed == s.tasks[t].landed
    requires s.phase.Recovering? && IsStuck(s, t) ==> IsStuck(s', t)
    requires s.phase.Recovering? && t in s.tasks && IsMerged(s.tasks[t]) ==> IsMerged(s'.tasks[t])
    ensures RecoveryOk(s')
  {
    hide IsAncestor;
  }

  lemma StuckKept(s: System, s': System, t: TaskId)
    requires OneTask(s, s', t) && s'.phase == s.phase && s'.workers == s.workers
    requires forall u | IsStuck(s, u) :: Owned(s, u)
    requires IsStuck(s', t) ==> t in s.tasks && s'.tasks[t].row == s.tasks[t].row
    ensures forall u | IsStuck(s', u) :: IsStuck(s, u) && s'.tasks[u].row == s.tasks[u].row && Owned(s', u)
  {
    forall u | IsStuck(s', u) ensures IsStuck(s, u) && Owned(s', u) {
      assert IsStuck(s, u) && Owned(s, u);
      assert s'.tasks[u].row == s.tasks[u].row;
      if s.phase == Up {
        var k :| Runs(s, k, u);
        assert Runs(s', k, u);
      }
    }
  }

  /** A change of one task that leaves its row's id and any conflicted or queued row's status. */
  lemma RequeuesKept(s: System, s': System, t: TaskId)
    requires RequeuesOk(s) && s'.phase == s.phase && s.nextId <= s'.nextId && t in s'.tasks
    requires forall c | c in s'.requeues :: c in s.requeues && s'.requeues[c] == s.requeues[c]
    requires forall u | u in s.tasks && u != t :: u in s'.tasks && s'.tasks[u] == s.tasks[u]
    requires forall u | u in s'.tasks && u != t && u !in s.tasks :: s'.tasks[u].row.None?
    requires s'.tasks[t].row.Some? ==>
               || s'.tasks[t].row.value.id >= s.nextId
               || (t in s.tasks && s.tasks[t].row.Some? && s.tasks[t].row.value.id == s'.tasks[t].row.value.id
                   && (s'.tasks[t].row.value.status == s.tasks[t].row.value.status || s'.tasks[t].row.value.status == Queued))
    ensures RequeuesOk(s')
  {}

  lemma AgentEventInv(max: int, s: System, e: Event)
    requires Inv(max, s) && (e.AgentCommit? || e.TaskMove?) && Next(max, s, e).Some?
    ensures Inv(max, Next(max, s, e).value)
  {
    hide IsAncestor, PcOk, Chain, AdvanceOk, RequeuesOk;
    var s', t := Next(max, s, e).value, e.task;
    TipsUnmoved(s, s');
    forall k | k in s.workers && s.workers[k].task == t
      ensures WorkerOk(max, s.workers[k], s'.tasks[t], Tip(s', s.workers[k].target))
    {
      var w := s.workers[k];
      if e.AgentCommit? {
        RestingWorker(max, w, s.tasks[t], s'.tasks[t], Tip(s, w.target));
      } else {
        StatusIrrelevant(max, w, s.tasks[t], e.to, Tip(s, w.target));
      }
    }
    assert t in s.tasks ==> TaskOk(max, s.tasks[t], RowTip(s, s.tasks[t]));
    RequeuesKept(s, s', t);
    OneTaskInv(max, s, s', t);
  }

  lemma EnqueueInv(max: int, s: System, e: Event)
    requires Inv(max, s) && e.Enqueue? && Next(max, s, e).Some?
    ensures Inv(max, Next(max, s, e).value)
  {
    hide IsAncestor, PcOk, Chain, AdvanceOk, RequeuesOk;
    var s', t := Next(max, s, e).value, e.task;
    TipsUnmoved(s, s');
    forall k | k in s.workers && s.workers[k].task == t
      ensures WorkerOk(max, s.workers[k], s'.tasks[t], Tip(s', s.workers[k].target))
    {
      LeftWorker(max, s.workers[k], s.tasks[t], s'.tasks[t], Tip(s, s.workers[k].target));
    }
    assert t in s.tasks ==> TaskOk(max, s.tasks[t], RowTip(s, s.tasks[t]));
    RequeuesKept(s, s', t);
    OneTaskInv(max, s, s', t);
  }

  /** A resolver call's reads change nothing but what the call knows. */
  lemma ResolverReadInv(max: int, s: System, e: Event)
    requires Inv(max, s) && (e.ResolverSeen? || e.ResolverItem?) && Next(max, s, e).Some?
    ensures Inv(max, Next(max, s, e).value)
  {
    hide IsAncestor, WorkerOk, TasksOk, OnePerRepo, RefsOk, RecoveryOk;
    var s' := Next(max, s, e).value;
    RowsAreOld(max, s);
    SameOwners(s, s');
    SameTables(max, s, s');
  }

  lemma RowsAreOld(max: int, s: System)
    requires TasksOk(max, s)
    ensures forall t | HasRow(s, t) :: s.tasks[t].row.value.id < s.nextId
  {
    hide TaskOk;
  }

  lemma SameOwners(s: System, s': System)
    requires s'.tasks == s.tasks && s'.workers == s.workers && s'.phase == s.phase
    ensures forall u :: Owned(s', u) == Owned(s, u)
  {
    assert forall k, u :: Runs(s', k, u) == Runs(s, k, u);
  }

  /** The unguarded write: whatever the row has become meanwhile, the invariant stays. */
  lemma ResolverWriteInv(max: int, s: System, c: nat)
    requires Inv(max, s) && Next(max, s, ResolverWrite(c)).Some?
    ensures Inv(max, Next(max, s, ResolverWrite(c)).value)
  {
    hide IsAncestor, PcOk, Chain, AdvanceOk;
    var s', t, id := Next(max, s, ResolverWrite(c)).value, s.requeues[c].task, s.requeues[c].id;
    if HasRowId(s, t, id) {
      TipsUnmoved(s, s');
      forall k | k in s.workers && s.workers[k].task == t
        ensures WorkerOk(max, s.workers[k], s'.tasks[t], Tip(s', s.workers[k].target))
      {
        RequeuedWorker(max, s.workers[k], s.tasks[t], Tip(s, s.workers[k].target));
      }
      assert TaskOk(max, s.tasks[t], RowTip(s, s.tasks[t]));
      RequeuesKept(s, s', t);
      OneTaskInv(max, s, s', t);
    } else {
      ForgetRequeue(max, s, c);
    }
  }

  lemma ForgetRequeue(max: int, s: System, c: nat)
    requires Inv(max, s)
    ensures Inv(max, s.(requeues := s.requeues - {c}))
  {
    hide IsAncestor, WorkerOk, TasksOk, OnePerRepo, RefsOk, RecoveryOk;
    var s' := s.(requeues := s.requeues - {c});
    SameOwners(s, s');
    SameTables(max, s, s');
  }

  lemma StatusIrrelevant(max: int, w: Worker, task: Task, st: TaskStatus, tip: Option<Commit>)
    requires WorkerOk(max, w, task, tip)
    ensures WorkerOk(max, w, task.(status := st), tip)
  {
    hide IsAncestor;
  }

  lemma NextIsQueued(s: System, t: TaskId)
    requires IsNext(s, t)
    ensures HasRow(s, t) && s.tasks[t].row.value.status == Queued
  {}

  lemma TickInv(max: int, s: System, t: TaskId, verify: bool)
    requires Inv(max, s) && Next(max, s, Tick(t, verify)).Some?
    ensures Inv(max, Next(max, s, Tick(t, verify)).value)
  {
    hide IsAncestor, WorkerOk, OnePerRepo, RefsOk, RecoveryOk, TaskOk, IsNext;
    NextIsQueued(s, t);
    var s' := Next(max, s, Tick(t, verify)).value;
    PickedOk(max, s'.workers[s.nextId], s.tasks[t], Tip(s', s'.workers[s.nextId].target));
    forall u | Owned(s, u) ensures Owned(s', u) {
      var k :| Runs(s, k, u);
      assert Runs(s', k, u);
    }
    SameTables(max, s, s');
  }

  lemma PickedOk(max: int, w: Worker, task: Task, tip: Option<Commit>)
    requires task.row.Some? && task.row.value.status == Queued && w.pc == Picked
    requires w.id == task.row.value.id && w.target == task.row.value.target
    ensures WorkerOk(max, w, task, tip)
  {}

  lemma FinishedIsIdle(max: int, w: Worker, task: Task, tip: Option<Commit>)
    requires WorkerOk(max, w, task, tip) && w.pc == Finished
    ensures Idle(w, task)
  {}

  lemma FinishInv(max: int, s: System, k: WorkerId, a: Answer)
    requires Inv(max, s) && k in s.workers && s.workers[k].pc == Finished
    ensures Inv(max, Next(max, s, Step(k, a)).value)
  {
    hide IsAncestor, WorkerOk, TasksOk, OnePerRepo, RefsOk, RecoveryOk;
    var s', w := Next(max, s, Step(k, a)).value, s.workers[k];
    FinishedIsIdle(max, w, s.tasks[w.task], Tip(s, w.target));
    forall u | IsStuck(s, u) && Owned(s, u) ensures Owned(s', u) {
      var j :| Runs(s, j, u);
      assert Runs(s', j, u);
    }
    SameTables(max, s, s');
  }

  /** How a worker's step shows in the system. */
  ghost predicate Stepped(s: System, s': System, k: WorkerId, o: Outcome)
    requires k in s.workers
  {
    var w := s.workers[k];
    && OneTask(s, s', w.task) && s'.tasks[w.task] == o.task
    && s'.workers == s.workers[k := o.worker] && s'.phase == s.phase
    && s'.activeRepo == s.activeRepo && s'.nextId == s.nextId
    && RefsOk(s')
    && (if o.tip.Some? then Tip(s', w.target) == o.tip else s'.refs == s.refs)
  }

  lemma StepShape(max: int, s: System, k: WorkerId, o: Outcome, before: Option<Commit>)
    requires RefsOk(s) && k in s.workers && s.workers[k].task in s.tasks
    requires o.worker.task == s.workers[k].task && o.worker.target == s.workers[k].target
    requires before == Tip(s, o.worker.target)
    requires o.tip.Some? ==> before.Some? && AdvanceOk(Advance(o.worker.target, before.value, o.tip.value, o.worker))
    requires o.created.Some? ==> o.created.value !in s.tasks
    ensures Stepped(s, Store(s, k, before, o), k, o)
  {
    hide IsAncestor, Chain;
    var s' := Store(s, k, before, o);
    if o.tip.Some? {
      AppendOk(s, o.worker.target, o.tip.value);
      var s1 := AppendTip(s, o.worker.target, o.tip.value);
      assert s'.refs == s1.refs;
      TipsUnmoved(s1, s');
    } else {
      TipsUnmoved(s, s');
    }
  }

  lemma SteppedWorkers(max: int, s: System, s': System, k: WorkerId, o: Outcome)
    requires Inv(max, s) && k in s.workers && Stepped(s, s', k, o)
    requires o.worker.task == s.workers[k].task && o.worker.target == s.workers[k].target && o.worker.id == s.workers[k].id
    requires WorkerOk(max, o.worker, o.task, Tip(s', o.worker.target))
    ensures WorkersOk(max, s')
  {
    hide IsAncestor, PcOk, TaskOk, Chain;
    forall j | j in s'.workers && j != k
      ensures s.workers[j].task != o.worker.task
      ensures WorkerOk(max, s'.workers[j], s'.tasks[s'.workers[j].task], Tip(s', s'.workers[j].target))
    {
      assert WorkerOk(max, s.workers[j], s.tasks[s.workers[j].task], Tip(s, s.workers[j].target));
      assert WorkerOk(max, s.workers[k], s.tasks[o.worker.task], Tip(s, o.worker.target));
      WorkerFrame(max, s, s', s.workers[j], s.tasks[s.workers[j].task]);
    }
  }

  lemma SteppedTasks(max: int, s: System, s': System, k: WorkerId, o: Outcome)
    requires Inv(max, s) && k in s.workers && Stepped(s, s', k, o)
    requires s.workers[k].task in s.tasks && s.tasks[s.workers[k].task].row.Some?
    requires Keeps(max, s.workers[k], s.tasks[s.workers[k].task], Tip(s, s.workers[k].target), RowTip(s, s.tasks[s.workers[k].task]), o)
    ensures TasksOk(max, s')
  {
    hide IsAncestor, PcOk, TaskOk, Chain;
    var w := s.workers[k];
    var t := w.task;
    forall u | IsStuck(s', u) ensures Owned(s', u) {
      if u == t && Owns(w, s.tasks[t]) {
        assert Runs(s', k, t);
      } else {
        assert IsStuck(s, u);
        var j :| Runs(s, j, u);
        assert Runs(s', j, u);
      }
    }
    TasksKept(max, s, s', t);
  }

  lemma StepFacts(max: int, s: System, k: WorkerId, a: Answer) returns (o: Outcome)
    requires Inv(max, s) && k in s.workers && s.workers[k].pc != Finished && Next(max, s, Step(k, a)).Some?
    ensures var w := s.workers[k];
            && w.task in s.tasks && s.tasks[w.task].row.Some?
            && WorkerStep(max, w, s.tasks[w.task], Tip(s, w.target), a) == Some(o)
            && Next(max, s, Step(k, a)).value == Store(s, k, Tip(s, w.target), o)
            && Stepped(s, Store(s, k, Tip(s, w.target), o), k, o)
            && Keeps(max, w, s.tasks[w.task], Tip(s, w.target), RowTip(s, s.tasks[w.task]), o)
            && Store(s, k, Tip(s, w.target), o).requeues == s.requeues
  {
    hide IsAncestor, PcOk, TaskOk, Chain, AdvanceOk, WorkerStep, OnePerRepo, RequeuesOk, RecoveryOk;
    var w := s.workers[k];
    var t, tip := w.task, Tip(s, w.target);
    assert WorkerOk(max, w, s.tasks[t], tip) && TaskOk(max, s.tasks[t], RowTip(s, s.tasks[t]));
    o := WorkerStep(max, w, s.tasks[t], tip, a).value;
    StepOk(max, w, s.tasks[t], tip, a, RowTip(s, s.tasks[t]));
    CreatedIsNew(max, w, s.tasks[t], tip, a);
    StepShape(max, s, k, o, tip);
  }

  lemma StepInv(max: int, s: System, k: WorkerId, a: Answer)
    requires Inv(max, s) && k in s.workers && s.workers[k].pc != Finished && Next(max, s, Step(k, a)).Some?
    ensures Inv(max, Next(max, s, Step(k, a)).value)
  {
    hide IsAncestor, WorkerOk, TaskOk, Chain, AdvanceOk, WorkerStep, OnePerRepo, TasksOk, RefsOk, Next, Store;
    var o := StepFacts(max, s, k, a);
    var s' := Store(s, k, Tip(s, s.workers[k].target), o);
    SteppedWorkers(max, s, s', k, o);
    SteppedTasks(max, s, s', k, o);
    WorkersGiveOnePerRepo(max, s');
  }

  lemma CreatedIsNew(max: int, w: Worker, task: Task, tip: Option<Commit>, a: Answer)
    requires WorkerStep(max, w, task, tip, a).Some?
    ensures var o := WorkerStep(max, w, task, tip, a).value; o.created.Some? ==> a == NewTask(o.created.value)
  {}

  /** With one worker per repo and every in-progress row owned, one item per repo is in progress. */
  lemma WorkersGiveOnePerRepo(max: int, s: System)
    requires WorkersOk(max, s) && TasksOk(max, s) && s.phase == Up
    ensures OnePerRepo(s)
  {
    hide IsAncestor, PcOk, TaskOk;
    forall t, u | IsStuck(s, t) && IsStuck(s, u) && t != u
      ensures s.tasks[t].row.value.target.repo != s.tasks[u].row.value.target.repo
    {
      var i :| Runs(s, i, t);
      var j :| Runs(s, j, u);
      assert WorkerOk(max, s.workers[i], s.tasks[t], Tip(s, s.workers[i].target));
      assert WorkerOk(max, s.workers[j], s.tasks[u], Tip(s, s.workers[j].target));
    }
  }

  lemma LifecycleInv(max: int, s: System, e: Event)
    requires Inv(max, s) && (e.Crash? || e.Boot? || e.RecoveryDone?) && Next(max, s, e).Some?
    ensures Inv(max, Next(max, s, e).value)
  {
    hide IsAncestor, WorkerOk, TaskOk, Chain, AdvanceOk;
    var s' := Next(max, s, e).value;
    TipsUnmoved(s, s');
    assert forall t :: IsStuck(s', t) == IsStuck(s, t);
  }

  lemma RecoverScanInv(max: int, s: System, t: TaskId)
    requires Inv(max, s) && Next(max, s, Recover(t)).Some? && s.phase.at.Scan?
    ensures Inv(max, Next(max, s, Recover(t)).value)
  {
    hide IsAncestor, WorkerOk, Chain;
    var s' := Next(max, s, Recover(t)).value;
    TipsUnmoved(s, s');
    assert TaskOk(max, s.tasks[t], RowTip(s, s.tasks[t]));
    assert TasksOk(max, s') by {
      hide TaskOk;
      assert forall u :: IsStuck(s', u) == IsStuck(s, u);
    }
  }

  /** Writing one recovered task keeps the others; the written row leaves in-progress. */
  lemma RecoverWriteInv(max: int, s: System, s': System, u: TaskId)
    requires Inv(max, s) && s.phase.Recovering? && s'.phase.Recovering? && u in s.tasks
    requires s'.tasks.Keys == s.tasks.Keys && (forall v | v in s.tasks && v != u :: s'.tasks[v] == s.tasks[v])
    requires s'.refs == s.refs && s'.workers == s.workers && s'.activeRepo == s.activeRepo
    requires s'.advances == s.advances && s'.nextId == s.nextId && s'.requeues == s.requeues
    requires TaskOk(max, s'.tasks[u], RowTip(s', s'.tasks[u]))
    requires HasRow(s', u) ==> HasRow(s, u) && s'.tasks[u].row.value.id == s.tasks[u].row.value.id
                               && (IsStuck(s, u) || s'.tasks[u].row == s.tasks[u].row)
    requires s'.phase.todo == s.phase.todo - {u} && !IsStuck(s', u)
    requires HasRow(s', u) ==> s'.tasks[u].row.value.id < s'.nextId
    requires s'.phase.at.Scan? || (s'.phase.at == MarkTask(u) && IsMerged(s'.tasks[u]))
    ensures Inv(max, s')
  {
    hide IsAncestor, WorkerOk, TaskOk, Chain, AdvanceOk;
    TipsUnmoved(s, s');
    forall v | IsStuck(s', v) ensures IsStuck(s, v) && Owned(s', v) {
      assert v != u;
      assert IsStuck(s, v);
    }
    assert forall v | v in s'.phase.todo :: IsStuck(s, v) && v != u;
    TasksKept(max, s, s', u);
  }

  /** The write that ends a stuck row's recovery. */
  lemma RecoverRowInv(max: int, s: System, t: TaskId)
    requires Inv(max, s) && Next(max, s, Recover(t)).Some? && (s.phase.at.Found? || s.phase.at.Absent?)
    ensures Inv(max, Next(max, s, Recover(t)).value)
  {
    hide IsAncestor, WorkerOk, Chain, AdvanceOk, OnePerRepo, RefsOk, RequeuesOk;
    var s', u := Next(max, s, Recover(t)).value, s.phase.at.task;
    assert TaskOk(max, s.tasks[u], RowTip(s, s.tasks[u]));
    assert Tip(s', s.tasks[u].row.value.target) == Tip(s, s.tasks[u].row.value.target);
    RecoverWriteInv(max, s, s', u);
  }

  /** The write that marks a recovered task merged. */
  lemma RecoverTaskInv(max: int, s: System, t: TaskId)
    requires Inv(max, s) && Next(max, s, Recover(t)).Some? && s.phase.at.MarkTask?
    ensures Inv(max, Next(max, s, Recover(t)).value)
  {
    hide IsAncestor, WorkerOk, Chain, AdvanceOk, OnePerRepo, RefsOk, RequeuesOk;
    var s', u := Next(max, s, Recover(t)).value, s.phase.at.task;
    assert TaskOk(max, s.tasks[u], RowTip(s, s.tasks[u]));
    assert RowTip(s', s'.tasks[u]) == RowTip(s, s.tasks[u]);
    assert u in s.phase.todo ==> IsStuck(s, u);
    RecoverWriteInv(max, s, s', u);
  }

  lemma RecoverInv(max: int, s: System, t: TaskId)
    requires Inv(max, s) && Next(max, s, Recover(t)).Some?
    ensures Inv(max, Next(max, s, Recover(t)).value)
  {
    hide Inv, RecoveryStep;
    match s.phase.at
    case Scan => RecoverScanInv(max, s, t);
    case Found(_) | Absent(_) => RecoverRowInv(max, s, t);
    case MarkTask(_) => RecoverTaskInv(max, s, t);
  }

  lemma NextInv(max: int, s: System, e: Event)
    requires Inv(max, s) && Next(max, s, e).Some?
    ensures Inv(max, Next(max, s, e).value)
  {
    hide Inv, WorkerStep, RecoveryStep;
    match e
    case Push(r, c) => PushInv(max, s, r, c);
    case AgentCommit(_, _) | TaskMove(_, _) => AgentEventInv(max, s, e);
    case Enqueue(_, _, _, _) => EnqueueInv(max, s, e);
    case ResolverSeen(_, _) | ResolverItem(_, _) => ResolverReadInv(max, s, e);
    case ResolverWrite(c) => ResolverWriteInv(max, s, c);
    case Tick(t, verify) => TickInv(max, s, t, verify);
    case Step(k, a) =>
      if s.workers[k].pc == Finished {
        FinishInv(max, s, k, a);
      } else {
        StepInv(max, s, k, a);
      }
    case Crash | Boot | RecoveryDone => LifecycleInv(max, s, e);
    case Recover(t) => RecoverInv(max, s, t);
  }

  /** The invariant holds in every state of every run. */
  lemma {:induction false} RunInv(max: int, run: seq<System>, events: seq<Event>, i: nat)
    requires IsRun(max, run, events) && i < |run|
    ensures Inv(max, run[i])
  {
    hide Inv;
    if i == 0 {
      InitInv(max, run[0]);
    } else {
      var j := i - 1;
      RunInv(max, run, events, j);
      assert Next(max, run[j], events[j]) == Some(run[j + 1]);
      NextInv(max, run[j], events[j]);
    }
  }
}
