/** What every run of the merge queue guarantees: any interleaving of workers, external
    fast-forward pushes, agents, signals, crashes and recoveries. */
module MergeSafety {
  import opened Options
  import opened Commits
  import opened MergeQueue
  import opened MergeInvariant

  // ---- Target refs ----------------------------------------------------------------------

  lemma StoreAppends(s: System, k: WorkerId, before: Option<Commit>, o: Outcome, r: Ref)
    requires r in s.refs
    ensures var s' := Store(s, k, before, o); r in s'.refs && s.refs[r] <= s'.refs[r]
  {}

  lemma RecoveryKeepsRefs(s: System, t: TaskId)
    requires s.phase.Recovering? && RecoveryStep(s, t).Some?
    ensures RecoveryStep(s, t).value.refs == s.refs
  {
    hide IsAncestor;
  }

  lemma RefsAppendOnly(max: int, s: System, e: Event, r: Ref)
    requires Next(max, s, e).Some? && r in s.refs
    ensures var s' := Next(max, s, e).value; r in s'.refs && s.refs[r] <= s'.refs[r]
  {
    hide WorkerStep, IsAncestor, Store, RecoveryStep, IsNext, IsHandled;
    if e.Step? && s.workers[e.worker].pc != Finished {
      var w := s.workers[e.worker];
      var o := WorkerStep(max, w, TaskOf(s, w.task), Tip(s, w.target), e.answer);
      StoreAppends(s, e.worker, Tip(s, w.target), o.value, r);
    } else if e.Recover? {
      RecoveryKeepsRefs(s, e.task);
    }
  }

  lemma RunStep(max: int, run: seq<System>, events: seq<Event>, m: nat)
    requires IsRun(max, run, events) && m + 1 < |run|
    ensures |run| == |events| + 1 && Next(max, run[m], events[m]) == Some(run[m + 1])
  {
    hide Next, Init;
  }

  lemma {:induction false} RefsAppendOnlyInRun(max: int, run: seq<System>, events: seq<Event>, i: nat, j: nat, r: Ref)
    requires IsRun(max, run, events) && i <= j < |run| && r in run[i].refs
    ensures r in run[j].refs && run[i].refs[r] <= run[j].refs[r]
  {
    if i < j {
      hide Next, IsRun;
      var m := j - 1;
      RefsAppendOnlyInRun(max, run, events, i, m, r);
      RunStep(max, run, events, m);
      RefsAppendOnly(max, run[m], events[m], r);
    }
  }

  /** Every tip a target branch ever had stays an ancestor of every later tip: no queue
      advance, however stale its first reading, ever takes a commit off the branch. */
  lemma TargetNeverMovesBack(max: int, run: seq<System>, events: seq<Event>, i: nat, j: nat, r: Ref)
    requires IsRun(max, run, events) && i <= j < |run|
    requires Tip(run[i], r).Some?
    ensures Tip(run[j], r).Some? && IsAncestor(Tip(run[i], r).value, Tip(run[j], r).value)
  {
    RefsAppendOnlyInRun(max, run, events, i, j, r);
    RunInv(max, run, events, j);
    var n := |run[i].refs[r]| - 1;
    assert run[i].refs[r][n] == run[j].refs[r][n];
  }

  // ---- Verified, exactly rebased advances -----------------------------------------------

  /** Worker k's rebase, at event m, saw tip `onto` and produced `sha`. */
  ghost predicate RebaseAt(run: seq<System>, events: seq<Event>, m: nat, k: WorkerId, onto: Commit, sha: Commit)
    requires |run| == |events| + 1
  {
    m < |events| && k in run[m].workers && run[m].workers[k].pc.Rebase?
    && events[m] == Step(k, RebasedTo(sha)) && Tip(run[m], run[m].workers[k].target) == Some(onto)
  }

  /** Worker k's verify command, at event m, accepted `sha`. */
  ghost predicate VerifyAt(run: seq<System>, events: seq<Event>, m: nat, k: WorkerId, sha: Commit)
    requires |run| == |events| + 1
  {
    m < |events| && k in run[m].workers && run[m].workers[k].pc.Verify? && run[m].workers[k].pc.sha == sha
    && events[m] == Step(k, Ok)
  }

  ghost predicate RebasedBefore(run: seq<System>, events: seq<Event>, i: nat, k: WorkerId, onto: Commit, sha: Commit)
    requires |run| == |events| + 1
  {
    exists m: nat :: m < i && RebaseAt(run, events, m, k, onto, sha)
  }

  ghost predicate VerifiedBefore(run: seq<System>, events: seq<Event>, i: nat, k: WorkerId, sha: Commit)
    requires |run| == |events| + 1
  {
    exists m: nat :: m < i && VerifyAt(run, events, m, k, sha)
  }

  /** What a step adds to a worker's memory is what the step did. */
  ghost predicate Remembers(w: Worker, tip: Option<Commit>, a: Answer, w': Worker) {
    && w'.task == w.task && w'.target == w.target && w'.verify == w.verify
    && (w'.rebase != w.rebase ==>
          w.pc.Rebase? && tip.Some? && a.RebasedTo? && w'.rebase == Some((tip.value, a.sha)))
    && (w'.verified != w.verified ==> w.pc.Verify? && a == Ok && w'.verified == Some(w.pc.sha))
  }

  lemma StepRemembers(max: int, w: Worker, task: Task, tip: Option<Commit>, a: Answer)
    requires WorkerStep(max, w, task, tip, a).Some?
    ensures Remembers(w, tip, a, WorkerStep(max, w, task, tip, a).value.worker)
  {
    hide IsAncestor, SetStatus, IncrAttempt, SetMergeSha, SetResolver, MoveBranch;
  }

  /** A worker is started with an empty memory, stands still, or takes a step. */
  lemma WorkerHistory(max: int, s: System, e: Event, k: WorkerId)
    requires WorkersOk(max, s) && Next(max, s, e).Some? && k in Next(max, s, e).value.workers
    ensures var w := Next(max, s, e).value.workers[k];
            if k !in s.workers || (e.Tick? && k == s.nextId) then w.rebase.None? && w.verified.None?
            else w == s.workers[k] || (e.Step? && e.worker == k && Remembers(s.workers[k], Tip(s, w.target), e.answer, w))
  {
    hide IsAncestor, WorkerStep, WorkerOk;
    if e.Step? && e.worker == k && s.workers[k].pc != Finished {
      var w := s.workers[k];
      StepRemembers(max, w, s.tasks[w.task], Tip(s, w.target), e.answer);
      assert WorkerStep(max, w, s.tasks[w.task], Tip(s, w.target), e.answer).Some?;
    }
  }

  /** What a worker remembers really happened earlier in the run, to that same worker. */
  lemma {:induction false} MemoryIsTrue(max: int, run: seq<System>, events: seq<Event>, i: nat, k: WorkerId)
    requires IsRun(max, run, events) && i < |run| && k in run[i].workers
    ensures var w := run[i].workers[k];
            && (w.rebase.Some? ==> RebasedBefore(run, events, i, k, w.rebase.value.0, w.rebase.value.1))
            && (w.verified.Some? ==> VerifiedBefore(run, events, i, k, w.verified.value))
  {
    if i > 0 {
      var j := i - 1;
      assert Next(max, run[j], events[j]) == Some(run[j + 1]);
      RunInv(max, run, events, j);
      WorkerHistory(max, run[j], events[j], k);
      if k in run[j].workers {
        MemoryIsTrue(max, run, events, j, k);
        var w := run[i].workers[k];
        if w.rebase != run[j].workers[k].rebase {
          assert RebaseAt(run, events, j, k, w.rebase.value.0, w.rebase.value.1);
        }
        if w.verified != run[j].workers[k].verified {
          assert VerifyAt(run, events, j, k, w.verified.value);
        }
      }
    }
  }

  /** A step of the queue that moves a ref replaces the current tip `before` by a commit that
      the same worker earlier rebased onto exactly `before` and, if the repo has a verify
      command, that passed it in the same processItem. */
  lemma AdvanceIsVerifiedFastForward(max: int, run: seq<System>, events: seq<Event>, i: nat, k: WorkerId, a: Answer)
    requires IsRun(max, run, events) && i < |events| && events[i] == Step(k, a)
    requires run[i + 1].refs != run[i].refs
    ensures k in run[i].workers
    ensures var r := run[i].workers[k].target;
            && Tip(run[i], r).Some? && Tip(run[i + 1], r).Some?
            && run[i + 1].refs == AppendTip(run[i], r, Tip(run[i + 1], r).value).refs
            && (RebasedBefore(run, events, i, k, Tip(run[i], r).value, Tip(run[i + 1], r).value))
            && (run[i].workers[k].verify ==>
                  VerifiedBefore(run, events, i, k, Tip(run[i + 1], r).value))
  {
    assert Next(max, run[i], events[i]) == Some(run[i + 1]);
    RunInv(max, run, events, i);
    MemoryIsTrue(max, run, events, i, k);
    SwapUsesMemory(max, run[i], k, a);
  }

  lemma SwapStepUsesMemory(max: int, w: Worker, task: Task, tip: Option<Commit>, a: Answer)
    requires WorkerOk(max, w, task, tip) && WorkerStep(max, w, task, tip, a).Some?
    requires WorkerStep(max, w, task, tip, a).value.tip.Some?
    ensures var o := WorkerStep(max, w, task, tip, a).value;
            && w.pc.Swap? && tip.Some? && o.tip == Some(w.pc.sha) && o.worker.target == w.target
            && w.rebase == Some((tip.value, w.pc.sha)) && (w.verify ==> w.verified == o.tip)
  {
    hide IsAncestor;
    AncestorAntisymmetric(w.pc.base, w.rebase.value.0);
  }

  lemma SwapUsesMemory(max: int, s: System, k: WorkerId, a: Answer)
    requires Inv(max, s) && Next(max, s, Step(k, a)).Some? && Next(max, s, Step(k, a)).value.refs != s.refs
    ensures k in s.workers
    ensures var w, s' := s.workers[k], Next(max, s, Step(k, a)).value;
            && Tip(s, w.target).Some? && Tip(s', w.target).Some?
            && s'.refs == AppendTip(s, w.target, Tip(s', w.target).value).refs
            && w.rebase == Some((Tip(s, w.target).value, Tip(s', w.target).value))
            && (w.verify ==> w.verified == Tip(s', w.target))
  {
    hide IsAncestor, WorkerStep, WorkerOk, TasksOk, RefsOk, RecoveryOk, OnePerRepo;
    var w := s.workers[k];
    SwapStepUsesMemory(max, w, s.tasks[w.task], Tip(s, w.target), a);
  }

  // ---- Merged means landed --------------------------------------------------------------

  /** In every state a merged item's branch, deleted or not, ended on a commit reachable from
      the target, and a recorded merge_sha is reachable. */
  lemma MergedMeansLanded(max: int, run: seq<System>, events: seq<Event>, i: nat, t: TaskId)
    requires IsRun(max, run, events) && i < |run| && t in run[i].tasks
    ensures var task := run[i].tasks[t];
            && (IsMerged(task) ==> task.lastTip.Some? && AtLeast(Tip(run[i], task.row.value.target), task.lastTip.value))
            && (task.row.Some? && task.row.value.mergeSha.Some? ==>
                  AtLeast(Tip(run[i], task.row.value.target), task.row.value.mergeSha.value))
            && (task.branch.Some? ==> task.lastTip == task.branch)
  {
    RunInv(max, run, events, i);
    assert TaskOk(max, run[i].tasks[t], RowTip(run[i], run[i].tasks[t]));
  }

  /** One processItem per repo, and one item per repo in rebasing, verifying or merging. */
  lemma OneItemPerRepo(max: int, run: seq<System>, events: seq<Event>, i: nat)
    requires IsRun(max, run, events) && i < |run|
    ensures forall j, k | j in run[i].workers && k in run[i].workers && j != k ::
              run[i].workers[j].target.repo != run[i].workers[k].target.repo
    ensures forall t, u | IsStuck(run[i], t) && IsStuck(run[i], u) && t != u ::
              run[i].tasks[t].row.value.target.repo != run[i].tasks[u].row.value.target.repo
  {
    RunInv(max, run, events, i);
  }

  /** When the daemon is up, every in-progress item has the goroutine that will move it on. */
  lemma InProgressIsAttended(max: int, run: seq<System>, events: seq<Event>, i: nat, t: TaskId)
    requires IsRun(max, run, events) && i < |run| && run[i].phase == Up && IsStuck(run[i], t)
    ensures exists k :: Runs(run[i], k, t) && run[i].workers[k].pc != Finished
  {
    RunInv(max, run, events, i);
    hide PcOk, TaskOk, OnePerRepo, RefsOk, RecoveryOk, RequeuesOk, IsRun;
    assert Owned(run[i], t);
    var k :| Runs(run[i], k, t);
    var w := run[i].workers[k];
    assert WorkerOk(max, w, run[i].tasks[t], Tip(run[i], w.target));
    if w.pc == Finished {
      FinishedIsIdle(max, w, run[i].tasks[t], Tip(run[i], w.target));
    }
  }

  /** Re-queues other than lost swaps stay below the attempt limit in every enqueue epoch. */
  lemma RetriesStayBelowLimit(max: int, run: seq<System>, events: seq<Event>, i: nat, t: TaskId)
    requires IsRun(max, run, events) && i < |run| && t in run[i].tasks
    ensures run[i].tasks[t].retries == 0 || run[i].tasks[t].retries < max
    ensures HasRow(run[i], t) ==> run[i].tasks[t].retries <= run[i].tasks[t].row.value.attempts
  {
    RunInv(max, run, events, i);
    assert TaskOk(max, run[i].tasks[t], RowTip(run[i], run[i].tasks[t]));
  }

  lemma NotOwnerOnlyFinishes(max: int, w: Worker, task: Task, tip: Option<Commit>, a: Answer)
    requires WorkerOk(max, w, task, tip) && !Owns(w, task)
    ensures w.pc == SemanticTask || w.pc == Finished
    ensures WorkerStep(max, w, task, tip, a).Some? ==>
              var o := WorkerStep(max, w, task, tip, a).value; o.task.row == task.row && o.tip.None? && o.created.None?
  {
    hide IsAncestor;
  }

  /** A worker of an earlier epoch: once its row was reset under a new id, no step of it
      changes the row or any ref. */
  lemma OldEpochIsPowerless(max: int, run: seq<System>, events: seq<Event>, i: nat, k: WorkerId, a: Answer)
    requires IsRun(max, run, events) && i < |events| && events[i] == Step(k, a) && k in run[i].workers
    requires run[i].workers[k].task in run[i].tasks && !Owns(run[i].workers[k], run[i].tasks[run[i].workers[k].task])
    ensures var t := run[i].workers[k].task;
            t in run[i + 1].tasks && run[i + 1].tasks[t].row == run[i].tasks[t].row && run[i + 1].refs == run[i].refs
  {
    hide IsAncestor, WorkerStep, WorkerOk;
    assert Next(max, run[i], events[i]) == Some(run[i + 1]);
    RunInv(max, run, events, i);
    var s, w := run[i], run[i].workers[k];
    assert WorkerOk(max, w, s.tasks[w.task], Tip(s, w.target));
    NotOwnerOnlyFinishes(max, w, s.tasks[w.task], Tip(s, w.target), a);
    if w.pc != Finished {
      StepRemembers(max, w, s.tasks[w.task], Tip(s, w.target), a);
    }
  }

  // ---- When merged is final -----------------------------------------------------------------

  /** The event is the unguarded write of a resolver call, and it hits task t's row. */
  predicate WritesRow(s: System, e: Event, t: TaskId) {
    && e.ResolverWrite? && e.call in s.requeues && s.requeues[e.call].ItemSeen?
    && s.requeues[e.call].task == t && HasRowId(s, t, s.requeues[e.call].id)
  }

  ghost predicate MergedAt(s: System, t: TaskId) {
    t in s.tasks && IsMerged(s.tasks[t])
  }

  lemma WorkerKeepsMerged(max: int, w: Worker, task: Task, tip: Option<Commit>, a: Answer)
    requires WorkerOk(max, w, task, tip) && IsMerged(task) && WorkerStep(max, w, task, tip, a).Some?
    ensures IsMerged(WorkerStep(max, w, task, tip, a).value.task)
  {
    hide IsAncestor;
  }

  lemma StepKeepsMerged(max: int, s: System, k: WorkerId, a: Answer, t: TaskId)
    requires WorkersOk(max, s) && Next(max, s, Step(k, a)).Some? && MergedAt(s, t)
    ensures MergedAt(Next(max, s, Step(k, a)).value, t)
  {
    hide IsAncestor, WorkerStep, WorkerOk;
    if s.workers[k].pc != Finished {
      var w := s.workers[k];
      if w.task == t {
        WorkerKeepsMerged(max, w, s.tasks[t], Tip(s, w.target), a);
      }
      CreatedIsNew(max, w, s.tasks[w.task], Tip(s, w.target), a);
      StepRemembers(max, w, s.tasks[w.task], Tip(s, w.target), a);
    }
  }

  /** What an event that is no worker's step does to a row: nothing, unless it enqueues a
      terminal row again, is a resolver call's write, or ends the row's recovery. */
  lemma RowFate(max: int, s: System, e: Event, t: TaskId)
    requires Next(max, s, e).Some? && HasRow(s, t) && !e.Step?
    ensures var s' := Next(max, s, e).value;
            && HasRow(s', t)
            && (WritesRow(s, e, t) ==> s'.tasks[t].row == Some(s.tasks[t].row.value.(status := Queued)))
            && (s'.tasks[t].row == s.tasks[t].row || WritesRow(s, e, t)
                || (e.Enqueue? && s.tasks[t].row.value.status in {Failed, Rejected})
                || (e.Recover? && s.phase.Recovering? && (s.phase.at == Found(t) || s.phase.at == Absent(t))))
  {
    hide IsAncestor, IsNext, IsHandled;
  }

  lemma RecoveredIsStuck(s: System, t: TaskId)
    requires RecoveryOk(s) && s.phase.Recovering? && (s.phase.at == Found(t) || s.phase.at == Absent(t))
    ensures IsStuck(s, t)
  {
    hide IsAncestor;
  }

  /** A merged item stays merged in every event but the write of a resolver call to its row. */
  lemma MergedIsKeptExactly(max: int, s: System, e: Event, t: TaskId)
    requires Inv(max, s) && Next(max, s, e).Some? && MergedAt(s, t)
    ensures MergedAt(Next(max, s, e).value, t) <==> !WritesRow(s, e, t)
  {
    hide Next, WorkersOk, TasksOk, OnePerRepo, RefsOk, RecoveryOk, RequeuesOk;
    if e.Step? {
      StepKeepsMerged(max, s, e.worker, e.answer, t);
    } else {
      RowFate(max, s, e, t);
      if s.phase.Recovering? && (s.phase.at == Found(t) || s.phase.at == Absent(t)) {
        RecoveredIsStuck(s, t);
      }
    }
  }

  /** From a state in which the item is merged on, it stays merged iff no resolver call that
      read its row earlier writes to it. */
  lemma {:induction false} MergedIsFinalExactly(max: int, run: seq<System>, events: seq<Event>, i: nat, j: nat, t: TaskId)
    requires IsRun(max, run, events) && i <= j < |run| && MergedAt(run[i], t)
    ensures (forall m | i <= m <= j :: MergedAt(run[m], t)) <==> (forall m | i <= m < j :: !WritesRow(run[m], events[m], t))
  {
    hide WritesRow, Inv, MergedAt;
    if i < j {
      var m := j - 1;
      MergedIsFinalExactly(max, run, events, i, m, t);
      RunInv(max, run, events, m);
      assert Next(max, run[m], events[m]) == Some(run[m + 1]);
      if MergedAt(run[m], t) {
        MergedIsKeptExactly(max, run[m], events[m], t);
      }
    }
  }

  /** Merged items stay merged, and merged tasks have merged items. */
  ghost predicate StaysMerged(run: seq<System>) {
    && (forall i, j, t | 0 <= i <= j < |run| && MergedAt(run[i], t) :: MergedAt(run[j], t))
    && (forall i, t | 0 <= i < |run| && t in run[i].tasks && run[i].tasks[t].status == TaskMerged :: MergedAt(run[i], t))
  }

  /** No resolver call writes to a row that is merged. */
  ghost predicate SparesMerged(run: seq<System>, events: seq<Event>)
    requires |run| == |events| + 1
  {
    forall m, t | 0 <= m < |events| && MergedAt(run[m], t) :: !WritesRow(run[m], events[m], t)
  }

  /** Beside the invariant, as long as no merged row is written: tasks marked merged, and
      workers about to mark one, have merged items. */
  ghost predicate Marked(s: System) {
    && (forall t | t in s.tasks && s.tasks[t].status == TaskMerged :: MergedAt(s, t))
    && (forall k | k in s.workers && s.workers[k].pc == WriteTaskMerged :: MergedAt(s, s.workers[k].task))
  }

  lemma BeforeMarking(max: int, w: Worker, task: Task, tip: Option<Commit>, a: Answer)
    requires WorkerStep(max, w, task, tip, a).Some? && WorkerStep(max, w, task, tip, a).value.worker.pc == WriteTaskMerged
    ensures w.pc.WriteMerged? && WorkerStep(max, w, task, tip, a).value.task == SetStatus(w, task, Merged)
  {
    hide IsAncestor, SetStatus, IncrAttempt, SetMergeSha, SetResolver, MoveBranch, Attempts;
  }

  lemma OnlyOneMarks(max: int, w: Worker, task: Task, tip: Option<Commit>, a: Answer)
    requires WorkerStep(max, w, task, tip, a).Some? && WorkerStep(max, w, task, tip, a).value.task.status == TaskMerged
    ensures task.status == TaskMerged || w.pc == WriteTaskMerged
  {
    hide IsAncestor, SetStatus, IncrAttempt, SetMergeSha, SetResolver, MoveBranch, Attempts;
  }

  lemma WorkerMarks(max: int, w: Worker, task: Task, tip: Option<Commit>, a: Answer)
    requires WorkerOk(max, w, task, tip) && WorkerStep(max, w, task, tip, a).Some?
    requires task.status == TaskMerged || w.pc == WriteTaskMerged ==> IsMerged(task)
    ensures var o := WorkerStep(max, w, task, tip, a).value;
            o.task.status == TaskMerged || o.worker.pc == WriteTaskMerged ==> IsMerged(o.task)
  {
    hide IsAncestor, WorkerStep;
    var o := WorkerStep(max, w, task, tip, a).value;
    if IsMerged(task) {
      WorkerKeepsMerged(max, w, task, tip, a);
    } else if o.worker.pc == WriteTaskMerged {
      BeforeMarking(max, w, task, tip, a);
    } else if o.task.status == TaskMerged {
      OnlyOneMarks(max, w, task, tip, a);
    }
  }

  lemma StepMarks(max: int, s: System, k: WorkerId, a: Answer)
    requires Inv(max, s) && Marked(s) && Next(max, s, Step(k, a)).Some?
    ensures Marked(Next(max, s, Step(k, a)).value)
  {
    hide IsAncestor, WorkerStep, Inv, Stepped, Keeps, WorkerOk;
    if s.workers[k].pc != Finished {
      var o := StepFacts(max, s, k, a);
      hide Store, Next;
      var w, s' := s.workers[k], Store(s, k, Tip(s, s.workers[k].target), o);
      OutcomeMarks(max, s, k, a, o);
      OneWorkerPerTask(max, s, k);
      MarkedAfterStep(s, s', k, o);
    }
  }

  lemma OutcomeMarks(max: int, s: System, k: WorkerId, a: Answer, o: Outcome)
    requires Inv(max, s) && Marked(s) && k in s.workers && s.workers[k].pc != Finished && s.workers[k].task in s.tasks
    requires WorkerStep(max, s.workers[k], s.tasks[s.workers[k].task], Tip(s, s.workers[k].target), a) == Some(o)
    ensures o.task.status == TaskMerged || o.worker.pc == WriteTaskMerged ==> IsMerged(o.task)
    ensures o.worker.task == s.workers[k].task
  {
    hide IsAncestor, WorkerStep, WorkerOk, TasksOk, OnePerRepo, RefsOk, RecoveryOk, RequeuesOk;
    var w := s.workers[k];
    WorkerMarks(max, w, s.tasks[w.task], Tip(s, w.target), a);
    StepRemembers(max, w, s.tasks[w.task], Tip(s, w.target), a);
  }

  lemma MarkedAfterStep(s: System, s': System, k: WorkerId, o: Outcome)
    requires k in s.workers && Stepped(s, s', k, o) && Marked(s) && o.worker.task == s.workers[k].task
    requires forall j | j in s.workers && j != k :: s.workers[j].task != s.workers[k].task
    requires o.task.status == TaskMerged || o.worker.pc == WriteTaskMerged ==> IsMerged(o.task)
    ensures Marked(s')
  {
    hide RefsOk, IsAncestor;
  }

  lemma OneWorkerPerTask(max: int, s: System, k: WorkerId)
    requires Inv(max, s) && k in s.workers
    ensures forall j | j in s.workers && j != k :: s.workers[j].task != s.workers[k].task
  {
    hide IsAncestor, PcOk, TasksOk, OnePerRepo, RefsOk, RecoveryOk, RequeuesOk;
    forall j | j in s.workers && j != k ensures s.workers[j].task != s.workers[k].task {
      assert WorkerOk(max, s.workers[j], s.tasks[s.workers[j].task], Tip(s, s.workers[j].target));
      assert WorkerOk(max, s.workers[k], s.tasks[s.workers[k].task], Tip(s, s.workers[k].target));
    }
  }

  lemma RecoveryMarks(s: System, u: TaskId, t: TaskId)
    requires RecoveryOk(s) && s.phase.Recovering? && RecoveryStep(s, u).Some?
    requires MarkedTask(RecoveryStep(s, u).value, t)
    ensures MarkedTask(s, t) || MergedAt(s, t)
  {
    hide IsAncestor, RefsOk;
  }

  predicate MarkedTask(s: System, t: TaskId) {
    t in s.tasks && s.tasks[t].status == TaskMerged
  }

  lemma OtherTaskMarks(max: int, s: System, e: Event, t: TaskId)
    requires RecoveryOk(s) && Next(max, s, e).Some? && !e.Step? && MarkedTask(Next(max, s, e).value, t)
    ensures MarkedTask(s, t) || MergedAt(s, t)
  {
    hide IsAncestor, RecoveryOk, RecoveryStep, IsNext, IsHandled, WorkerStep;
    if e.Recover? {
      RecoveryMarks(s, e.task, t);
    }
  }

  lemma OtherWorkers(max: int, s: System, e: Event, k: WorkerId)
    requires Next(max, s, e).Some? && !e.Step?
    requires k in Next(max, s, e).value.workers && Next(max, s, e).value.workers[k].pc == WriteTaskMerged
    ensures k in s.workers && Next(max, s, e).value.workers[k] == s.workers[k]
  {
    hide IsAncestor, IsNext, IsHandled, WorkerStep;
  }

  /** Besides workers only recovery marks tasks, and it starts no worker in mid-way. */
  lemma OtherMarks(max: int, s: System, e: Event)
    requires Inv(max, s) && Next(max, s, e).Some? && !e.Step?
    ensures var s' := Next(max, s, e).value;
            && (forall t | t in s'.tasks && s'.tasks[t].status == TaskMerged ::
                  MergedAt(s, t) || (t in s.tasks && s.tasks[t].status == TaskMerged))
            && (forall k | k in s'.workers && s'.workers[k].pc == WriteTaskMerged :: k in s.workers && s'.workers[k] == s.workers[k])
  {
    hide Next, MergedAt, RecoveryOk, WorkersOk, TasksOk, OnePerRepo, RefsOk, RequeuesOk;
    var s' := Next(max, s, e).value;
    forall t | t in s'.tasks && s'.tasks[t].status == TaskMerged ensures MergedAt(s, t) || MarkedTask(s, t) {
      OtherTaskMarks(max, s, e, t);
    }
    forall k | k in s'.workers && s'.workers[k].pc == WriteTaskMerged ensures k in s.workers && s'.workers[k] == s.workers[k] {
      OtherWorkers(max, s, e, k);
    }
  }

  lemma MarkedIsKept(max: int, s: System, e: Event)
    requires Inv(max, s) && Marked(s) && Next(max, s, e).Some?
    requires forall t | MergedAt(s, t) :: !WritesRow(s, e, t)
    ensures Marked(Next(max, s, e).value)
  {
    hide Inv, Next, WritesRow, MergedAt;
    if e.Step? {
      StepMarks(max, s, e.worker, e.answer);
    } else {
      OtherMarks(max, s, e);
      forall t | MergedAt(s, t) ensures MergedAt(Next(max, s, e).value, t) {
        MergedIsKeptExactly(max, s, e, t);
      }
    }
  }

  lemma {:induction false} MarkedInRun(max: int, run: seq<System>, events: seq<Event>, i: nat)
    requires IsRun(max, run, events) && SparesMerged(run, events) && i < |run|
    ensures Marked(run[i])
  {
    if i > 0 {
      var m := i - 1;
      hide WritesRow, Inv, MergedAt, Marked;
      MarkedInRun(max, run, events, m);
      RunInv(max, run, events, m);
      assert Next(max, run[m], events[m]) == Some(run[m + 1]);
      MarkedIsKept(max, run[m], events[m]);
    }
  }

  /** In a run merged items stay merged and merged tasks have merged items iff no resolver call
      writes to a row that has been merged since it read it: the UPDATE lacks that guard. */
  lemma StaysMergedExactly(max: int, run: seq<System>, events: seq<Event>)
    requires IsRun(max, run, events)
    ensures StaysMerged(run) <==> SparesMerged(run, events)
  {
    hide WritesRow, Inv, MergedAt, Marked;
    if SparesMerged(run, events) {
      forall i, j, t | 0 <= i <= j < |run| && MergedAt(run[i], t) ensures MergedAt(run[j], t) {
        KeptWhileSpared(max, run, events, i, j, t);
      }
      forall i, t | 0 <= i < |run| && t in run[i].tasks && run[i].tasks[t].status == TaskMerged ensures MergedAt(run[i], t) {
        MarkedInRun(max, run, events, i);
        MarkedMeans(run[i], t);
      }
    } else {
      var m, t :| 0 <= m < |events| && MergedAt(run[m], t) && WritesRow(run[m], events[m], t);
      RunInv(max, run, events, m);
      assert Next(max, run[m], events[m]) == Some(run[m + 1]);
      MergedIsKeptExactly(max, run[m], events[m], t);
    }
  }

  lemma MarkedMeans(s: System, t: TaskId)
    requires Marked(s) && t in s.tasks && s.tasks[t].status == TaskMerged
    ensures MergedAt(s, t)
  {}

  lemma {:induction false} KeptWhileSpared(max: int, run: seq<System>, events: seq<Event>, i: nat, j: nat, t: TaskId)
    requires IsRun(max, run, events) && SparesMerged(run, events) && i <= j < |run| && MergedAt(run[i], t)
    ensures MergedAt(run[j], t)
  {
    hide WritesRow, Inv, MergedAt;
    if i < j {
      var m := j - 1;
      KeptWhileSpared(max, run, events, i, m, t);
      RunInv(max, run, events, m);
      assert Next(max, run[m], events[m]) == Some(run[m + 1]);
      MergedIsKeptExactly(max, run[m], events[m], t);
    }
  }

  // ---- Where such a write comes from -----------------------------------------------------------

  ghost predicate Pending(s: System, c: nat, t: TaskId, id: nat) {
    c in s.requeues && s.requeues[c] == ItemSeen(t, id)
  }

  /** At event m another call re-queued the row while call c's write to it was pending. */
  ghost predicate Survives(run: seq<System>, events: seq<Event>, m: nat, c: nat, t: TaskId, id: nat)
    requires |run| == |events| + 1
  {
    && m < |events| && Pending(run[m], c, t, id)
    && events[m].ResolverWrite? && events[m].call != c && Pending(run[m], events[m].call, t, id)
  }

  lemma WorkerLeavesConflicted(max: int, w: Worker, task: Task, tip: Option<Commit>, a: Answer)
    requires WorkerOk(max, w, task, tip) && WorkerStep(max, w, task, tip, a).Some?
    requires task.row.Some? && task.row.value.status == Conflicted
    ensures WorkerStep(max, w, task, tip, a).value.task.row == task.row
  {
    hide IsAncestor;
  }

  lemma StepLeavesConflicted(max: int, s: System, k: WorkerId, a: Answer, t: TaskId)
    requires WorkersOk(max, s) && Next(max, s, Step(k, a)).Some? && HasRow(s, t) && s.tasks[t].row.value.status == Conflicted
    ensures var s' := Next(max, s, Step(k, a)).value; HasRow(s', t) && s'.tasks[t].row == s.tasks[t].row
  {
    hide IsAncestor, WorkerStep, WorkerOk;
    if s.workers[k].pc != Finished {
      var w := s.workers[k];
      if w.task == t {
        WorkerLeavesConflicted(max, w, s.tasks[t], Tip(s, w.target), a);
      }
      CreatedIsNew(max, w, s.tasks[w.task], Tip(s, w.target), a);
      StepRemembers(max, w, s.tasks[w.task], Tip(s, w.target), a);
    }
  }

  /** A conflicted row leaves that state only by the write of a call that read it. */
  lemma ConflictedIsKept(max: int, s: System, e: Event, t: TaskId)
    requires Inv(max, s) && Next(max, s, e).Some? && HasRow(s, t) && s.tasks[t].row.value.status == Conflicted
    requires !WritesRow(s, e, t)
    ensures var s' := Next(max, s, e).value; HasRow(s', t) && s'.tasks[t].row == s.tasks[t].row
  {
    hide Next, WorkersOk, TasksOk, OnePerRepo, RefsOk, RecoveryOk, RequeuesOk, WritesRow;
    if e.Step? {
      StepLeavesConflicted(max, s, e.worker, e.answer, t);
    } else {
      RowFate(max, s, e, t);
      if s.phase.Recovering? && (s.phase.at == Found(t) || s.phase.at == Absent(t)) {
        RecoveredIsStuck(s, t);
      }
    }
  }

  lemma StepKeepsIds(max: int, s: System, k: WorkerId, a: Answer, t: TaskId)
    requires Inv(max, s) && k in s.workers && Next(max, s, Step(k, a)).Some? && HasRow(Next(max, s, Step(k, a)).value, t)
    ensures HasRow(s, t) && s.tasks[t].row.value.id == Next(max, s, Step(k, a)).value.tasks[t].row.value.id
  {
    hide Inv, WorkerStep, IsAncestor;
    if s.workers[k].pc != Finished {
      hide Next, Store, WorkerOk, TaskOk;
      var o := StepFacts(max, s, k, a);
    }
  }

  /** Rows keep their ids, except that an enqueue takes a new one. */
  lemma IdsAreKept(max: int, s: System, e: Event, t: TaskId)
    requires Inv(max, s) && Next(max, s, e).Some? && HasRow(Next(max, s, e).value, t)
    ensures var id := Next(max, s, e).value.tasks[t].row.value.id; id >= s.nextId || HasRowId(s, t, id)
  {
    hide IsAncestor, Inv, WorkerStep;
    if e.Step? {
      StepKeepsIds(max, s, e.worker, e.answer, t);
    }
  }

  lemma PendingIsOld(max: int, s: System, c: nat, t: TaskId, id: nat)
    requires Inv(max, s) && Pending(s, c, t, id)
    ensures id < s.nextId
  {
    hide WorkersOk, TasksOk, OnePerRepo, RefsOk, RecoveryOk;
  }

  lemma PendingBefore(max: int, s: System, e: Event, c: nat, t: TaskId, id: nat)
    requires Next(max, s, e).Some? && Pending(Next(max, s, e).value, c, t, id)
    ensures Pending(s, c, t, id)
            || (e == ResolverItem(c, t) && HasRowId(s, t, id) && s.tasks[t].row.value.status == Conflicted && Next(max, s, e).value.tasks == s.tasks)
    ensures e.ResolverWrite? ==> e.call != c
  {
    hide IsAncestor, WorkerStep;
  }

  /** While a call's write is pending its row is still conflicted, or another call has
      re-queued the row in the meantime. */
  lemma {:induction false} PendingOrSurvived(max: int, run: seq<System>, events: seq<Event>, i: nat, c: nat, t: TaskId, id: nat)
    requires IsRun(max, run, events) && i < |run| && Pending(run[i], c, t, id) && HasRowId(run[i], t, id)
    ensures run[i].tasks[t].row.value.status == Conflicted || exists m: nat :: m < i && Survives(run, events, m, c, t, id)
  {
    if i > 0 {
      hide Inv, Next, WritesRow;
      var j := i - 1;
      assert Next(max, run[j], events[j]) == Some(run[j + 1]);
      RunInv(max, run, events, j);
      PendingBefore(max, run[j], events[j], c, t, id);
      if Pending(run[j], c, t, id) {
        PendingIsOld(max, run[j], c, t, id);
        IdsAreKept(max, run[j], events[j], t);
        PendingOrSurvived(max, run, events, j, c, t, id);
        if run[j].tasks[t].row.value.status == Conflicted {
          if WritesRow(run[j], events[j], t) {
            WriterIsPending(run[j], events[j], t, id);
            assert Survives(run, events, j, c, t, id);
          } else {
            ConflictedIsKept(max, run[j], events[j], t);
          }
        }
      }
    }
  }

  lemma WriterIsPending(s: System, e: Event, t: TaskId, id: nat)
    requires WritesRow(s, e, t) && HasRowId(s, t, id)
    ensures e.ResolverWrite? && Pending(s, e.call, t, id)
  {}

  /** A resolver call that finds its row no longer conflicted lost a race: another call
      re-queued the row between its read and its write. */
  lemma LateWriteWasOvertaken(max: int, run: seq<System>, events: seq<Event>, i: nat, t: TaskId)
    requires IsRun(max, run, events) && i < |events| && WritesRow(run[i], events[i], t)
    requires run[i].tasks[t].row.value.status != Conflicted
    ensures exists m: nat :: m < i && Survives(run, events, m, events[i].call, t, run[i].tasks[t].row.value.id)
  {
    PendingOrSurvived(max, run, events, i, events[i].call, t, run[i].tasks[t].row.value.id);
  }

  /** So calls that never overlap on a row keep merged items merged. */
  lemma NoOverlapStaysMerged(max: int, run: seq<System>, events: seq<Event>)
    requires IsRun(max, run, events)
    requires forall m: nat, c, t, id | m < |events| :: !Survives(run, events, m, c, t, id)
    ensures StaysMerged(run)
  {
    hide StaysMerged, Survives;
    forall m, t | 0 <= m < |events| && MergedAt(run[m], t) ensures !WritesRow(run[m], events[m], t) {
      if WritesRow(run[m], events[m], t) {
        LateWriteWasOvertaken(max, run, events, m, t);
      }
    }
    StaysMergedExactly(max, run, events);
  }

  // ---- A landed item is recovered as merged ------------------------------------------------------

  /** Merged, or on the way there: landed with its branch in place while the daemon is not up. */
  ghost predicate WillBeMerged(s: System, t: TaskId) {
    t in s.tasks && (IsMerged(s.tasks[t]) || (IsStuck(s, t) && s.tasks[t].landed && s.tasks[t].branch.Some? && s.phase != Up))
  }

  ghost predicate StillQueued(s: System, t: TaskId) {
    HasRow(s, t) && s.tasks[t].row.value.status == Queued
  }

  /** Until the daemon is up no pending re-queue can hit a merged row. */
  lemma NoLateWriteWhileDown(s: System, e: Event, t: TaskId)
    requires RequeuesOk(s) && s.phase != Up && WritesRow(s, e, t)
    ensures s.tasks[t].row.value.status in {Conflicted, Queued}
  {}

  lemma WillBeMergedIsKept(max: int, s: System, e: Event, t: TaskId)
    requires Inv(max, s) && Next(max, s, e).Some? && WillBeMerged(s, t) && s.phase != Up
    ensures WillBeMerged(Next(max, s, e).value, t)
  {
    hide IsAncestor, Chain, WorkerStep, WritesRow, RequeuesOk;
    if IsMerged(s.tasks[t]) {
      if WritesRow(s, e, t) {
        NoLateWriteWhileDown(s, e, t);
      } else {
        MergedIsKeptExactly(max, s, e, t);
      }
    } else {
      StuckRowIsKept(max, s, e, t);
    }
  }

  lemma StuckRowIsKept(max: int, s: System, e: Event, t: TaskId)
    requires Inv(max, s) && Next(max, s, e).Some? && s.phase != Up
    requires t in s.tasks && IsStuck(s, t) && s.tasks[t].landed && s.tasks[t].branch.Some?
    ensures WillBeMerged(Next(max, s, e).value, t)
  {
    if e.Recover? {
      StuckRowIsRecovered(max, s, e.task, t);
    } else {
      hide IsAncestor, RecoveryStep, WorkerStep, WorkerOk, TasksOk, OnePerRepo, RefsOk, RecoveryOk, IsNext;
    }
  }

  lemma StuckRowIsRecovered(max: int, s: System, u: TaskId, t: TaskId)
    requires Inv(max, s) && Next(max, s, Recover(u)).Some?
    requires t in s.tasks && IsStuck(s, t) && s.tasks[t].landed && s.tasks[t].branch.Some?
    ensures WillBeMerged(Next(max, s, Recover(u)).value, t)
  {
    hide IsAncestor, WorkersOk, TasksOk, OnePerRepo, RefsOk, RequeuesOk;
  }

  lemma QueuedIsKept(max: int, s: System, e: Event, t: TaskId)
    requires Inv(max, s) && Next(max, s, e).Some? && StillQueued(s, t) && s.phase != Up
    ensures StillQueued(Next(max, s, e).value, t)
  {
    if e.Step? {
      hide IsAncestor, TasksOk, OnePerRepo, RefsOk, RecoveryOk, RequeuesOk;
    } else {
      hide Next, WorkersOk, TasksOk, OnePerRepo, RefsOk, RecoveryOk, RequeuesOk, WritesRow;
      RowFate(max, s, e, t);
      if s.phase.Recovering? && (s.phase.at == Found(t) || s.phase.at == Absent(t)) {
        RecoveredIsStuck(s, t);
      }
    }
  }

  lemma LandedRow(max: int, w: Worker, task: Task, tip: Option<Commit>)
    requires WorkerOk(max, w, task, tip) && w.pc.Landed?
    ensures task.row.Some? && task.row.value.status in {Merging, Queued} && task.landed && task.branch.Some?
  {
    hide IsAncestor;
  }

  lemma {:induction false} AfterTheCrash(max: int, run: seq<System>, events: seq<Event>, i: nat, j: nat, k: WorkerId)
    requires IsRun(max, run, events) && i < j < |run|
    requires k in run[i].workers && run[i].workers[k].pc.Landed? && events[i] == Crash
    requires forall m | i < m < j :: run[m].phase != Up
    ensures var t := run[i].workers[k].task;
            if IsStuck(run[i], t) then WillBeMerged(run[j], t) else StillQueued(run[j], t)
  {
    hide IsAncestor, Chain, WorkerStep, WorkerOk, TaskOk, OnePerRepo, RefsOk, RecoveryOk, RequeuesOk;
    var m, t := j - 1, run[i].workers[k].task;
    assert Next(max, run[m], events[m]) == Some(run[m + 1]);
    RunInv(max, run, events, m);
    if i == m {
      LandedRow(max, run[i].workers[k], run[i].tasks[t], Tip(run[i], run[i].workers[k].target));
    } else {
      hide Inv, WillBeMerged, StillQueued, Next;
      AfterTheCrash(max, run, events, i, m, k);
      if IsStuck(run[i], t) {
        WillBeMergedIsKept(max, run[m], events[m], t);
      } else {
        QueuedIsKept(max, run[m], events[m], t);
      }
    }
  }

  /** A crash after update-ref and before deleteBranch: when the daemon is up again, further
      crashes and recoveries included, the item is merged iff its row was still in progress at
      the crash, and queued if a late resolver call had put it back there. */
  lemma CrashAfterUpdateRefExactly(max: int, run: seq<System>, events: seq<Event>, i: nat, j: nat, k: WorkerId)
    requires IsRun(max, run, events) && i < j < |run|
    requires k in run[i].workers && run[i].workers[k].pc.Landed? && events[i] == Crash
    requires run[j].phase == Up && forall m | i < m < j :: run[m].phase != Up
    ensures var t := run[i].workers[k].task;
            && (MergedAt(run[j], t) <==> IsStuck(run[i], t))
            && (StillQueued(run[j], t) <==> !IsStuck(run[i], t))
  {
    hide IsRun;
    AfterTheCrash(max, run, events, i, j, k);
  }
}
