/** The merge queue processor in its own order of effects, proved to take only steps of the
    protocol: every execution is a trace of WorkerStep with external pushes in between. */
module MergeProcessor {
  import opened Options
  import opened Commits
  import opened MergeQueue
  import opened MergeStore

  // ---- Traces of one worker --------------------------------------------------------------------

  /** A worker, its task, all the tips of its target, and the queue table when it began. */
  datatype Config = Config(w: Worker, task: Task, tips: seq<Commit>, table: seq<Row>)

  function TipOf(tips: seq<Commit>): Option<Commit> {
    if tips == [] then None else Some(tips[|tips| - 1])
  }

  ghost predicate Enabled(max: int, c: Config, a: Answer) {
    WorkerStep(max, c.w, c.task, TipOf(c.tips), a).Some?
  }

  ghost function After(max: int, c: Config, a: Answer): Config
    requires Enabled(max, c, a)
  {
    var o := WorkerStep(max, c.w, c.task, TipOf(c.tips), a).value;
    c.(w := o.worker, task := o.task, tips := if o.tip.Some? then c.tips + [o.tip.value] else c.tips)
  }

  /** A fast-forward of the target by someone else. */
  ghost predicate Pushed(c: Config, d: Config) {
    && d == c.(tips := d.tips) && |d.tips| == |c.tips| + 1 && d.tips[..|c.tips|] == c.tips
    && (c.tips != [] ==> IsAncestor(c.tips[|c.tips| - 1], d.tips[|c.tips|]))
  }

  ghost predicate LocalStep(max: int, c: Config, d: Config) {
    Pushed(c, d) || exists a :: Enabled(max, c, a) && After(max, c, a) == d
  }

  ghost predicate IsTrace(max: int, trace: seq<Config>) {
    trace != [] && forall i | 0 < i < |trace| :: LocalStep(max, trace[i - 1], trace[i])
  }

  /** Steps of the worker and pushes of others lead from one configuration to the other. */
  ghost predicate Reaches(max: int, c: Config, d: Config) {
    exists trace :: IsTrace(max, trace) && trace[0] == c && trace[|trace| - 1] == d
  }

  lemma ReachesItself(max: int, c: Config)
    ensures Reaches(max, c, c)
  {
    assert IsTrace(max, [c]) && [c][0] == c;
  }

  lemma ReachesNext(max: int, c: Config, d: Config, e: Config)
    requires Reaches(max, c, d) && LocalStep(max, d, e)
    ensures Reaches(max, c, e)
  {
    hide LocalStep;
    var trace :| IsTrace(max, trace) && trace[0] == c && trace[|trace| - 1] == d;
    var more := trace + [e];
    assert IsTrace(max, more) && more[0] == c && more[|more| - 1] == e;
  }

  /** One step of the worker. */
  lemma Take(max: int, c: Config, d: Config, a: Answer) returns (e: Config)
    requires Reaches(max, c, d) && Enabled(max, d, a)
    ensures Reaches(max, c, e) && e == After(max, d, a)
  {
    hide Enabled, After, Pushed, Reaches;
    e := After(max, d, a);
    assert LocalStep(max, d, e);
    ReachesNext(max, c, d, e);
  }

  // ---- The protocol's steps, by program counter ---------------------------------------------------

  function Stepped(c: Config, pc: Pc, change: Change, retry: bool): Config
    requires c.task.row.Some?
  {
    c.(w := c.w.(pc := pc),
       task := c.task.(row := Some(Apply(change, c.task.row.value)), retries := c.task.retries + (if retry then 1 else 0)))
  }

  ghost predicate Goes(max: int, c: Config, a: Answer, d: Config) {
    Enabled(max, c, a) && After(max, c, a) == d
  }

  lemma AttemptSteps(max: int, c: Config)
    requires Owns(c.w, c.task)
    ensures c.w.pc == FailIncr ==> Goes(max, c, Ok, Stepped(c, FailDecide, OneMoreAttempt, false))
    ensures c.w.pc == VerifyIncr ==> Goes(max, c, Ok, Stepped(c, VerifyDecide, OneMoreAttempt, false))
    ensures c.w.pc == ConflictIncr ==> Goes(max, c, Ok, Stepped(c, ConflictDecide, OneMoreAttempt, false))
    ensures c.w.pc == StaleIncr ==> Goes(max, c, Ok, Stepped(c, StaleWrite, OneMoreAttempt, false))
    ensures c.w.pc == StaleWrite ==> Goes(max, c, Ok, Stepped(c, Finished, ToStatus(Queued), false))
  {}

  lemma DecideSteps(max: int, c: Config)
    requires Owns(c.w, c.task)
    ensures c.w.pc == FailDecide ==>
              Goes(max, c, Ok, if c.task.row.value.attempts < max then Stepped(c, Finished, ToStatus(Queued), true)
                               else Stepped(c, Finished, ToStatus(Failed), false))
    ensures c.w.pc == VerifyDecide ==>
              Goes(max, c, Ok, if c.task.row.value.attempts >= max then Stepped(c, Finished, ToStatus(Rejected), false)
                               else c.(w := c.w.(pc := VerifyTask)))
    ensures c.w.pc == ConflictDecide ==>
              Goes(max, c, Ok, if c.task.row.value.attempts >= max then Stepped(c, Finished, ToStatus(Rejected), false)
                               else c.(w := c.w.(pc := ConflictCreate)))
  {}

  lemma ReworkSteps(max: int, c: Config, u: TaskId)
    requires Owns(c.w, c.task)
    ensures c.w.pc == VerifyTask ==> Goes(max, c, Ok, c.(w := c.w.(pc := VerifyWrite), task := c.task.(status := Pending)))
    ensures c.w.pc == VerifyWrite ==> Goes(max, c, Ok, Stepped(c, Finished, ToStatus(Failed), true))
    ensures c.w.pc == SemanticWrite ==> Goes(max, c, Ok, Stepped(c, SemanticTask, ToStatus(Rejected), false))
    ensures c.w.pc == SemanticTask ==> Goes(max, c, Ok, c.(w := c.w.(pc := Finished), task := c.task.(status := Pending)))
    ensures c.w.pc == ConflictCreate ==> Goes(max, c, NewTask(u), c.(w := c.w.(pc := ConflictLink(u))))
    ensures c.w.pc == ConflictLink(u) ==> Goes(max, c, Ok, Stepped(c, ConflictWrite, ToResolver(u), false))
    ensures c.w.pc == ConflictWrite ==> Goes(max, c, Ok, Stepped(c, Finished, ToStatus(Conflicted), true))
  {}

  lemma MergeSteps(max: int, c: Config)
    requires Owns(c.w, c.task)
    ensures c.w.pc == Picked ==> Goes(max, c, Ok, Stepped(c, CreateTree, ToStatus(Rebasing), false))
    ensures c.w.pc.Rebased? ==>
              Goes(max, c, Ok, if c.w.verify then Stepped(c, Verify(c.w.pc.base, c.w.pc.sha), ToStatus(Verifying), false)
                               else Stepped(c, Swap(c.w.pc.base, c.w.pc.sha), ToStatus(Merging), false))
    ensures c.w.pc.Checked? ==> Goes(max, c, Ok, Stepped(c, Swap(c.w.pc.base, c.w.pc.sha), ToStatus(Merging), false))
    ensures c.w.pc.Unbranched? ==> Goes(max, c, Ok, Stepped(c, WriteMerged(c.w.pc.sha), ToMergeSha(c.w.pc.sha), false))
    ensures c.w.pc.WriteMerged? ==> Goes(max, c, Ok, Stepped(c, WriteTaskMerged, ToStatus(Merged), false))
    ensures c.w.pc == WriteTaskMerged ==> Goes(max, c, Ok, c.(w := c.w.(pc := Finished), task := c.task.(status := TaskMerged)))
  {}

  lemma GitSteps(max: int, c: Config, sha: Commit)
    ensures c.w.pc == CreateTree ==> Goes(max, c, Error, c.(w := c.w.(pc := FailIncr)))
    ensures c.w.pc == CreateTree && c.task.branch.Some? ==> Goes(max, c, Ok, c.(w := c.w.(pc := ResolveTip)))
    ensures c.w.pc == ResolveTip ==> Goes(max, c, Error, c.(w := c.w.(pc := FailIncr)))
    ensures c.w.pc == ResolveTip && c.tips != [] ==> Goes(max, c, Ok, c.(w := c.w.(pc := Rebase(TipOf(c.tips).value))))
    ensures c.w.pc.Rebase? ==> Goes(max, c, SemanticConflict, c.(w := c.w.(pc := SemanticWrite)))
    ensures c.w.pc.Rebase? ==> Goes(max, c, TrivialConflict, c.(w := c.w.(pc := ConflictIncr)))
    ensures c.w.pc.Rebase? ==> Goes(max, c, Error, c.(w := c.w.(pc := FailIncr)))
    ensures c.w.pc.Rebase? && c.tips != [] && IsAncestor(TipOf(c.tips).value, sha) ==>
              Goes(max, c, RebasedTo(sha), c.(w := c.w.(rebase := Some((TipOf(c.tips).value, sha)), pc := Rebased(c.w.pc.base, sha)),
                                              task := MoveBranch(c.task, sha)))
  {
    hide IsAncestor;
  }

  lemma SwapSteps(max: int, c: Config)
    ensures c.w.pc.Verify? ==>
              && Goes(max, c, Ok, c.(w := c.w.(verified := Some(c.w.pc.sha), pc := Checked(c.w.pc.base, c.w.pc.sha))))
              && Goes(max, c, Error, c.(w := c.w.(pc := VerifyIncr)))
    ensures c.w.pc.Swap? ==> Goes(max, c, Error, c.(w := c.w.(pc := StaleIncr)))
    ensures c.w.pc.Swap? && TipOf(c.tips) == Some(c.w.pc.base) ==>
              && Goes(max, c, Ok, c.(w := c.w.(pc := Landed(c.w.pc.sha)), task := c.task.(landed := true), tips := c.tips + [c.w.pc.sha]))
              && Goes(max, c, SyncFailed, c.(w := c.w.(pc := StaleIncr), task := c.task.(landed := true), tips := c.tips + [c.w.pc.sha]))
    ensures c.w.pc.Landed? ==>
              && Goes(max, c, Ok, c.(w := c.w.(pc := Unbranched(c.w.pc.sha)), task := c.task.(branch := None)))
              && Goes(max, c, Error, c.(w := c.w.(pc := Unbranched(c.w.pc.sha))))
  {}

  /** Tips only ever added on top of each other. */
  ghost predicate Grown(before: seq<Commit>, after: seq<Commit>) {
    && before <= after
    && (before != [] ==> IsAncestor(before[|before| - 1], after[|after| - 1]))
  }

  lemma GrownBy(before: seq<Commit>, after: seq<Commit>, tip: Commit)
    requires Grown(before, after) && (after != [] ==> IsAncestor(after[|after| - 1], tip))
    ensures Grown(before, after + [tip])
  {
    hide IsAncestor;
    if before != [] {
      AncestorTransitive(before[|before| - 1], after[|after| - 1], tip);
    }
  }

  lemma GrownItself(tips: seq<Commit>)
    ensures Grown(tips, tips)
  {
    hide IsAncestor;
    if tips != [] {
      AncestorReflexive(tips[|tips| - 1]);
    }
  }

  // ---- The same steps in the whole system -----------------------------------------------------------

  function ConfigOf(s: System, k: WorkerId, table: seq<Row>): Config
    requires k in s.workers
  {
    var w := s.workers[k];
    Config(w, TaskOf(s, w.task), if w.target in s.refs then s.refs[w.target] else [], table)
  }

  /** A worker's step here is an event of the protocol, with the same effect on its task and ref. */
  lemma StepIsAnEvent(max: int, s: System, k: WorkerId, a: Answer, table: seq<Row>)
    requires k in s.workers && s.workers[k].pc != Finished && Enabled(max, ConfigOf(s, k, table), a)
    requires a.NewTask? ==> a.task !in s.tasks && a.task != s.workers[k].task
    ensures Next(max, s, Step(k, a)).Some?
    ensures var s' := Next(max, s, Step(k, a)).value;
            k in s'.workers && ConfigOf(s', k, table) == After(max, ConfigOf(s, k, table), a)
  {
    hide IsAncestor, WorkerStep;
    var c, w := ConfigOf(s, k, table), s.workers[k];
    assert TipOf(c.tips) == Tip(s, w.target);
    StepShape(max, w, c.task, TipOf(c.tips), a);
  }

  lemma StepShape(max: int, w: Worker, task: Task, tip: Option<Commit>, a: Answer)
    requires WorkerStep(max, w, task, tip, a).Some?
    ensures var o := WorkerStep(max, w, task, tip, a).value;
            && o.worker.task == w.task && o.worker.target == w.target
            && (o.tip.Some? ==> tip.Some?) && (o.created.Some? ==> a.NewTask? && o.created == Some(a.task))
  {
    hide IsAncestor;
  }

  lemma PushIsAnEvent(max: int, s: System, k: WorkerId, d: Config, table: seq<Row>)
    requires k in s.workers && Pushed(ConfigOf(s, k, table), d)
    ensures var e := Push(s.workers[k].target, d.tips[|d.tips| - 1]);
            Next(max, s, e).Some? && k in Next(max, s, e).value.workers && ConfigOf(Next(max, s, e).value, k, table) == d
  {
    hide IsAncestor, WorkerStep;
    var c := ConfigOf(s, k, table);
    assert d.tips == d.tips[..|c.tips|] + [d.tips[|c.tips|]];
  }

  // ---- The outside world ---------------------------------------------------------------------------

  datatype RebaseResult = RebasedOnto(sha: Commit) | Semantic | Trivial | Broken

  /** How git, the verify command and other pushers will behave during one processItem. */
  datatype Outside = Outside(
    treeOk: bool,
    readOk: bool,
    pushesBeforeRead: seq<Commit>,
    pushesBeforeRebase: seq<Commit>,
    pushesBeforeSwap: seq<Commit>,
    rebase: Commit -> RebaseResult,   // by the tip git rebase resolves
    verify: Commit -> bool,
    swapOk: bool,
    syncOk: bool,
    deleteOk: bool,
    resolver: TaskId)

  /** git rebase, when it succeeds, returns a descendant of the tip it resolved. */
  ghost predicate RebasesForward(out: Outside) {
    forall tip: Commit :: out.rebase(tip).RebasedOnto? ==> IsAncestor(tip, out.rebase(tip).sha)
  }

  /** The tips after others tried to push: a ref refuses anything but a fast-forward. */
  function Pushes(tips: seq<Commit>, commits: seq<Commit>): seq<Commit>
    decreases |commits|
  {
    if commits == [] then tips
    else
      var n := |commits| - 1;
      var before := Pushes(tips, commits[..n]);
      if before == [] || IsAncestor(before[|before| - 1], commits[n]) then before + [commits[n]] else before
  }

  /** How a processItem ends. */
  datatype Ending =
    | EndBroken            // no tree, no readable target, or a rebase that failed otherwise
    | EndSemantic
    | EndTrivial
    | EndUnverified
    | EndLost              // the target moved, or could not be swapped or synced
    | EndMerged(sha: Commit)

  /** What the outside world makes of a processItem, and the tips of the target afterwards. */
  function Course(out: Outside, verify: bool, branch: bool, tips: seq<Commit>): (Ending, seq<Commit>) {
    if !out.treeOk || !branch then (EndBroken, tips)
    else
      var atRead := Pushes(tips, out.pushesBeforeRead);
      if !out.readOk || atRead == [] then (EndBroken, atRead) else CourseFrom(out, verify, atRead)
  }

  /** From the rebase on. */
  function CourseFrom(out: Outside, verify: bool, atRead: seq<Commit>): (Ending, seq<Commit>)
    requires atRead != []
  {
    var atRebase := Pushes(atRead, out.pushesBeforeRebase);
    match out.rebase(TipOf(atRebase).value)
    case Broken => (EndBroken, atRebase)
    case Semantic => (EndSemantic, atRebase)
    case Trivial => (EndTrivial, atRebase)
    case RebasedOnto(sha) =>
      VerifyCourse(out, verify, sha, TipOf(atRead).value, atRebase)
  }

  function VerifyCourse(out: Outside, verify: bool, sha: Commit, base: Commit, atRebase: seq<Commit>): (Ending, seq<Commit>) {
    if verify && !out.verify(sha) then (EndUnverified, atRebase) else SwapCourse(out, sha, base, atRebase)
  }

  function SwapCourse(out: Outside, sha: Commit, base: Commit, atRebase: seq<Commit>): (Ending, seq<Commit>) {
    var atSwap := Pushes(atRebase, out.pushesBeforeSwap);
    if !out.swapOk || TipOf(atSwap) != Some(base) then (EndLost, atSwap)
    else (if out.syncOk then EndMerged(sha) else EndLost, atSwap + [sha])
  }

  /** The item and the task's status after such an ending. */
  function ItemAfter(max: int, resolver: TaskId, item: Item, end: Ending): Item {
    var counted := item.(attempts := item.attempts + 1);
    match end
    case EndBroken => counted.(status := if item.attempts + 1 < max then Queued else Failed)
    case EndSemantic => item.(status := Rejected)
    case EndTrivial =>
      if item.attempts + 1 >= max then counted.(status := Rejected) else counted.(status := Conflicted, resolver := Some(resolver))
    case EndUnverified => counted.(status := if item.attempts + 1 >= max then Rejected else Failed)
    case EndLost => counted.(status := Queued)
    case EndMerged(sha) => item.(status := Merged, mergeSha := Some(sha))
  }

  function TaskAfter(max: int, item: Item, st: TaskStatus, end: Ending): TaskStatus {
    match end
    case EndSemantic => Pending
    case EndUnverified => if item.attempts + 1 >= max then st else Pending
    case EndMerged(_) => TaskMerged
    case _ => st
  }

  /** The configuration at the end: the course's ending, written to item, task and target. */
  ghost predicate EndsWith(max: int, resolver: TaskId, item: Item, st: TaskStatus, course: (Ending, seq<Commit>), now: Config) {
    && now.tips == course.1 && now.task.row == Some(ItemAfter(max, resolver, item, course.0))
    && now.task.status == TaskAfter(max, item, st, course.0)
  }

  /** A tip this processItem wrote: the rebase of exactly the tip before it, verified. */
  ghost predicate WroteTip(out: Outside, verify: bool, tips: seq<Commit>, sha: Commit) {
    && |tips| >= 2 && tips[|tips| - 1] == sha && out.rebase(tips[|tips| - 2]) == RebasedOnto(sha)
    && (verify ==> out.verify(sha))
  }

  /** How a processItem ends: out of the in-progress states, or rather merged with a tip it wrote. */
  ghost predicate Ended(out: Outside, verify: bool, start: Config, now: Config) {
    && now.w.pc == Finished && start.tips <= now.tips && now.table == start.table && now.task.row.Some?
    && var item := now.task.row.value;
       && !InProgress(item.status)
       && (item.status == Merged ==>
             item.mergeSha.Some? && now.task.status == TaskMerged && WroteTip(out, verify, now.tips, item.mergeSha.value))
  }

  ghost predicate OthersKept(before: seq<Row>, after: seq<Row>, task: TaskId) {
    forall t | t != task :: RowOf(after, |after|, t) == RowOf(before, |before|, t)
  }

  /** An item left in progress is merged if its branch is reachable from the target, else queued. */
  function RecoveredItem(item: Item, landed: bool): Item {
    item.(status := if landed then Merged else Queued)
  }

  /** The tasks with some of them marked merged. */
  function Remarked(tasks: map<TaskId, TaskStatus>, merged: set<TaskId>): map<TaskId, TaskStatus> {
    map t | t in tasks.Keys + merged :: if t in merged then TaskMerged else tasks[t]
  }

  function TasksOf(rows: set<Row>): set<TaskId> {
    set row | row in rows :: row.task
  }

  function Among(rows: seq<Row>, some: set<Row>): set<Row> {
    set row | row in rows && row in some
  }

  lemma NothingMarked(tasks: map<TaskId, TaskStatus>)
    ensures forall landed :: Remarked(tasks, TasksOf(Among([], landed))) == tasks
  {
    forall landed ensures Remarked(tasks, TasksOf(Among([], landed))) == tasks {
      assert Among([], landed) == {};
    }
  }

  lemma MarkOne(tasks: map<TaskId, TaskStatus>, stuck: seq<Row>, n: nat, landed: set<Row>)
    requires n < |stuck|
    ensures var before := Remarked(tasks, TasksOf(Among(stuck[..n], landed)));
            Remarked(tasks, TasksOf(Among(stuck[..n + 1], landed)))
              == if stuck[n] in landed then Remarked(before, {stuck[n].task}) else before
  {
    var a, b := Among(stuck[..n], landed), Among(stuck[..n + 1], landed);
    assert stuck[..n + 1] == stuck[..n] + [stuck[n]];
    assert b == a + if stuck[n] in landed then {stuck[n]} else {};
    assert TasksOf(b) == TasksOf(a) + if stuck[n] in landed then {stuck[n].task} else {};
  }

  /** Recovering one row this way is two events of the protocol, or three if it has landed. */
  lemma RecoveryIsEvents(max: int, s: System, t: TaskId)
    requires s.phase.Recovering? && s.phase.at == Scan && t in s.phase.todo && IsStuck(s, t)
    ensures var task := s.tasks[t]; var item := task.row.value; var landed := IsMergedInto(task.branch, Tip(s, item.target));
            var after := task.(row := Some(RecoveredItem(item, landed)), status := if landed then TaskMerged else task.status);
            var s1 := Next(max, s, Recover(t));
            s1.Some? && var s2 := Next(max, s1.value, Recover(t));
            s2.Some? && var s3 := if landed then Next(max, s2.value, Recover(t)) else s2;
            s3 == Some(SetTask(s, t, after).(phase := Recovering(s.phase.todo - {t}, Scan)))
  {
    hide IsAncestor;
    var task := s.tasks[t];
    var item := task.row.value;
    var status: Status := if IsMergedInto(task.branch, Tip(s, item.target)) then Merged else Queued;
    var marked := task.(row := Some(item.(status := status)));
    assert s.tasks[t := marked][t := marked.(status := TaskMerged)] == s.tasks[t := marked.(status := TaskMerged)];
  }

  class Git {
    var branches: map<TaskId, Commit>
    var tips: map<Ref, seq<Commit>>

    constructor ()
      ensures branches == map[] && tips == map[]
    {
      branches, tips := map[], map[];
    }

    function TipsOf(r: Ref): seq<Commit>
      reads this
    {
      if r in tips then tips[r] else []
    }

    /** update-ref with an expected old value. */
    method UpdateRef(r: Ref, newSha: Commit, expected: Commit, gitOk: bool) returns (ok: bool)
      modifies this`tips
      ensures ok <==> gitOk && TipOf(old(TipsOf(r))) == Some(expected)
      ensures tips == if ok then old(tips)[r := old(TipsOf(r)) + [newSha]] else old(tips)
    {
      ok := gitOk && TipOf(TipsOf(r)) == Some(expected);
      if ok {
        tips := tips[r := TipsOf(r) + [newSha]];
      }
    }
  }

  class Processor {
    const store: Store
    const git: Git
    const max: int
    var activeRepo: set<nat>

    constructor (store: Store, git: Git, max: int)
      ensures this.store == store && this.git == git && this.max == max && activeRepo == {}
    {
      this.store, this.git, this.max, activeRepo := store, git, max, {};
    }

    /** Tick: start the first queued item of every repo that has no processItem running. */
    method Tick(repos: seq<nat>) returns (started: seq<Row>)
      modifies this`activeRepo
      ensures activeRepo == old(activeRepo) + set row | row in started :: row.item.target.repo
      ensures forall i | 0 <= i < |started| :: started[i] in store.rows && started[i].item.target.repo in repos
                && started[i].item.target.repo !in old(activeRepo) && started[i].item.status == Queued
                && forall row | row in store.rows && IsQueuedIn(row, started[i].item.target.repo) :: GoesFirst(started[i].item, row.item)
      ensures forall i, j | 0 <= i < j < |started| :: started[i].item.target.repo != started[j].item.target.repo
      ensures forall repo | repo in repos && repo !in activeRepo :: forall row | row in store.rows :: !IsQueuedIn(row, repo)
    {
      started := [];
      for n := 0 to |repos|
        invariant activeRepo == old(activeRepo) + set row | row in started :: row.item.target.repo
        invariant forall i | 0 <= i < |started| :: started[i] in store.rows && started[i].item.target.repo in repos
                    && started[i].item.target.repo !in old(activeRepo) && started[i].item.status == Queued
                    && forall row | row in store.rows && IsQueuedIn(row, started[i].item.target.repo) :: GoesFirst(started[i].item, row.item)
        invariant forall i, j | 0 <= i < j < |started| :: started[i].item.target.repo != started[j].item.target.repo
        invariant forall k | 0 <= k < n && repos[k] !in activeRepo :: forall row | row in store.rows :: !IsQueuedIn(row, repos[k])
      {
        if repos[n] !in activeRepo {
          var next := store.Next(repos[n]);
          if next.Some? {
            assert forall i | 0 <= i < |started| :: started[i] in started;
            activeRepo := activeRepo + {repos[n]};
            started := started + [next.value];
          }
        }
      }
    }

    /** The tables and refs are what the configuration says; other tasks' rows are untouched. */
    ghost predicate View(c: Config): (holds: bool)
      reads store, git
      ensures holds ==> c.task.row.Some? && c.task.row.value.id == c.w.id
    {
      && Keyed(store.rows) && RowOf(store.rows, |store.rows|, c.w.task) == c.task.row
      && c.task.row.Some? && c.task.row.value.id == c.w.id
      && c.w.task in store.tasks && store.tasks[c.w.task] == c.task.status
      && (if c.w.task in git.branches then Some(git.branches[c.w.task]) else None) == c.task.branch
      && git.TipsOf(c.w.target) == c.tips
      && OthersKept(c.table, store.rows, c.w.task)
    }

    /** What recovery makes of a row. */
    function Recovered(row: Row): Item
      reads git
    {
      if InProgress(row.item.status) then RecoveredItem(row.item, HasLanded(row)) else row.item
    }

    predicate HasLanded(row: Row)
      reads git
    {
      IsMergedInto(if row.task in git.branches then Some(git.branches[row.task]) else None, TipOf(git.TipsOf(row.item.target)))
    }

    /** One iteration of StartupRecovery's first loop. */
    method RecoverRow(row: Row)
      modifies store
      ensures store.rows == Updated(old(store.rows), row.item.id, ToStatus(RecoveredItem(row.item, HasLanded(row)).status))
      ensures store.tasks == if HasLanded(row) then Remarked(old(store.tasks), {row.task}) else old(store.tasks)
    {
      hide HasLanded, Updated;
      if HasLanded(row) {
        store.SetStatus(row.item.id, Merged);
        store.TaskSetStatus(row.task, TaskMerged);
      } else {
        store.SetStatus(row.item.id, Queued);
      }
    }

    /** The stuck rows whose branch is reachable from the target. */
    ghost function LandedRows(rows: seq<Row>): set<Row>
      reads git
    {
      set row | row in rows && InProgress(row.item.status) && HasLanded(row)
    }

    /** The first loop of StartupRecovery: afterwards no row is in progress. */
    method RecoverStuck()
      requires Keyed(store.rows)
      modifies store
      ensures |store.rows| == |old(store.rows)|
      ensures forall i | 0 <= i < |store.rows| :: store.rows[i] == Row(old(store.rows)[i].task, Recovered(old(store.rows)[i]))
      ensures forall i | 0 <= i < |store.rows| :: !InProgress(store.rows[i].item.status)
      ensures store.tasks == Remarked(old(store.tasks), TasksOf(LandedRows(old(store.rows))))
    {
      hide IsAncestor, Keyed, Updated, HasLanded, Remarked, TasksOf;
      ghost var rows, landed, tasks := store.rows, LandedRows(store.rows), store.tasks;
      var stuck := store.Stuck();
      NothingMarked(tasks);
      for n := 0 to |stuck|
        invariant |store.rows| == |rows|
        invariant forall i | 0 <= i < |rows| :: store.rows[i] ==
                    if rows[i] in stuck[..n] then Row(rows[i].task, Recovered(rows[i])) else rows[i]
        invariant store.tasks == Remarked(tasks, TasksOf(Among(stuck[..n], landed)))
      {
        ghost var before := store.rows;
        assert stuck[n] in stuck;
        RecoverRow(stuck[n]);
        RecoverOne(rows, before, stuck, n);
        MarkOne(tasks, stuck, n, landed);
      }
      assert stuck[..|stuck|] == stuck;
      assert Among(stuck, landed) == landed;
    }

    lemma RecoverOne(rows: seq<Row>, before: seq<Row>, stuck: seq<Row>, n: nat)
      requires Keyed(rows) && |before| == |rows| && n < |stuck| && Keyed(stuck)
      requires forall row :: row in stuck <==> row in rows && InProgress(row.item.status)
      requires forall i | 0 <= i < |rows| :: before[i] == if rows[i] in stuck[..n] then Row(rows[i].task, Recovered(rows[i])) else rows[i]
      ensures |Updated(before, stuck[n].item.id, ToStatus(RecoveredItem(stuck[n].item, HasLanded(stuck[n])).status))| == |rows|
      ensures forall i | 0 <= i < |rows| ::
                Updated(before, stuck[n].item.id, ToStatus(RecoveredItem(stuck[n].item, HasLanded(stuck[n])).status))[i] ==
                  if rows[i] in stuck[..n + 1] then Row(rows[i].task, Recovered(rows[i])) else rows[i]
    {
      hide HasLanded;
      assert stuck[..n + 1] == stuck[..n] + [stuck[n]];
      assert stuck[n] in stuck;
      forall i | 0 <= i < |rows| ensures rows[i].item.id == stuck[n].item.id <==> rows[i] == stuck[n] {
      }
      assert forall k | 0 <= k < n :: stuck[k].item.id != stuck[n].item.id;
    }

    /** UPDATE merge_queue ... WHERE id = the item's. */
    method UpdateRow(id: nat, change: Change, ghost c: Config)
      requires View(c) && id == c.w.id
      modifies store`rows
      ensures View(c.(task := c.task.(row := Some(Apply(change, c.task.row.value)))))
    {
      hide Keyed, RowOf, Updated, Apply;
      UpdateOwn(store.rows, id, change, c.w.task);
      store.Update(id, change);
    }

    /** MergeQueueGet after the increment. */
    method CurrentAttempts(id: nat, ghost c: Config) returns (n: nat)
      requires View(c) && id == c.w.id
      ensures n == c.task.row.value.attempts
    {
      RowById(store.rows, c.w.task, id);
      var item := store.Get(id);
      n := item.value.attempts;
    }

    /** View looks at no more of the worker than what identifies it. */
    lemma SameView(c: Config, d: Config)
      requires View(c) && d.w.task == c.w.task && d.w.id == c.w.id && d.w.target == c.w.target
      requires d.task.row == c.task.row && d.task.status == c.task.status && d.task.branch == c.task.branch
      requires d.tips == c.tips && d.table == c.table
      ensures View(d)
    {}

    /** A write to the item's row that is the worker's next step. */
    method WriteRow(id: nat, change: Change, ghost first: Config, ghost c: Config, ghost pc: Pc, ghost retry: bool) returns (ghost now: Config)
      requires Reaches(max, first, c) && View(c) && id == c.w.id
      requires Goes(max, c, Ok, Stepped(c, pc, change, retry))
      modifies store`rows
      ensures Reaches(max, first, now) && View(now) && now == Stepped(c, pc, change, retry)
    {
      hide Reaches, Enabled, After, Apply, Keyed, RowOf, IsAncestor;
      UpdateRow(id, change, c);
      now := Take(max, first, c, Ok);
      SameView(c.(task := c.task.(row := Some(Apply(change, c.task.row.value)))), now);
    }

    /** A write to the task's status that is the worker's next step. */
    method WriteTask(task: TaskId, st: TaskStatus, ghost first: Config, ghost c: Config, ghost pc: Pc) returns (ghost now: Config)
      requires Reaches(max, first, c) && View(c) && task == c.w.task
      requires Goes(max, c, Ok, c.(w := c.w.(pc := pc), task := c.task.(status := st)))
      modifies store`tasks
      ensures Reaches(max, first, now) && View(now) && now == c.(w := c.w.(pc := pc), task := c.task.(status := st))
      ensures store.tasks == old(store.tasks)[task := st]
    {
      hide Reaches, Enabled, After, Keyed, RowOf, IsAncestor;
      store.TaskSetStatus(task, st);
      now := Take(max, first, c, Ok);
      SameView(c.(task := c.task.(status := st)), now);
    }

    /** A step of the worker that writes nothing. */
    lemma Decide(first: Config, c: Config, a: Answer, now: Config)
      requires Reaches(max, first, c) && View(c) && Goes(max, c, a, now)
      requires now.task == c.task && now.tips == c.tips && now.table == c.table && now.w.task == c.w.task && now.w.id == c.w.id && now.w.target == c.w.target
      ensures Reaches(max, first, now) && View(now)
    {
      hide Reaches, Enabled, After, View;
      var d := Take(max, first, c, a);
      SameView(c, now);
    }

    /** failItem. */
    method FailItem(id: nat, ghost first: Config, ghost start: Config) returns (ghost now: Config)
      requires Reaches(max, first, start) && View(start) && start.w.pc == FailIncr && id == start.w.id
      modifies store`rows
      ensures Reaches(max, first, now) && View(now) && now.w == start.w.(pc := Finished)
      ensures now.tips == start.tips && now.table == start.table && now.task.status == start.task.status
      ensures var before, after := start.task.row.value, now.task.row.value;
              after == before.(attempts := before.attempts + 1, status := if before.attempts + 1 < max then Queued else Failed)
      ensures forall resolver :: EndsWith(max, resolver, start.task.row.value, start.task.status, (EndBroken, start.tips), now)
    {
      hide Reaches, Goes, View;
      AttemptSteps(max, start);
      now := WriteRow(id, OneMoreAttempt, first, start, FailDecide, false);
      var attempts := CurrentAttempts(id, now);
      DecideSteps(max, now);
      if attempts < max {
        now := WriteRow(id, ToStatus(Queued), first, now, Finished, true);
      } else {
        now := WriteRow(id, ToStatus(Failed), first, now, Finished, false);
      }
    }

    /** requeueOrReject, after a failed verification. */
    method RequeueOrReject(id: nat, task: TaskId, ghost first: Config, ghost start: Config) returns (ghost now: Config)
      requires Reaches(max, first, start) && View(start) && start.w.pc == VerifyIncr && id == start.w.id && task == start.w.task
      modifies store
      ensures Reaches(max, first, now) && View(now) && now.w == start.w.(pc := Finished)
      ensures now.tips == start.tips && now.table == start.table
      ensures var before, after := start.task.row.value, now.task.row.value;
              && after == before.(attempts := before.attempts + 1, status := if before.attempts + 1 >= max then Rejected else Failed)
              && now.task.status == (if before.attempts + 1 >= max then start.task.status else Pending)
    {
      hide Reaches, Goes, View, WorkerStep, IsAncestor, Owns, EndsWith;
      AttemptSteps(max, start);
      now := WriteRow(id, OneMoreAttempt, first, start, VerifyDecide, false);
      var attempts := CurrentAttempts(id, now);
      DecideSteps(max, now);
      if attempts >= max {
        now := WriteRow(id, ToStatus(Rejected), first, now, Finished, false);
      } else {
        ghost var c := now.(w := now.w.(pc := VerifyTask));
        Decide(first, now, Ok, c);
        ReworkSteps(max, c, 0);
        now := WriteTask(task, Pending, first, c, VerifyWrite);
        ReworkSteps(max, now, 0);
        now := WriteRow(id, ToStatus(Failed), first, now, Finished, true);
      }
    }

    /** TaskCreate of a conflict resolver. */
    method CreateResolver(resolver: TaskId, ghost c: Config)
      requires View(c) && resolver !in store.tasks
      modifies store`tasks
      ensures View(c) && store.tasks == old(store.tasks)[resolver := Pending]
    {
      hide Keyed, RowOf, OthersKept;
      store.TaskSetStatus(resolver, Pending);
    }

    /** The end of handleConflict: a resolver task, linked to the item. */
    method SpawnResolver(id: nat, resolver: TaskId, ghost first: Config, ghost start: Config) returns (ghost now: Config)
      requires Reaches(max, first, start) && View(start) && id == start.w.id
      requires start.w.pc == ConflictCreate && resolver !in store.tasks
      modifies store
      ensures Reaches(max, first, now) && View(now) && now.w == start.w.(pc := Finished)
      ensures now.tips == start.tips && now.table == start.table && now.task.status == start.task.status
      ensures now.task.row.value == start.task.row.value.(status := Conflicted, resolver := Some(resolver))
      ensures store.tasks == old(store.tasks)[resolver := Pending]
    {
      hide Reaches, Goes, View;
      CreateResolver(resolver, start);
      ghost var c := start.(w := start.w.(pc := ConflictLink(resolver)));
      ReworkSteps(max, start, resolver);
      Decide(first, start, NewTask(resolver), c);
      ReworkSteps(max, c, resolver);
      now := WriteRow(id, ToResolver(resolver), first, c, ConflictWrite, false);
      ReworkSteps(max, now, resolver);
      now := WriteRow(id, ToStatus(Conflicted), first, now, Finished, true);
    }

    /** handleConflict; `semantic` is the classification of the conflict. */
    method HandleConflict(id: nat, task: TaskId, semantic: bool, resolver: TaskId, ghost first: Config, ghost start: Config)
        returns (ghost now: Config)
      requires Reaches(max, first, start) && View(start) && id == start.w.id && task == start.w.task
      requires start.w.pc == (if semantic then SemanticWrite else ConflictIncr) && resolver !in store.tasks
      modifies store
      ensures Reaches(max, first, now) && View(now) && now.w == start.w.(pc := Finished)
      ensures now.tips == start.tips && now.table == start.table
      ensures var before, after := start.task.row.value, now.task.row.value;
              (semantic || now.task.status == start.task.status) &&
              if semantic then after == before.(status := Rejected) && now.task.status == Pending
              else if before.attempts + 1 >= max then after == before.(attempts := before.attempts + 1, status := Rejected)
              else after == before.(attempts := before.attempts + 1, status := Conflicted, resolver := Some(resolver))
                   && resolver in store.tasks && store.tasks[resolver] == Pending
      ensures EndsWith(max, resolver, start.task.row.value, start.task.status, (if semantic then EndSemantic else EndTrivial, start.tips), now)
    {
      hide Reaches, Goes, View;
      if semantic {
        ReworkSteps(max, start, 0);
        now := WriteRow(id, ToStatus(Rejected), first, start, SemanticTask, false);
        ReworkSteps(max, now, 0);
        now := WriteTask(task, Pending, first, now, Finished);
        return;
      }
      AttemptSteps(max, start);
      now := WriteRow(id, OneMoreAttempt, first, start, ConflictDecide, false);
      var attempts := CurrentAttempts(id, now);
      DecideSteps(max, now);
      if attempts >= max {
        now := WriteRow(id, ToStatus(Rejected), first, now, Finished, false);
        return;
      }
      ghost var c := now.(w := now.w.(pc := ConflictCreate));
      Decide(first, now, Ok, c);
      now := SpawnResolver(id, resolver, first, c);
    }

    /** Other pushers move the target; refs refuse anything but fast-forwards. */
    method Push(target: Ref, commits: seq<Commit>, ghost first: Config, ghost start: Config) returns (ghost now: Config)
      requires Reaches(max, first, start) && View(start) && target == start.w.target
      modifies git`tips
      ensures Reaches(max, first, now) && View(now) && now == start.(tips := Pushes(start.tips, commits)) && Grown(start.tips, now.tips)
    {
      hide Reaches, IsAncestor, Keyed, RowOf, OthersKept, Grown, WorkerStep;
      now := start;
      GrownItself(start.tips);
      for i := 0 to |commits|
        invariant Reaches(max, first, now) && View(now) && now == start.(tips := Pushes(start.tips, commits[..i])) && Grown(start.tips, now.tips)
      {
        assert commits[..i + 1][..i] == commits[..i];
        var tips := git.TipsOf(target);
        if tips == [] || IsAncestor(tips[|tips| - 1], commits[i]) {
          git.tips := git.tips[target := tips + [commits[i]]];
          ghost var d := now.(tips := now.tips + [commits[i]]);
          assert d.tips[..|now.tips|] == now.tips;
          assert Pushed(now, d);
          GrownBy(start.tips, now.tips, commits[i]);
          ReachesNext(max, first, now, d);
          now := d;
        }
      }
      assert commits[..|commits|] == commits;
    }

    /** git worktree add and rev-parse of the target: the tip that update-ref will expect. */
    method ResolveBase(task: TaskId, target: Ref, out: Outside, ghost first: Config, ghost start: Config)
        returns (base: Option<Commit>, ghost now: Config)
      requires Reaches(max, first, start) && View(start) && start.w.pc == CreateTree
      requires task == start.w.task && target == start.w.target
      modifies git`tips
      ensures Reaches(max, first, now) && View(now) && Grown(start.tips, now.tips)
      ensures now == start.(w := start.w.(pc := if base.Some? then Rebase(base.value) else FailIncr), tips := now.tips)
      ensures now.tips == if out.treeOk && start.task.branch.Some? then Pushes(start.tips, out.pushesBeforeRead) else start.tips
      ensures base == if out.treeOk && start.task.branch.Some? && out.readOk then TipOf(now.tips) else None
    {
      hide Reaches, Goes, IsAncestor, Grown;
      GrownItself(start.tips);
      GitSteps(max, start, Commit(0, []));
      if !out.treeOk || task !in git.branches {
        now := start.(w := start.w.(pc := FailIncr));
        Decide(first, start, Error, now);
        return None, now;
      }
      ghost var c := start.(w := start.w.(pc := ResolveTip));
      Decide(first, start, Ok, c);
      c := Push(target, out.pushesBeforeRead, first, c);
      GitSteps(max, c, Commit(0, []));
      base := TipOf(git.TipsOf(target));
      if !out.readOk || base.None? {
        now := c.(w := c.w.(pc := FailIncr));
        Decide(first, c, Error, now);
        return None, now;
      }
      now := c.(w := c.w.(pc := Rebase(base.value)));
      Decide(first, c, Ok, now);
    }

    /** git rebase, which reads the target again, some pushes later. */
    method RebaseOnTarget(task: TaskId, target: Ref, base: Commit, out: Outside, ghost first: Config, ghost start: Config)
        returns (result: RebaseResult, ghost onto: Commit, ghost now: Config)
      requires Reaches(max, first, start) && View(start) && start.w.pc == Rebase(base) && RebasesForward(out)
      requires task == start.w.task && target == start.w.target && TipOf(start.tips) == Some(base)
      modifies git
      ensures Reaches(max, first, now) && View(now) && Grown(start.tips, now.tips)
      ensures now.tips == Pushes(start.tips, out.pushesBeforeRebase)
      ensures TipOf(now.tips) == Some(onto) && IsAncestor(base, onto) && result == out.rebase(onto)
      ensures now == match result
                     case RebasedOnto(sha) => start.(w := start.w.(rebase := Some((onto, sha)), pc := Rebased(base, sha)),
                                                     task := MoveBranch(start.task, sha), tips := now.tips)
                     case Semantic => start.(w := start.w.(pc := SemanticWrite), tips := now.tips)
                     case Trivial => start.(w := start.w.(pc := ConflictIncr), tips := now.tips)
                     case Broken => start.(w := start.w.(pc := FailIncr), tips := now.tips)
    {
      hide Reaches, Goes, IsAncestor, Keyed, RowOf, OthersKept;
      ghost var c := Push(target, out.pushesBeforeRebase, first, start);
      var tip := TipOf(git.TipsOf(target)).value;
      onto := tip;
      result := out.rebase(tip);
      GitSteps(max, c, if result.RebasedOnto? then result.sha else tip);
      match result
      case RebasedOnto(sha) =>
        git.branches := git.branches[task := sha];
        now := Take(max, first, c, RebasedTo(sha));
      case Semantic =>
        now := Take(max, first, c, SemanticConflict);
      case Trivial =>
        now := Take(max, first, c, TrivialConflict);
      case Broken =>
        now := Take(max, first, c, Error);
    }

    /** The verify command, if the repo has one, and the write of 'merging'. */
    method VerifyRebased(id: nat, verify: bool, base: Commit, sha: Commit, out: Outside, ghost first: Config, ghost start: Config)
        returns (ok: bool, ghost now: Config)
      requires Reaches(max, first, start) && View(start) && start.w.pc == Rebased(base, sha)
      requires id == start.w.id && verify == start.w.verify
      modifies store`rows
      ensures Reaches(max, first, now) && View(now) && now.tips == start.tips && now.table == start.table
      ensures ok <==> verify ==> out.verify(sha)
      ensures now.w == start.w.(pc := if ok then Swap(base, sha) else VerifyIncr, verified := now.w.verified)
      ensures now.task.branch == start.task.branch && now.task.status == start.task.status
      ensures now.task.row.value == start.task.row.value.(status := if ok then Merging else Verifying)
    {
      hide Reaches, Goes, View;
      MergeSteps(max, start);
      if !verify {
        now := WriteRow(id, ToStatus(Merging), first, start, Swap(base, sha), false);
        return true, now;
      }
      now := WriteRow(id, ToStatus(Verifying), first, start, Verify(base, sha), false);
      SwapSteps(max, now);
      ok := out.verify(sha);
      if !ok {
        ghost var failed := now.(w := now.w.(pc := VerifyIncr));
        Decide(first, now, Error, failed);
        return ok, failed;
      }
      ghost var c := now.(w := now.w.(verified := Some(sha), pc := Checked(base, sha)));
      Decide(first, now, Ok, c);
      MergeSteps(max, c);
      now := WriteRow(id, ToStatus(Merging), first, c, Swap(base, sha), false);
    }

    /** advanceTarget, some pushes later: if the swap finds the tip it expects, no push has come
        between the rebase and it, so the new tip was rebased onto exactly the one it replaces. */
    method AdvanceTarget(target: Ref, base: Commit, sha: Commit, out: Outside, ghost onto: Commit, ghost first: Config, ghost start: Config)
        returns (ok: bool, ghost now: Config)
      requires Reaches(max, first, start) && View(start) && start.w.pc == Swap(base, sha) && target == start.w.target
      requires IsAncestor(base, onto) && TipOf(start.tips) == Some(onto)
      modifies git`tips
      ensures Reaches(max, first, now) && View(now) && start.tips <= now.tips && now.table == start.table
      ensures now.w == start.w.(pc := if ok then Landed(sha) else StaleIncr)
      ensures now.task.(landed := start.task.landed) == start.task
      ensures var atSwap := Pushes(start.tips, out.pushesBeforeSwap); var swapped := out.swapOk && TipOf(atSwap) == Some(base);
              (ok <==> swapped && out.syncOk) && now.tips == if swapped then atSwap + [sha] else atSwap
      ensures ok ==> base == onto && |now.tips| >= 2 && now.tips[|now.tips| - 2] == onto && now.tips[|now.tips| - 1] == sha
    {
      hide Reaches, Goes, IsAncestor, Keyed, RowOf, OthersKept;
      ghost var c := Push(target, out.pushesBeforeSwap, first, start);
      SwapSteps(max, c);
      ok := git.UpdateRef(target, sha, base, out.swapOk);
      if !ok {
        now := Take(max, first, c, Error);
      } else {
        AncestorAntisymmetric(base, onto);
        ok := out.syncOk;
        now := Take(max, first, c, if ok then Ok else SyncFailed);
      }
    }

    /** The target moved, or could not be synced: count the attempt and re-queue. */
    method Requeue(id: nat, ghost first: Config, ghost start: Config) returns (ghost now: Config)
      requires Reaches(max, first, start) && View(start) && start.w.pc == StaleIncr && id == start.w.id
      modifies store`rows
      ensures Reaches(max, first, now) && View(now) && now.w == start.w.(pc := Finished)
      ensures now.tips == start.tips && now.table == start.table && now.task.status == start.task.status
      ensures var before := start.task.row.value; now.task.row.value == before.(attempts := before.attempts + 1, status := Queued)
    {
      hide Reaches, Goes, View;
      AttemptSteps(max, start);
      now := WriteRow(id, OneMoreAttempt, first, start, StaleWrite, false);
      AttemptSteps(max, now);
      now := WriteRow(id, ToStatus(Queued), first, now, Finished, false);
    }

    /** deleteBranch and the writes that mark item and task merged. */
    method FinishMerge(id: nat, task: TaskId, sha: Commit, out: Outside, ghost first: Config, ghost start: Config)
        returns (ghost now: Config)
      requires Reaches(max, first, start) && View(start) && start.w.pc == Landed(sha) && id == start.w.id && task == start.w.task
      modifies store, git`branches
      ensures Reaches(max, first, now) && View(now) && now.w == start.w.(pc := Finished)
      ensures now.tips == start.tips && now.table == start.table
      ensures now.task.row.value == start.task.row.value.(status := Merged, mergeSha := Some(sha)) && now.task.status == TaskMerged
    {
      hide Reaches, Goes, View;
      ghost var c := DeleteBranch(task, sha, out, first, start);
      MergeSteps(max, c);
      now := WriteRow(id, ToMergeSha(sha), first, c, WriteMerged(sha), false);
      MergeSteps(max, now);
      now := WriteRow(id, ToStatus(Merged), first, now, WriteTaskMerged, false);
      MergeSteps(max, now);
      now := WriteTask(task, TaskMerged, first, now, Finished);
    }

    /** git branch -D. */
    method DeleteBranch(task: TaskId, sha: Commit, out: Outside, ghost first: Config, ghost start: Config)
        returns (ghost now: Config)
      requires Reaches(max, first, start) && View(start) && start.w.pc == Landed(sha) && task == start.w.task
      modifies git`branches
      ensures Reaches(max, first, now) && View(now)
      ensures now == start.(w := start.w.(pc := Unbranched(sha)), task := start.task.(branch := now.task.branch))
    {
      hide Reaches, Goes, IsAncestor, Keyed, RowOf, OthersKept;
      SwapSteps(max, start);
      if out.deleteOk {
        git.branches := git.branches - {task};
        now := Take(max, first, start, Ok);
      } else {
        now := Take(max, first, start, Error);
      }
    }

    /** From a verified rebase on: swap, then re-queue or finish. */
    method MergeVerified(id: nat, task: TaskId, target: Ref, base: Commit, sha: Commit, out: Outside,
                         ghost onto: Commit, ghost first: Config, ghost start: Config) returns (ghost now: Config)
      requires Reaches(max, first, start) && View(start) && start.w.pc == Swap(base, sha)
      requires id == start.w.id && task == start.w.task && target == start.w.target
      requires IsAncestor(base, onto) && TipOf(start.tips) == Some(onto)
      modifies store, git
      ensures Reaches(max, first, now) && View(now) && now.w.pc == Finished && now.table == start.table
      ensures EndsWith(max, out.resolver, start.task.row.value, start.task.status, SwapCourse(out, sha, base, start.tips), now)
    {
      hide Reaches, Goes, IsAncestor, View, WorkerStep, Pushes, Ended, Owns, Grown;
      var ok;
      ok, now := AdvanceTarget(target, base, sha, out, onto, first, start);
      if !ok {
        now := Requeue(id, first, now);
      } else {
        now := FinishMerge(id, task, sha, out, first, now);
      }
    }

    /** From a successful rebase on. */
    method MergeRebased(id: nat, task: TaskId, target: Ref, verify: bool, base: Commit, sha: Commit, out: Outside,
                        ghost onto: Commit, ghost first: Config, ghost start: Config) returns (ghost now: Config)
      requires Reaches(max, first, start) && View(start) && start.w.pc == Rebased(base, sha)
      requires id == start.w.id && task == start.w.task && target == start.w.target && verify == start.w.verify
      requires IsAncestor(base, onto) && TipOf(start.tips) == Some(onto)
      modifies store, git
      ensures Reaches(max, first, now) && View(now) && now.w.pc == Finished && now.table == start.table
      ensures EndsWith(max, out.resolver, start.task.row.value, start.task.status, VerifyCourse(out, verify, sha, base, start.tips), now)
    {
      hide Reaches, Goes, IsAncestor, View, WorkerStep, SwapCourse, Pushes, Ended;
      var ok;
      ok, now := VerifyRebased(id, verify, base, sha, out, first, start);
      if ok {
        ghost var c := now;
        now := MergeVerified(id, task, target, base, sha, out, onto, first, now);
        OnlyStatusDiffers(max, out.resolver, start.task.row.value, c.task.row.value, start.task.status, SwapCourse(out, sha, base, start.tips), now);
      } else {
        now := RequeueOrReject(id, task, first, now);
      }
    }

    /** The second half of processItem: the rebase, and what follows from its result. */
    method RebaseAndMerge(id: nat, task: TaskId, target: Ref, verify: bool, base: Commit, out: Outside, ghost first: Config, ghost start: Config)
        returns (ghost now: Config)
      requires Reaches(max, first, start) && View(start) && start.w.pc == Rebase(base) && TipOf(start.tips) == Some(base)
      requires id == start.w.id && task == start.w.task && target == start.w.target && verify == start.w.verify
      requires RebasesForward(out) && out.resolver !in store.tasks && start.tips != []
      modifies store, git
      ensures Reaches(max, first, now) && View(now) && now.w.pc == Finished && now.table == start.table
      ensures EndsWith(max, out.resolver, start.task.row.value, start.task.status, CourseFrom(out, verify, start.tips), now)
    {
      hide Reaches, Goes, IsAncestor, View, RebasesForward, WorkerStep, VerifyCourse, Pushes, Ended, EndsWith;
      var result;
      ghost var onto;
      result, onto, now := RebaseOnTarget(task, target, base, out, first, start);
      match result
      case RebasedOnto(sha) =>
        now := MergeRebased(id, task, target, verify, base, sha, out, onto, first, now);
      case Semantic =>
        now := HandleConflict(id, task, true, out.resolver, first, now);
      case Trivial =>
        now := HandleConflict(id, task, false, out.resolver, first, now);
      case Broken =>
        now := FailItem(id, first, now);
    }

    /** processItem. Whatever the outside world does, the run is one of the protocol, other rows
        are untouched, and item, task and target end as the course of the outside world says. So
        the item leaves the in-progress states, and a merged item's commit is the verified rebase
        of exactly the tip it replaced. */
    method ProcessItem(row: Row, verify: bool, out: Outside, ghost start: Config) returns (ghost now: Config)
      requires View(start) && start.w == Worker(row.task, row.item.id, row.item.target, verify, Picked, None, None)
      requires RebasesForward(out) && out.resolver !in store.tasks
      modifies store, git
      ensures Reaches(max, start, now) && View(now) && Ended(out, verify, start, now)
      ensures EndsWith(max, out.resolver, start.task.row.value, start.task.status, Course(out, verify, start.task.branch.Some?, start.tips), now)
    {
      hide Reaches, Goes, IsAncestor, View, RebasesForward, WorkerStep, CourseFrom, Pushes, Ended, EndsWith;
      var id, task, target := row.item.id, row.task, row.item.target;
      ReachesItself(max, start);
      MergeSteps(max, start);
      now := WriteRow(id, ToStatus(Rebasing), start, start, CreateTree, false);
      ghost var picked := now;
      var base;
      base, now := ResolveBase(task, target, out, start, now);
      ghost var course := Course(out, verify, start.task.branch.Some?, start.tips);
      if base.None? {
        now := FailItem(id, start, now);
      } else {
        now := RebaseAndMerge(id, task, target, verify, base.value, out, start, now);
      }
      OnlyStatusDiffers(max, out.resolver, start.task.row.value, picked.task.row.value, start.task.status, course, now);
      EndedByCourse(max, out, verify, start, now);
    }
  }

  // ---- What the course of a processItem means ------------------------------------------------------

  lemma OnlyStatusDiffers(max: int, resolver: TaskId, a: Item, b: Item, st: TaskStatus, course: (Ending, seq<Commit>), now: Config)
    requires b == a.(status := b.status) && EndsWith(max, resolver, b, st, course, now)
    ensures EndsWith(max, resolver, a, st, course, now)
  {}

  lemma {:induction false} PushesGrow(tips: seq<Commit>, commits: seq<Commit>)
    ensures Grown(tips, Pushes(tips, commits))
    decreases |commits|
  {
    hide IsAncestor, Grown;
    GrownItself(tips);
    if commits != [] {
      var n := |commits| - 1;
      PushesGrow(tips, commits[..n]);
      var before := Pushes(tips, commits[..n]);
      if before == [] || IsAncestor(before[|before| - 1], commits[n]) {
        GrownBy(tips, before, commits[n]);
      }
    }
  }

  lemma {:induction false} PushesJoin(tips: seq<Commit>, a: seq<Commit>, b: seq<Commit>)
    ensures Pushes(tips, a + b) == Pushes(Pushes(tips, a), b)
    decreases |b|
  {
    hide IsAncestor;
    if b == [] {
      assert a + b == a;
    } else {
      var n := |b| - 1;
      PushesJoin(tips, a, b[..n]);
      assert (a + b)[..|a + b| - 1] == a + b[..n] && (a + b)[|a + b| - 1] == b[n];
    }
  }

  /** The tips at the end of a course extend those at its beginning, and a merge replaces exactly
      the tip that was rebased onto. */
  lemma SwapCourseFacts(out: Outside, verify: bool, atRead: seq<Commit>, sha: Commit)
    requires RebasesForward(out) && atRead != []
    requires CourseFrom(out, verify, atRead).0 == EndMerged(sha)
    ensures var tips := CourseFrom(out, verify, atRead).1; var base := TipOf(atRead).value;
            && |tips| >= 2 && tips[|tips| - 1] == sha && tips[|tips| - 2] == base
            && out.rebase(base) == RebasedOnto(sha) && (verify ==> out.verify(sha))
  {
    hide IsAncestor, Pushes, RebasesForward;
    var atRebase := Pushes(atRead, out.pushesBeforeRebase);
    var atSwap := Pushes(atRebase, out.pushesBeforeSwap);
    PushesGrow(atRead, out.pushesBeforeRebase);
    PushesGrow(atRebase, out.pushesBeforeSwap);
    AncestorAntisymmetric(TipOf(atRead).value, TipOf(atRebase).value);
  }

  lemma CourseExtends(out: Outside, verify: bool, branch: bool, tips: seq<Commit>)
    ensures tips <= Course(out, verify, branch, tips).1
  {
    hide IsAncestor, Pushes;
    var atRead := Pushes(tips, out.pushesBeforeRead);
    var atRebase := Pushes(atRead, out.pushesBeforeRebase);
    PushesGrow(tips, out.pushesBeforeRead);
    PushesGrow(atRead, out.pushesBeforeRebase);
    PushesGrow(atRebase, out.pushesBeforeSwap);
  }

  lemma EndedByCourse(max: int, out: Outside, verify: bool, start: Config, now: Config)
    requires RebasesForward(out) && start.task.row.Some? && now.w.pc == Finished && now.table == start.table
    requires EndsWith(max, out.resolver, start.task.row.value, start.task.status, Course(out, verify, start.task.branch.Some?, start.tips), now)
    ensures Ended(out, verify, start, now)
  {
    hide IsAncestor, Pushes, RebasesForward, CourseFrom;
    CourseExtends(out, verify, start.task.branch.Some?, start.tips);
    var course := Course(out, verify, start.task.branch.Some?, start.tips);
    if course.0.EndMerged? {
      SwapCourseFacts(out, verify, Pushes(start.tips, out.pushesBeforeRead), course.0.sha);
    }
  }

  /** All pushes that come during a processItem. */
  function AllPushes(out: Outside): seq<Commit> {
    out.pushesBeforeRead + out.pushesBeforeRebase + out.pushesBeforeSwap
  }

  /** Everything works, and the target has the same tip at the swap as when it was first read. */
  ghost predicate Lands(out: Outside, verify: bool, branch: bool, tips: seq<Commit>, sha: Commit) {
    && branch && out.treeOk && out.readOk && out.swapOk && out.syncOk
    && var tip := TipOf(Pushes(tips, out.pushesBeforeRead));
       tip.Some? && TipOf(Pushes(tips, AllPushes(out))) == tip
       && out.rebase(tip.value) == RebasedOnto(sha) && (verify ==> out.verify(sha))
  }

  /** An item is merged exactly when everything works, the tip read at first rebases onto a
      commit that the verify command, if any, accepts, and the target has that tip at the swap:
      then no push in between has changed it, so the second reading was the same. */
  lemma MergedExactly(out: Outside, verify: bool, branch: bool, tips: seq<Commit>, sha: Commit)
    requires RebasesForward(out)
    ensures Course(out, verify, branch, tips).0 == EndMerged(sha) <==> Lands(out, verify, branch, tips, sha)
    ensures Lands(out, verify, branch, tips, sha) ==>
              Course(out, verify, branch, tips).1 == Pushes(tips, AllPushes(out)) + [sha]
  {
    hide IsAncestor, Pushes, RebasesForward;
    var atRead := Pushes(tips, out.pushesBeforeRead);
    var atRebase := Pushes(atRead, out.pushesBeforeRebase);
    PushesJoin(tips, out.pushesBeforeRead, out.pushesBeforeRebase);
    PushesJoin(tips, out.pushesBeforeRead + out.pushesBeforeRebase, out.pushesBeforeSwap);
    PushesGrow(atRead, out.pushesBeforeRebase);
    PushesGrow(atRebase, out.pushesBeforeSwap);
    if TipOf(atRead).Some? && TipOf(Pushes(atRebase, out.pushesBeforeSwap)) == TipOf(atRead) {
      AncestorAntisymmetric(TipOf(atRead).value, TipOf(atRebase).value);
    }
  }

  /** The tip the rebase resolves, if the processItem gets there. */
  function SecondRead(out: Outside, branch: bool, tips: seq<Commit>): Option<Commit> {
    if branch && out.treeOk && out.readOk && Pushes(tips, out.pushesBeforeRead) != []
    then TipOf(Pushes(tips, out.pushesBeforeRead + out.pushesBeforeRebase)) else None
  }

  /** The other endings, each with exactly its cause. */
  lemma EndsExactly(out: Outside, verify: bool, branch: bool, tips: seq<Commit>)
    ensures var end, tip := Course(out, verify, branch, tips).0, SecondRead(out, branch, tips);
            && (end == EndBroken <==> tip.None? || out.rebase(tip.value) == Broken)
            && (end == EndSemantic <==> tip.Some? && out.rebase(tip.value) == Semantic)
            && (end == EndTrivial <==> tip.Some? && out.rebase(tip.value) == Trivial)
            && (end == EndUnverified <==>
                  tip.Some? && out.rebase(tip.value).RebasedOnto? && verify && !out.verify(out.rebase(tip.value).sha))
            && (end.EndMerged? || end == EndLost <==>
                  tip.Some? && out.rebase(tip.value).RebasedOnto? && (verify ==> out.verify(out.rebase(tip.value).sha)))
  {
    hide IsAncestor, Pushes;
    PushesJoin(tips, out.pushesBeforeRead, out.pushesBeforeRebase);
    PushesGrow(Pushes(tips, out.pushesBeforeRead), out.pushesBeforeRebase);
  }

  /** What becomes of the item: every ending but a merge and a semantic conflict costs an attempt,
      and the attempt limit decides between another try and giving up. */
  lemma ItemEndsExactly(max: int, resolver: TaskId, item: Item, st: TaskStatus, end: Ending)
    ensures var after := ItemAfter(max, resolver, item, end); var last := item.attempts + 1 >= max;
            && (after.status == Merged <==> end.EndMerged?)
            && (after.status == Queued <==> end == EndLost || (end == EndBroken && !last))
            && (after.status == Conflicted <==> end == EndTrivial && !last)
            && (after.status == Rejected <==> end == EndSemantic || (end in {EndTrivial, EndUnverified} && last))
            && (after.status == Failed <==> (end == EndBroken && last) || (end == EndUnverified && !last))
            && after.attempts == item.attempts + (if end.EndMerged? || end == EndSemantic then 0 else 1)
            && after.id == item.id && after.target == item.target && after.priority == item.priority
            && (TaskAfter(max, item, st, end) != st ==>
                  TaskAfter(max, item, st, end) == if end.EndMerged? then TaskMerged else Pending)
            && (end == EndSemantic || (end == EndUnverified && !last) ==> TaskAfter(max, item, st, end) == Pending)
            && (end == EndLost || end == EndBroken || end == EndTrivial ==> TaskAfter(max, item, st, end) == st)
  {}

  /** So an undisturbed processItem merges: the target gets the rebased commit on top of its tip,
      item and task are merged, and the commit is recorded. */
  lemma UndisturbedMerges(max: int, out: Outside, verify: bool, start: Config, now: Config, sha: Commit)
    requires RebasesForward(out) && start.task.row.Some? && start.task.branch.Some? && start.tips != []
    requires out.treeOk && out.readOk && out.swapOk && out.syncOk && AllPushes(out) == []
    requires out.rebase(TipOf(start.tips).value) == RebasedOnto(sha) && (verify ==> out.verify(sha))
    requires EndsWith(max, out.resolver, start.task.row.value, start.task.status, Course(out, verify, true, start.tips), now)
    ensures now.tips == start.tips + [sha] && now.task.status == TaskMerged
    ensures now.task.row == Some(start.task.row.value.(status := Merged, mergeSha := Some(sha)))
  {
    hide IsAncestor, RebasesForward, Course;
    assert out.pushesBeforeRead == [] && out.pushesBeforeRebase == [] && out.pushesBeforeSwap == [];
    MergedExactly(out, verify, true, start.tips, sha);
  }
}
