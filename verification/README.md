# Clankwork control plane: a verified model

Clankwork drives coding agents through tasks. Its control plane is a set of small state
machines over persistent rows, git refs and in-memory maps, advanced by concurrent loops,
agent signals and restarts. This project models those machines in Dafny and proves what
they keep over every run.

- **Merge queue** (`Commits`, `MergeQueue`, `MergeInvariant`, `MergeSafety`, `LateRequeue`,
  `MergeStore`, `MergeProcessor`). Commits are a tree of parents, so "ancestor" is a partial order. A
  worker per repo reads the target, rebases (which reads it again), verifies,
  compares and swaps the ref, and writes rows; pushers fast-forward the same ref, calls
  that end a conflict resolver read and later write the rows, and the daemon may crash
  between any two effects and recover. `MergeQueue` is that protocol as
  events, `MergeInvariant` its inductive invariant, `MergeSafety` the theorems about all
  runs, `LateRequeue` a run in which a merged item is queued again. `MergeStore` and `MergeProcessor` are the table and `processItem` in program order,
  proved to take only steps of the protocol.
- **Workflow** (`Digraph`, `Workflow`, `RouteRace`, `TaskDag`, `DepRace`, `Dispatching`).
  Template routing with attempt budgets, concurrent routing calls and dispatches on one
  row, the dependency DAG with single and concurrent insertions, and the choice of
  dispatchable tasks.
- **Acceptance** (`Acceptance`, `AcceptanceSpecs`, `Reports`, `Confidence`, `Verdicts`,
  `ExecutionPlans`, `PlanAcceptance`, `PlanVerdict`). The validators, the score in exact
  arithmetic, the verdict and the signal gate, and the generated report against the report
  validator and the verdict.
- **Agents** (`RpcCalls`, `EventRouter`, `AcpState`, `Nudges`). JSON-RPC calls and
  permission requests under concurrency, the pre-bind event buffer, the fold over the newest events, and the
  nudge, retry and handoff clock.
- **Text** (`ShellText`, `ConflictMarkers`, `GoStrings`). The shell tokenizer against the
  quoter, and the conflict-marker parser.

`Options` and `Sets` are helpers. Each SQL statement is one atomic step; I/O, clocks and
calls into tools are parameters that range over everything they could answer.

Where code and comments disagree the model follows the code:
`MergeQueueResetStuck` only lists the stuck rows and resets nothing
(`internal/store/mergequeue.go:215-241`); `failItem` re-queues without a backoff
(`internal/mergequeue/processor.go:305-313`); a probe counts as covered only when evidence
names its probe id, not just its criterion, and artifact coverage counts evidence of failing
results too (`internal/model/acceptance.go:126-130`, `160-200`).

Results that are negative for the code, each with its exact condition:

- A merged item can be queued again, and its task stay merged: two calls that end the same
  conflict resolver overlap, and the later one writes after the item was merged
  (`LateRequeue.LateWriteUnmerges`). `MergeSafety.StaysMergedExactly` says in which runs
  this happens, `MergeSafety.LateWriteWasOvertaken` that overlapping calls are its only cause.
- The report generated from a valid plan and spec can be rejected although every step
  passes (`PlanAcceptance.SharedProbeExample`), and a plan whose types carry white space has
  no report at all. `PlanAcceptance.AcceptedWhateverFails` gives the exact condition.
- The goroutine that waits for an agent process can block for ever on a permission channel
  while it holds the session lock (`RpcCalls.PermissionJamsWait`);
  `RpcCalls.NeverJamsExactly` says when it cannot.
- Events of a session can get their numbers out of order; `EventRouter.OrderExactly` says
  when they do not.
- An ended turn that has left the 500-event window is not seen
  (`AcpState.EndedOnWindow` says exactly when it is).
- A routing call that is overtaken by another one's advance loses an attempt
  (`RouteRace.CountsExactly`, `RouteRace.StaleReadLosesAttempt`), and one that completes,
  fails or blocks the task does so at whatever step the task has reached
  (`RouteRace.EndsItsStepExactly`, `RouteRace.StaleCompleteEndsLaterStep`).
- Concurrent checked insertions can close a dependency cycle
  (`DepRace.CrossingInsertions`; `DepRace.AcyclicExactly` says when they do not).
- Templates with a cycle of unbudgeted edges route forever (`Workflow.RoutingEndsExactly`).
- One changed artifact file rejects every later acceptance signal of its task, whether or
  not the artifact was invalidated (`Verdicts.ChangedArtifactRejects`).

## Model

| member | source | states |
|---|---|---|
| Commits.AncestorAntisymmetric | internal/mergequeue/git.go:192-197 | the ancestor order has no cycles, so a ref that only moves forward never returns to an old value |
| MergeInvariant.SwapStepOk | internal/mergequeue/git.go:89-112 | the compare-and-swap, with its two earlier reads of the ref, keeps the invariant: equal outer readings leave no room for an intermediate tip |
| MergeInvariant.NextInv | internal/mergequeue/processor.go:72-544 | every event (push, commit, enqueue, tick, worker step, each read and write of a resolver call, crash, boot, recovery step) keeps the inductive invariant |
| MergeInvariant.RunInv | internal/mergequeue/processor.go:118-203 | the invariant holds in every state of every run |
| MergeSafety.TargetNeverMovesBack | internal/mergequeue/git.go:42-112 | every tip a target ever had is an ancestor of every later tip, in all runs with crashes and external fast-forwards |
| MergeSafety.AdvanceIsVerifiedFastForward | internal/mergequeue/processor.go:137-177 | a queue write to a target replaces exactly the tip the same worker rebased onto, by a commit its verify command accepted in the same processItem |
| MergeSafety.MergedMeansLanded | internal/mergequeue/processor.go:165-197 | in every reachable state the last commit of a merged item's branch, and every recorded merge sha, is reachable from the target |
| MergeSafety.OneItemPerRepo | internal/mergequeue/processor.go:72-96 | at most one processItem and at most one in-progress item per repo |
| MergeSafety.InProgressIsAttended | internal/mergequeue/processor.go:118-321 | while the daemon is up every in-progress item has an unfinished worker that will move it on |
| MergeSafety.RetriesStayBelowLimit | internal/mergequeue/processor.go:279-321 | re-queues other than lost swaps stay below the attempt limit in each enqueue epoch |
| MergeSafety.OldEpochIsPowerless | internal/store/mergequeue.go:22-33 | once a terminal row is reset under a new id, no step of a worker started for the old id changes the row or any ref |
| MergeSafety.MergedIsFinalExactly | internal/mergequeue/processor.go:354-408 | from the moment an item is merged it stays so iff no resolver call writes to its row |
| MergeSafety.StaysMergedExactly | internal/mergequeue/processor.go:354-408 | over a whole run, merged items stay merged and merged tasks have merged items iff no resolver call writes to a merged row |
| MergeSafety.LateWriteWasOvertaken | internal/mergequeue/processor.go:354-408 | a resolver call that finds its row no longer conflicted was overtaken: between its read and its write another call had re-queued the row |
| MergeSafety.NoOverlapStaysMerged | internal/store/mergequeue.go:176-178 | if no two resolver calls overlap on a row, merged items stay merged and merged tasks have merged items |
| LateRequeue.LateWriteUnmerges | internal/mergequeue/processor.go:354-408 | a run from the initial state in which two calls of one resolver overlap and the later write takes a merged item back to queued while its task stays merged |
| MergeSafety.CrashAfterUpdateRefExactly | internal/mergequeue/processor.go:450-473 | after a crash between update-ref and the branch deletion, however many crashes follow, the item is merged once the daemon is up iff its row was still in progress at the crash, and queued otherwise |
| MergeStore.Store.Enqueue | internal/store/mergequeue.go:13-38 | exactly when an enqueue succeeds; the row starts a fresh epoch and no other task's row changes |
| MergeStore.Store.Next | internal/store/mergequeue.go:84-99 | the queued row of the repo with the highest priority, oldest first; none only if none is queued |
| MergeStore.Store.Stuck | internal/store/mergequeue.go:218-241 | the rows a crash left in progress, all of them and no others |
| MergeStore.UpdateOwn | internal/store/mergequeue.go:164-213 | an update by id changes that task's row only and keeps the keys unique |
| MergeProcessor.Processor.Tick | internal/mergequeue/processor.go:72-96 | starts the first queued item of each idle repo, never two of one repo, and leaves no idle repo with a queued item |
| MergeProcessor.Processor.ProcessItem | internal/mergequeue/processor.go:118-203 | in program order: a trace of protocol steps and pushes; item, task and target end as the course of the outside world decides, other rows stay, and if merged the tip is the verified rebase of exactly the tip before it |
| MergeProcessor.MergedExactly | internal/mergequeue/processor.go:137-197 | the item is merged iff tree, reads, swap and sync work, the tip read first rebases onto a commit that is accepted, and the target has that same tip at the swap; then the target gets that commit on top |
| MergeProcessor.UndisturbedMerges | internal/mergequeue/processor.go:165-197 | if everything works and nobody pushes, the target gets the rebased commit, item and task are merged and the commit is recorded |
| MergeProcessor.EndsExactly | internal/mergequeue/processor.go:118-203 | each other ending (broken, semantic or trivial conflict, not verified, swap lost) with exactly its cause |
| MergeProcessor.ItemEndsExactly | internal/mergequeue/processor.go:205-321 | the status of item and task after each ending, and which endings cost an attempt |
| MergeProcessor.Processor.ResolveBase | internal/mergequeue/git.go:31-48 | the tip update-ref will expect is the target's at that moment, and is missing only if tree, branch or read fails or there is no target |
| MergeProcessor.Processor.RebaseOnTarget | internal/mergequeue/git.go:50-69 | the rebase resolves a tip that descends from the recorded one, possibly a later one |
| MergeProcessor.Processor.VerifyRebased | internal/mergequeue/processor.go:151-166 | swaps only after the verify command, if any, accepted the rebased commit |
| MergeProcessor.Processor.AdvanceTarget | internal/mergequeue/git.go:89-114 | succeeds iff git works and the target still has the expected tip; the target moves exactly when the swap does, and success proves that no push came between rebase and swap |
| MergeProcessor.Processor.FailItem | internal/mergequeue/processor.go:302-321 | counts the attempt and re-queues below the limit, else fails the item |
| MergeProcessor.Processor.RequeueOrReject | internal/mergequeue/processor.go:279-300 | rejects at the limit, else returns the task to pending and fails the item |
| MergeProcessor.Processor.HandleConflict | internal/mergequeue/processor.go:205-277 | semantic conflicts reject and return the task; trivial ones reject at the limit or wait on a new resolver task |
| MergeProcessor.Processor.FinishMerge | internal/mergequeue/processor.go:189-197 | branch deletion, merge sha, and the merged status of item and task |
| MergeProcessor.Processor.RecoverStuck | internal/mergequeue/processor.go:450-473 | after recovery no row is in progress; a stuck row and its task are merged iff its branch is reachable from the target, else the row is queued; no other task changes |
| MergeProcessor.RecoveryIsEvents | internal/mergequeue/processor.go:450-473 | recovering one row so is the recovery events of the protocol, so the theorems on crashes apply to it |
| MergeProcessor.StepIsAnEvent | internal/mergequeue/processor.go:118-203 | a step of the program is an event of the protocol with the same effect, so the theorems on runs apply to it |
| MergeProcessor.PushIsAnEvent | internal/mergequeue/git.go:86-112 | an external push during processItem is an event of the protocol |
| Workflow.TaskRow.RouteStep | internal/scheduler/scheduler.go:602-828 | reads the row, picks the edge, checks the budget and writes under the running guard |
| Workflow.RouteEndsExactly | internal/scheduler/scheduler.go:630-828 | a routed running task is done iff its edge leaves the template, blocked iff it is an oscillating failure on another edge, failed iff it is a failure into a step whose budget is spent, and else pending at the next step |
| Workflow.RunEndsExactly | internal/scheduler/scheduler.go:683-690 | the same over runs of a new task: it fails only by a failure into a step with a budget that the run has entered as often as the budget allows |
| Workflow.TaskRow.SetStepIfRunning | internal/store/tasks.go:306-324 | advances iff the task runs the expected step |
| Workflow.TaskRow.SetStatusIfRunning | internal/store/tasks.go:227-252 | changes the status iff the task runs |
| Workflow.NeverUndefined | internal/template/template.go:39-72 | a run of a validated template never reaches a step it does not define |
| Workflow.RunsAreBounded | internal/scheduler/scheduler.go:630-828 | without a cycle of free edges a task takes at most (sum of MaxRetries + 1) times the number of steps routes |
| Workflow.RoutingEndsExactly | internal/scheduler/scheduler.go:630-828 | every run of a validated template stays within that bound iff no cycle consists of free edges |
| Workflow.BudgetedFailuresEnd | internal/template/template.go:39-72 | acyclic success edges and a budget at every failure destination leave no free cycle |
| RouteRace.OneRoutePerDispatch | internal/store/tasks.go:306-324 | however reads and writes of several RouteStep calls interleave between two dispatches, at most one changes the row, as if run alone |
| RouteRace.AdvanceCountsOnce | internal/scheduler/scheduler.go:686-727 | an advance raises only the entered step's attempt count, by one, and a failure never passes the budget |
| RouteRace.LateAdvanceExact | internal/scheduler/scheduler.go:602-727 | a late advance leaves the attempts equal to the number of entries iff no other advance was written between its read and its write |
| RouteRace.CountsExactly | internal/store/tasks.go:306-324 | over any interleaving of calls and dispatches, the attempts are right in every state iff no advance was so overtaken |
| RouteRace.EndsItsStepExactly | internal/store/tasks.go:227-252 | in any race a late complete, fail or block ends a running task, and it ends the step its call was made for iff that was the row's step at the read and no advance came before the write, or the last one that came led back to it |
| RouteRace.StaleCompleteEndsLaterStep | internal/store/tasks.go:227-252 | a run in which a duplicate success signal of one step completes the task while the next step is running |
| RouteRace.StaleReadLosesAttempt | internal/scheduler/scheduler.go:602-727 | a concrete failure loop in which such a read keeps a budget of two from being spent |
| TaskDag.TaskStore.CheckNoCycle | internal/store/tasks.go:154-191 | terminates and accepts an edge iff the dependent is not reachable from its dependency |
| TaskDag.TaskStore.AddDepWithCycleCheck | internal/store/tasks.go:146-152 | an insertion that nothing interrupts: inserts iff accepted; keeps the graph acyclic and refuses no edge that would |
| TaskDag.CheckedInsertionsStayAcyclic | internal/store/tasks.go:146-152 | any series of checked insertions, one after another, leaves an acyclic graph |
| DepRace.AcyclicExactly | internal/store/tasks.go:146-192 | with each SELECT and each INSERT interleaved freely, the graph is acyclic in every state iff for no insertion another row was written, during its check, that leaves a task the search had already visited and leads back to the call's task |
| DepRace.RefusedRightly | internal/store/tasks.go:154-192 | no refusal is wrong: at any later time the refused edge would close a cycle |
| DepRace.UndisturbedStaysAcyclic | internal/store/tasks.go:146-152 | calls between whose begin and insertion no other row is written keep the graph acyclic |
| DepRace.CrossingInsertions | internal/store/tasks.go:146-152 | a run in which a -> b and b -> a are both checked and then both inserted |
| TaskDag.TasksReadyIsTheBestBatch | internal/store/tasks.go:194-224 | only ready tasks, best first, and one is left out only when the limit is used up |
| TaskDag.SomethingIsReady | internal/store/tasks.go:194-224 | in an acyclic graph of pending, done and merged tasks with one pending, the batch is not empty |
| Dispatching.Dispatcher.Tick | internal/scheduler/scheduler.go:71-104 | starts nothing while held; else the best ready tasks within free slots and reduced pressure, leaving one out only when these are used up; counts every start |
| Dispatching.NeverMoreThanSlots | internal/scheduler/scheduler.go:71-104 | over any series of ticks and endings of agents never more agents than slots, unless more ran at the start |
| AcceptanceSpecs.ValidateAcceptanceSpec | internal/model/acceptance.go:636-792 | accepts exactly the declaratively valid specs |
| AcceptanceSpecs.CheckFailIf | internal/model/acceptance.go:747-764 | fail_if conditions are checked up to the first negative one and no further |
| Reports.ValidateAdversarialReview | internal/model/acceptance.go:1385-1431 | accepts exactly the reviews whose findings, follow-up evidence and appended probes are in order |
| Reports.ValidateVerificationReport | internal/model/acceptance.go:1275-1379 | accepts exactly the declaratively valid reports and returns pass iff every result passes and no failure is listed |
| Reports.CheckCoverage | internal/model/acceptance.go:1348-1376 | a criterion is covered iff its evidence has every required type, linked to each probe that requires it |
| Confidence.ComputeVerificationConfidence | internal/model/acceptance.go:141-257 | the loops compute the weighted score over sets of types and linked probes |
| Confidence.PassingScore | internal/model/acceptance.go:141-257 | a valid passing report scores 0.8 plus a tenth of the retry score and of the diversity |
| Confidence.ScoreExactly | internal/model/acceptance.go:141-257 | the score of any report with results: 7/20 for the share of probes linked, 6/20 for the required types present, 3/20 for the criteria not failed, 2/20 each for retries (1, 2/3, 1/3, 0) and diversity; never clamped |
| Confidence.FailingScore | internal/model/acceptance.go:246 | with all probes linked and all types present: 0.65, plus 0.15 for the share of criteria not failed and a tenth each for retries and diversity |
| Confidence.FullyEvidencedLabel | internal/model/acceptance.go:45-69 | such a report is never labelled low, whatever failed, and exactly when it is labelled high |
| Confidence.ConfidenceOfPassing | internal/model/acceptance.go:45-69 | such a report scores at least 0.825, is never low, meets normal risk, and misses high risk iff retried three times with one evidence type |
| Verdicts.ValidateArtifactReferences | internal/model/acceptance.go:1559-1624 | accepts iff all evidence names a registered, same-task, not invalidated artifact of its type, path, hash and command |
| Verdicts.ArtifactHashMismatches | internal/model/acceptance.go:1633-1653 | exactly the artifacts whose file is unreadable or has another digest |
| Verdicts.ComputeVerdict | internal/model/acceptance.go:537-594 | the order of the gates and the verdict each gives |
| Verdicts.PassMeansEvidence | internal/model/acceptance.go:537-594 | a pass rests, for every required type of every probe, on a registered, same-task, valid artifact that still has its digest |
| Verdicts.PassExactly | internal/model/acceptance.go:564-594 | once inputs are in order, pass iff the report passes and high risk has its review and is not thrice retried on one evidence type |
| Verdicts.VerdictExactly | internal/model/acceptance.go:564-594 | once inputs are in order, fail iff the report does not pass; else low confidence, failed review or pass, each with exactly its cause |
| Verdicts.RejectReasons | internal/model/acceptance.go:537-563 | the reason of a rejection names the first gate that is closed |
| Verdicts.AcceptanceStore.ValidateAcceptanceSignal | internal/api/signals.go:193-271 | success iff the verdict is pass and the review suffices; what is stored and invalidated in every case; success implies the evidence chain |
| Verdicts.ChangedArtifactRejects | internal/model/acceptance.go:537-594 | with the other inputs in order the signal is rejected iff some artifact of the task has changed; the same change counts again after any artifacts were invalidated |
| ExecutionPlans.ValidateExecutionPlan | internal/model/acceptance.go:1719-1800 | accepts exactly the declaratively valid plans |
| ExecutionPlans.RunExecutionPlan | cmd/clankwork/acceptance.go:263-359 | the map of results updated step by step yields the declared report, or none as soon as a type to be registered is refused |
| PlanAcceptance.GeneratedReportExactly | cmd/clankwork/acceptance.go:263-359 | a run yields an acceptable report iff the registry takes the plan's types and each criterion has a failed step or is fed all it needs; the report passes iff every step passed |
| PlanAcceptance.FailuresExactly | cmd/clankwork/acceptance.go:338-345 | one failure for each failed step, in order, naming the step and the last criterion that has its probe |
| PlanAcceptance.FailuresMatchResults | cmd/clankwork/acceptance.go:303-345 | a criterion's result fails iff some failure names it |
| PlanAcceptance.AcceptedWhateverFails | cmd/clankwork/acceptance.go:279-318 | Registrable and PlanCovers, checkable before the run, hold iff the run yields an acceptable report whichever steps fail |
| PlanAcceptance.RegistrableExactly | internal/model/acceptance.go:1534-1557 | the registry takes every type of a valid plan iff none has surrounding white space |
| PlanAcceptance.TidyPlansAreCovered | internal/model/acceptance.go:1732-1797 | unique probe ids, demanded artifacts and trimmed types make a valid plan registrable and cover a valid spec |
| PlanAcceptance.SharedProbeIsRejected | cmd/clankwork/acceptance.go:279-284 | with a probe id shared with a later criterion no all-passing run yields an acceptable report |
| PlanAcceptance.SharedProbeExample | cmd/clankwork/acceptance.go:279-284 | a concrete valid spec and plan for which that happens |
| PlanAcceptance.UnproducedArtifactIsRejected | internal/model/acceptance.go:1773-1782 | a required artifact that no probe demands and no step produces passes the plan check, and then no all-passing run yields an acceptable report |
| PlanVerdict.GeneratedReferences | cmd/clankwork/acceptance.go:303-335 | all evidence of the generated report names what the run registered for it: same task, type, path, digest and command |
| PlanVerdict.PlanRunVerdict | internal/model/acceptance.go:537-594 | with bundle and files in order, the outcome of a run of a strong spec's plan is not rejected iff the types are registrable and each criterion is fed or has a failed step; it gets a pass iff moreover the plan covers the spec, every step passed and the risk is normal |
| RpcCalls.AtMostOneReply | internal/worker/acp.go:475-512 | each call's channel gets at most one value ever, its own reply or the exit error (section 5 of the JSON-RPC 2.0 specification) |
| RpcCalls.NoCallIsForgotten | internal/worker/acp.go:475-512 | a call that has not returned is registered, or its reply is with the reader, or sent, and only one of these; a returned call stays registered only after a marshal error |
| RpcCalls.NoSendBlocks | internal/worker/acp.go:560-576 | no send on a call's channel finds it full, those under the session lock included |
| RpcCalls.DrainFinishesExactly | internal/worker/acp.go:669-694 | after the process has exited wait can finish both loops, give every pending call the exit error and release the lock iff it is not jammed on a full permission channel that nobody will read |
| RpcCalls.JammedForever | internal/worker/acp.go:682-685 | once jammed, wait holds the session lock in every continuation |
| RpcCalls.NeverJamsExactly | internal/worker/acp_permissions.go:341-387 | however the others move, wait never jams iff at the exit no decision is in a registered request's channel or on its way there |
| RpcCalls.PermissionJamsWait | internal/worker/acp_permissions.go:173-202 | a run from the initial state that jams: a request times out, a decision for it arrives late, and the process exits before the request is unregistered |
| RpcCalls.ReplyIsDelivered | internal/worker/acp.go:475-576 | a reply to a waiting call reaches exactly that call, once the reader is free |
| EventRouter.EventsAreConserved | internal/worker/acp.go:728-773 | from an empty runtime on, each emitted event is delivered once, in flight, buffered, dropped by the cap or discarded; a bound session has no buffer; an unbound one holds the newest 200 in order |
| EventRouter.FewEventsAreAllFlushed | internal/worker/acp.go:728-747 | a session bound before its 201st event hands all of them to the sink in one flight, in order |
| EventRouter.BoundExactly | internal/worker/acp.go:728-747 | a session is bound, and to what, as its last bind or delete says |
| EventRouter.WaitingExactly | internal/worker/acp.go:749-773 | what waits are the events emitted since the last bind or delete, iff the session is not bound |
| EventRouter.EmittedTakesOff | internal/worker/acp.go:749-773 | an event for a bound session goes to the sink alone; none is dropped before 200 of the session wait |
| EventRouter.OrderExactly | internal/worker/acp.go:728-773 | the events of a session reach the sink, where they get their numbers, in the order of emission however deliveries go on iff at no point two goroutines have events of it to hand over |
| EventRouter.ACPRuntime.EmitEvent | internal/worker/acp.go:749-773 | to the sink when bound, else into the capped buffer |
| EventRouter.ACPRuntime.BindAgentSession | internal/worker/acp.go:728-747 | records the binding and takes the whole buffer out, in order |
| EventRouter.ACPRuntime.DeleteSession | internal/worker/acp.go:403-409 | forgets binding and buffer |
| AcpState.ComputeACPState | internal/scheduler/reconciler.go:480-543 | one pass over the log equals its declarative reading |
| AcpState.ReadingIsUnique | internal/scheduler/reconciler.go:480-543 | a log has one reading, so the declarative clauses determine the state |
| AcpState.AgentEventsList | internal/store/agent_events.go:24-70 | for any table, in whatever order its rows were inserted: the last `limit` of the matching rows sorted by number, in ascending order |
| AcpState.LogIsUnique | internal/store/agent_events.go:42-45 | if no two matching rows share a number there is only one such sorted log |
| AcpState.EndedOnWindow | internal/scheduler/reconciler.go:205-213 | ended-without-signal on the window iff it holds on the full log and the window has a turn event |
| AcpState.EvidenceOnWindow | internal/scheduler/reconciler.go:480-543 | whatever else the window reports, the full log holds |
| AcpState.AcpStateOf | internal/scheduler/reconciler.go:468-475 | the reconciler's newest-500 view reports an ended turn iff the agent's whole sorted log does and the window holds a turn event |
| Nudges.ComputeOscillationScore | internal/model/controller.go:452-464 | the largest of the three counts, never negative |
| Nudges.EndedBlocksExactly | internal/model/controller.go:317-450 | an ended agent is blocked iff it used no tool since its last turn started and three turns ended in errors |
| Nudges.Reconciler.ReconcileACP | internal/scheduler/reconciler.go:228-290 | one tick for one agent, in the order of its cases; no other agent's entry changes |
| Nudges.OutcomeExactly | internal/scheduler/reconciler.go:228-466 | each outcome of a tick with exactly its cause, told from the observations |
| Nudges.TouchedExactly | internal/scheduler/reconciler.go:228-290 | whether a tick may nudge an agent or take it from its task is decided by what it observes: a cancelled turn, a dead and silent agent, or a living one that is not working |
| Nudges.WorkingIsLeftAlone | internal/scheduler/reconciler.go:282-286 | over any run of other ticks nothing is sent, nothing escalates and the entry stays |
| Nudges.Reconciler.HandleACPEndedWithoutSignal | internal/scheduler/reconciler.go:292-401 | block, first nudge, wait, retry within the budget, or hand off and clear |
| Nudges.Reconciler.HandleACPStall | internal/scheduler/reconciler.go:403-466 | first nudge, wait, or hand off and clear |
| Nudges.Reconciler.ClearNudge | internal/scheduler/reconciler.go:681-686 | removes both entries of the agent and nothing else |
| Nudges.EscalatesInTime | internal/scheduler/reconciler.go:292-466 | a nudged agent that stays stuck is taken from its task before the deadline, within the retries left |
| Nudges.FromFirstNudge | internal/scheduler/reconciler.go:17-22 | from the first recorded nudge: escalated within four windows of timeout plus tick gap and three times the time a send takes, after at most four nudges |
| Nudges.NudgesAreSpaced | internal/scheduler/reconciler.go:345-371 | two recorded nudges, and a nudge and its handoff, are a full timeout apart |
| Nudges.RejectedNudgesNeverHandOff | internal/scheduler/reconciler.go:328-334 | the clock does not start while every nudge is rejected because a turn is active |
| ShellText.ShellTokens | internal/worker/acp_paths.go:188-238 | the loop with builder, quote and escape flag computes the tokens, or reports unbalanced text |
| ShellText.SpelledMeans | internal/worker/acp_paths.go:188-238 | any mixture of bare, escaped, single-quoted and double-quoted pieces, blanks and operators has its meaning as tokens |
| ShellText.UnbalancedExactly | internal/worker/acp_paths.go:188-238 | every text is such a mixture, or one followed by a lone backslash or an unclosed quote, and is unbalanced iff it is the latter; its tokens are exactly its meaning |
| ShellText.QuoteThenTokenize | cmd/clankwork/workspace.go:347-352 | tokenizing quoted words joined by spaces gives back the non-empty ones, so exactly the list iff none is empty (POSIX Shell Command Language, section 2.2 Quoting) |
| ShellText.TuiCommand | cmd/clankwork/workspace.go:331-338 | the command line tokenizes back to its arguments |
| ConflictMarkers.ParseConflictBlocks | internal/mergequeue/classify.go:391-429 | the nested loops compute the declared blocks |
| ConflictMarkers.CountConflictMarkers | internal/mergequeue/classify.go:357-365 | the number of opening markers |
| ConflictMarkers.AllConflictsSmall | internal/mergequeue/classify.go:369-388 | true iff no block has more than five lines on a side |
| ConflictMarkers.BlocksAtMostMarkers | internal/mergequeue/classify.go:391-429 | on any input at most as many blocks as opening markers |
| ConflictMarkers.PrintThenParse | internal/mergequeue/classify.go:391-429 | parsing printed context and conflicts returns exactly those conflicts, in order |
| ConflictMarkers.BlocksExactly | internal/mergequeue/classify.go:391-429 | every file is context, complete conflicts and perhaps an unfinished one at the end; the blocks are those of the conflicts, and of the unfinished one iff it has its middle marker |

## Left out

- Operator commands (`queue skip`, `retry-step`, `reset-step`, `unblock`, `close`) and unguarded status signals: they rewrite rows freely and are outside the runs.
- MergeSafety.CrashAfterUpdateRefExactly: says nothing of a crash between the branch deletion and the merged write, which the code recovers as queued.
- MergeSafety.InProgressIsAttended: assumes that creating a resolver task succeeds, since a failure there leaves the item rebasing in the code.
- MergeProcessor.Processor.ProcessItem: store writes succeed; a failing mkdir (which returns before any write), a failing `rev-parse HEAD` after a successful rebase, and the optional push to origin are not modelled; in program order it is interleaved with pushes alone, while `MergeQueue` interleaves all other events too, resolver writes among them.
- MergeQueue: agents do not commit to a branch while its item is being handled, in progress or merged; pushers only fast-forward targets; `isMergedInto` fails only when a ref is missing.
- `StartupRecovery` after its first loop and `EnqueueIfAutoMerge` appear as the enqueue and resolver events of the protocol, without their template and repo lookups.
- `ClassifyConflict` beyond counting, parsing and measuring blocks: the remaining file-name and text tests are lists of constants.
- `internal/workflow` is not part of this model; a compiled graph is taken as the template's nodes and edges.
- DepRace.AcyclicExactly: the API's unchecked insertion is not covered.
- Worktrees, hooks, spawning and triage inside a dispatch: a dispatch succeeds or fails.
- Word-list heuristics on spec texts, the strength score, the effective risk and the tolerant command comparison are parameters, so the results hold for any of them.
- Confidence.ComputeVerificationConfidence: exact arithmetic, because two evidence types after three retries lie on the 0.85 threshold and float rounding decides there.
- Learning, prior art, configuration of adversarial sampling, and the validity of specs after adversarial probes are appended (the appended spec is a parameter).
- Artifact lists with nil entries, and SHA-256 itself: the digest of a file is a parameter.
- ExecutionPlans.RunExecutionPlan: failures of files, of the network or of a command's start, which also end the run without a report.
- PlanAcceptance.GeneratedReportExactly: assumes non-blank registry ids and timestamp and digests that are no placeholders.
- AcpState.AcpStateOf: speaks of the log sorted by number; the daemon restarts its counter, and then that is not the order of arrival.
- JSON decoding of events: the facts the fold takes from a payload are fields.
- RpcCalls: one reader, so one permission request at a time; requests allowed or denied by policy without asking do not use a channel.
- The tmux stall path and the session's line log: easy members.
- Lower-casing and folding beyond ASCII and the two characters that lower to ASCII, and invalid UTF-8.
