/** The reconciler's nudge, retry and handoff machine for ACP agents, with its clock. */
module Nudges {
  import opened Options
  import A = AcpState

  // ---- Agent health ---------------------------------------------------------------------

  datatype Category = AgentDead | AgentStalling | AgentNoProgress | AgentStale

  datatype Progress = Present | Absent | Unknown

  datatype Health = Healthy | Warning | Stalled | Dead

  datatype Action = NoAction | NoOp | Nudge | Block | Kill

  datatype Observed = Observed(
    sessionAlive: bool,
    heartbeatStale: bool,
    paneActive: bool,
    progress: Progress,
    noSignalTurns: int,
    repeatedFailures: int,
    nudgeTimeouts: int)

  const OSCILLATION_THRESHOLD := 3

  function ComputeAgentError(o: Observed): Option<Category> {
    if !o.sessionAlive then Some(AgentDead)
    else if o.heartbeatStale && !o.paneActive then Some(AgentStalling)
    else if o.progress == Absent then Some(AgentNoProgress)
    else if o.heartbeatStale then Some(AgentStale)
    else None
  }

  function OscillationScore(o: Observed): int {
    var a := if o.noSignalTurns > 0 then o.noSignalTurns else 0;
    var b := if o.repeatedFailures > a then o.repeatedFailures else a;
    if o.nudgeTimeouts > b then o.nudgeTimeouts else b
  }

  /** OscillationScore: the largest of the three counts, and never negative. */
  method ComputeOscillationScore(o: Observed) returns (score: int)
    ensures score == OscillationScore(o)
    ensures score >= 0 && score >= o.noSignalTurns && score >= o.repeatedFailures && score >= o.nudgeTimeouts
    ensures score in {0, o.noSignalTurns, o.repeatedFailures, o.nudgeTimeouts}
  {
    score := 0;
    if o.noSignalTurns > score {
      score := o.noSignalTurns;
    }
    if o.repeatedFailures > score {
      score := o.repeatedFailures;
    }
    if o.nudgeTimeouts > score {
      score := o.nudgeTimeouts;
    }
  }

  function EvaluateAgentHealth(o: Observed): (Health, Action) {
    match ComputeAgentError(o)
    case None => (Healthy, NoAction)
    case Some(category) =>
      if OscillationScore(o) >= OSCILLATION_THRESHOLD then (Stalled, Block)
      else
        match category
        case AgentDead => (Dead, Kill)
        case AgentStalling => (Stalled, Nudge)
        case AgentNoProgress => (Warning, Nudge)
        case AgentStale => (Warning, NoOp)
  }

  function ProgressEvidence(s: A.State): Progress {
    if s.toolActivity then Present
    else if A.EndedWithoutSignal(s) then Absent
    else Unknown
  }

  /** What the reconciler reports for an agent that ended its turn without a signal. */
  function EndedObservation(s: A.State): Observed {
    Observed(true, false, true, ProgressEvidence(s), s.errorTurnCount, 0, 0)
  }

  /** An ended agent is blocked iff three of its turns in the window ended in errors and it
      has used no tool since its last turn started. */
  lemma EndedBlocksExactly(s: A.State)
    requires A.EndedWithoutSignal(s)
    ensures EvaluateAgentHealth(EndedObservation(s)).1 == Block <==> !s.toolActivity && s.errorTurnCount >= 3
  {}

  // ---- One tick for one agent --------------------------------------------------------------

  const NUDGE_TIMEOUT := 180
  const RETRY_BUDGET := 3

  /** The agent's entries in nudgeSent and nudgeErrorRetries. */
  datatype Entry = Entry(sentAt: Option<int>, retries: nat)

  const CLEARED := Entry(None, 0)

  datatype Send = SendOk | SendFailed | TurnActive

  /** What a tick sees; `recordedAt` is the clock after a nudge was sent. */
  datatype Tick = Tick(
    now: int,
    recordedAt: int,
    state: A.State,
    alive: bool,
    heartbeatFresh: bool,
    send: Send)

  datatype Outcome = Waited | Grace | Nudged | Deferred | Blocked | Cancelled | Gone | ContextHandoff | HandedOff

  predicate EventFresh(s: A.State, now: int, timeout: int) {
    s.lastEventAt != 0 && now - s.lastEventAt < timeout
  }

  /** sendNudge of the first nudge: the clock starts unless a turn turned out to be active. */
  function FirstNudge(e: Entry, t: Tick): (Entry, Outcome) {
    if t.send == TurnActive then (e, Deferred) else (e.(sentAt := Some(t.recordedAt)), Nudged)
  }

  function EndedTick(e: Entry, t: Tick): (Entry, Outcome) {
    if EvaluateAgentHealth(EndedObservation(t.state)).1 == Block then (e, Blocked)
    else if e.sentAt.None? then FirstNudge(e, t)
    else if t.now - e.sentAt.value < NUDGE_TIMEOUT then (e, Waited)
    else if t.state.lastStopReason == "error" && e.retries < RETRY_BUDGET
      then (Entry(Some(t.recordedAt), e.retries + 1), Nudged)
    else (CLEARED, HandedOff)
  }

  function StallTick(e: Entry, t: Tick): (Entry, Outcome) {
    if e.sentAt.None? then FirstNudge(e, t)
    else if t.now - e.sentAt.value < NUDGE_TIMEOUT then (e, Waited)
    else (CLEARED, HandedOff)
  }

  function Reconcile(timeout: int, e: Entry, t: Tick): (Entry, Outcome) {
    var ended, eventFresh := A.EndedWithoutSignal(t.state), EventFresh(t.state, t.now, timeout);
    if t.state.lastStopReason == "cancelled" && ended then (CLEARED, Cancelled)
    else if !t.alive && !t.heartbeatFresh && !eventFresh then (CLEARED, Gone)
    else if !t.alive then (e, Grace)
    else if t.state.contextLimitError then (CLEARED, ContextHandoff)
    else if ended then EndedTick(e, t)
    else if t.heartbeatFresh || eventFresh then (e, Waited)
    else StallTick(e, t)
  }

  // ---- Runs of ticks -----------------------------------------------------------------------

  function EntryAt(timeout: int, e: Entry, ticks: seq<Tick>, i: nat): Entry
    requires i <= |ticks|
  {
    if i == 0 then e else Reconcile(timeout, EntryAt(timeout, e, ticks, i - 1), ticks[i - 1]).0
  }

  function OutcomeAt(timeout: int, e: Entry, ticks: seq<Tick>, i: nat): Outcome
    requires i < |ticks|
  {
    Reconcile(timeout, EntryAt(timeout, e, ticks, i), ticks[i]).1
  }

  function NudgesBefore(timeout: int, e: Entry, ticks: seq<Tick>, i: nat): nat
    requires i <= |ticks|
  {
    if i == 0 then 0
    else NudgesBefore(timeout, e, ticks, i - 1) + (if OutcomeAt(timeout, e, ticks, i - 1) == Nudged then 1 else 0)
  }

  /** The agent is taken from its task, which is failed, rerouted or blocked. */
  predicate Escalates(o: Outcome) {
    o in {Blocked, Cancelled, Gone, ContextHandoff, HandedOff}
  }

  predicate Clears(o: Outcome) {
    o in {Cancelled, Gone, ContextHandoff, HandedOff}
  }

  // ---- Which agents are touched ---------------------------------------------------------------

  predicate Fresh(timeout: int, t: Tick) {
    t.heartbeatFresh || EventFresh(t.state, t.now, timeout)
  }

  predicate CancelledTurn(t: Tick) {
    t.state.lastStopReason == "cancelled" && A.EndedWithoutSignal(t.state)
  }

  /** Alive, within its context, in a turn or before its first, and heard of lately. */
  predicate Working(timeout: int, t: Tick) {
    t.alive && !t.state.contextLimitError && !A.EndedWithoutSignal(t.state) && Fresh(timeout, t)
  }

  /** Alive and within its context, but idle after a turn or silent. */
  predicate Idle(timeout: int, t: Tick) {
    && t.alive && !t.state.contextLimitError && !CancelledTurn(t)
    && (A.EndedWithoutSignal(t.state) || !Fresh(timeout, t))
  }

  /** Three turns ended in errors and no tool was used since the last turn started. */
  predicate Fails(t: Tick) {
    A.EndedWithoutSignal(t.state) && !t.state.toolActivity && t.state.errorTurnCount >= 3
  }

  predicate TimedOut(e: Entry, t: Tick) {
    e.sentAt.Some? && t.now - e.sentAt.value >= 180
  }

  /** An ended turn with an error is nudged again, three times. */
  predicate RetriesLeft(e: Entry, t: Tick) {
    A.EndedWithoutSignal(t.state) && t.state.lastStopReason == "error" && e.retries < 3
  }

  /** What a tick does, told from the observations: each outcome with exactly its cause. */
  lemma OutcomeExactly(timeout: int, e: Entry, t: Tick)
    ensures var o := Reconcile(timeout, e, t).1; var idle := Idle(timeout, t) && !Fails(t);
            && (o == Cancelled <==> CancelledTurn(t))
            && (o == Gone <==> !CancelledTurn(t) && !t.alive && !Fresh(timeout, t))
            && (o == Grace <==> !CancelledTurn(t) && !t.alive && Fresh(timeout, t))
            && (o == ContextHandoff <==> !CancelledTurn(t) && t.alive && t.state.contextLimitError)
            && (o == Blocked <==> Idle(timeout, t) && Fails(t))
            && (o == Nudged <==> idle && ((e.sentAt.None? && t.send != TurnActive) || (TimedOut(e, t) && RetriesLeft(e, t))))
            && (o == Deferred <==> idle && e.sentAt.None? && t.send == TurnActive)
            && (o == HandedOff <==> idle && TimedOut(e, t) && !RetriesLeft(e, t))
            && (o == Waited <==> (Working(timeout, t) && !CancelledTurn(t)) || (idle && e.sentAt.Some? && !TimedOut(e, t)))
  {}

  /** What a tick leaves of the agent's entry. */
  lemma EntryExactly(timeout: int, e: Entry, t: Tick)
    ensures var (e', o) := Reconcile(timeout, e, t);
            && (Clears(o) ==> e' == CLEARED)
            && (o == Nudged ==> e' == Entry(Some(t.recordedAt), if e.sentAt.Some? then e.retries + 1 else e.retries))
            && (!Clears(o) && o != Nudged ==> e' == e)
  {
    hide EvaluateAgentHealth, EventFresh;
  }

  predicate Touches(o: Outcome) {
    o == Nudged || Escalates(o)
  }

  /** The ticks that may nudge an agent or take it from its task. */
  predicate MayTouch(timeout: int, t: Tick) {
    CancelledTurn(t) || (!t.alive && !Fresh(timeout, t)) || (t.alive && !Working(timeout, t))
  }

  /** Whether a tick nudges or takes the agent away, after some history, is decided by what it
      observes. */
  lemma TouchedExactly(timeout: int, t: Tick)
    ensures MayTouch(timeout, t) <==> exists e :: Touches(Reconcile(timeout, e, t).1)
  {
    hide Reconcile, EventFresh;
    var late := Entry(Some(t.now - NUDGE_TIMEOUT), RETRY_BUDGET);
    OutcomeExactly(timeout, late, t);
    if MayTouch(timeout, t) {
      assert Touches(Reconcile(timeout, late, t).1);
    }
    forall e | Touches(Reconcile(timeout, e, t).1) ensures MayTouch(timeout, t) {
      OutcomeExactly(timeout, e, t);
    }
  }

  /** An agent that works, or that died a moment ago, is left alone: in any run of ticks, up to
      the first tick that may touch it nothing is sent, nothing escalates, and its entry stays. */
  lemma {:induction false} WorkingIsLeftAlone(timeout: int, e: Entry, ticks: seq<Tick>, i: nat)
    requires i <= |ticks| && forall k | 0 <= k < i :: !MayTouch(timeout, ticks[k])
    ensures EntryAt(timeout, e, ticks, i) == e
    ensures forall k | 0 <= k < i :: OutcomeAt(timeout, e, ticks, k) in {Waited, Grace}
  {
    hide Reconcile, EventFresh;
    if i > 0 {
      WorkingIsLeftAlone(timeout, e, ticks, i - 1);
      OutcomeExactly(timeout, e, ticks[i - 1]);
      EntryExactly(timeout, e, ticks[i - 1]);
    }
  }

  /** Idle after a turn, or silent. */
  predicate Stuck(timeout: int, t: Tick) {
    t.alive && (A.EndedWithoutSignal(t.state) || (!t.heartbeatFresh && !EventFresh(t.state, t.now, timeout)))
  }

  /** Ticks start at most `gap` after `start` and each other; sending takes at most `send`. */
  predicate Paced(ticks: seq<Tick>, start: int, gap: int, send: int) {
    && (forall i | 0 <= i < |ticks| :: ticks[i].now <= ticks[i].recordedAt <= ticks[i].now + send)
    && (ticks != [] ==> ticks[0].now <= start + gap)
    && forall i | 0 < i < |ticks| :: ticks[i - 1].recordedAt <= ticks[i].now <= ticks[i - 1].now + gap
  }

  /** One nudge window for the nudge just recorded and one for each retry left. */
  function Deadline(e: Entry, gap: int, send: int): int
    requires e.sentAt.Some?
  {
    e.sentAt.value + (1 + RETRY_BUDGET - e.retries) * (NUDGE_TIMEOUT + gap) + (RETRY_BUDGET - e.retries) * send
  }

  lemma DeadlineAfterRetry(s: int, s': int, r: int, gap: int, send: int)
    requires s' <= s + NUDGE_TIMEOUT + gap + send
    ensures s' + (RETRY_BUDGET - r) * (NUDGE_TIMEOUT + gap) + (RETRY_BUDGET - r - 1) * send
         <= s + (1 + RETRY_BUDGET - r) * (NUDGE_TIMEOUT + gap) + (RETRY_BUDGET - r) * send
  {
    assert (1 + RETRY_BUDGET - r) * (NUDGE_TIMEOUT + gap) == (RETRY_BUDGET - r) * (NUDGE_TIMEOUT + gap) + (NUDGE_TIMEOUT + gap);
    assert (RETRY_BUDGET - r) * send == (RETRY_BUDGET - r - 1) * send + send;
  }

  lemma DeadlineIsAWindowAway(e: Entry, gap: nat, send: nat)
    requires e.sentAt.Some? && e.retries <= RETRY_BUDGET
    ensures e.sentAt.value + NUDGE_TIMEOUT + gap <= Deadline(e, gap, send)
  {
    var left := RETRY_BUDGET - e.retries;
    assert (1 + left) * (NUDGE_TIMEOUT + gap) == (NUDGE_TIMEOUT + gap) + left * (NUDGE_TIMEOUT + gap);
  }

  /** A tick of a stuck agent that was nudged escalates, or keeps the deadline. */
  lemma StuckTick(timeout: int, e: Entry, t: Tick, gap: nat, send: nat)
    requires Stuck(timeout, t) && e.sentAt.Some? && e.retries <= RETRY_BUDGET
    requires t.now < e.sentAt.value + NUDGE_TIMEOUT + gap && t.now <= t.recordedAt <= t.now + send
    ensures t.now < Deadline(e, gap, send)
    ensures var (e', o) := Reconcile(timeout, e, t);
            Escalates(o) ||
            (&& e'.sentAt.Some? && e'.retries <= RETRY_BUDGET && Deadline(e', gap, send) <= Deadline(e, gap, send)
             && t.now < e'.sentAt.value + NUDGE_TIMEOUT
             && e'.retries == e.retries + (if o == Nudged then 1 else 0))
  {
    hide EvaluateAgentHealth, A.EndedWithoutSignal, EventFresh;
    DeadlineIsAWindowAway(e, gap, send);
    DeadlineAfterRetry(e.sentAt.value, t.recordedAt, e.retries, gap, send);
  }

  /** The state before tick i of a run that has not escalated yet. */
  ghost predicate OnTime(timeout: int, e: Entry, ticks: seq<Tick>, start: int, i: nat, gap: int, send: int)
    requires i <= |ticks| && e.sentAt.Some?
  {
    var e' := EntryAt(timeout, e, ticks, i);
    && e'.sentAt.Some? && e'.retries <= RETRY_BUDGET && Deadline(e', gap, send) <= Deadline(e, gap, send)
    && (if i == 0 then start else ticks[i - 1].now) < e'.sentAt.value + NUDGE_TIMEOUT
    && NudgesBefore(timeout, e, ticks, i) == e'.retries - e.retries
    && forall k | 0 <= k < i :: !Escalates(OutcomeAt(timeout, e, ticks, k))
  }

  lemma {:induction false} OnTimeUntil(timeout: int, e: Entry, ticks: seq<Tick>, start: int, i: nat, gap: nat, send: nat)
    requires e.sentAt.Some? && e.retries <= RETRY_BUDGET && start < e.sentAt.value + NUDGE_TIMEOUT
    requires Paced(ticks, start, gap, send) && forall t | t in ticks :: Stuck(timeout, t)
    requires i <= |ticks| && forall k | 0 <= k < i :: !Escalates(OutcomeAt(timeout, e, ticks, k))
    ensures OnTime(timeout, e, ticks, start, i, gap, send)
    ensures i < |ticks| ==> ticks[i].now < Deadline(e, gap, send)
  {
    hide Deadline, Reconcile, Stuck;
    if i > 0 {
      OnTimeUntil(timeout, e, ticks, start, i - 1, gap, send);
      var before := EntryAt(timeout, e, ticks, i - 1);
      StuckTick(timeout, before, ticks[i - 1], gap, send);
      assert !Escalates(OutcomeAt(timeout, e, ticks, i - 1));
    }
    if i < |ticks| {
      StuckTick(timeout, EntryAt(timeout, e, ticks, i), ticks[i], gap, send);
    }
  }

  /** A nudged agent that stays stuck is taken from its task before the deadline, with at most
      the retries left as further nudges. */
  lemma {:induction false} EscalatesInTime(timeout: int, e: Entry, ticks: seq<Tick>, start: int, gap: nat, send: nat)
      returns (i: nat)
    requires e.sentAt.Some? && e.retries <= RETRY_BUDGET && start < e.sentAt.value + NUDGE_TIMEOUT
    requires Paced(ticks, start, gap, send) && forall t | t in ticks :: Stuck(timeout, t)
    requires ticks != [] && Deadline(e, gap, send) <= ticks[|ticks| - 1].now
    ensures i < |ticks| && Escalates(OutcomeAt(timeout, e, ticks, i))
    ensures forall k | 0 <= k < i :: !Escalates(OutcomeAt(timeout, e, ticks, k))
    ensures ticks[i].now < Deadline(e, gap, send)
    ensures NudgesBefore(timeout, e, ticks, i) <= RETRY_BUDGET - e.retries
  {
    hide Deadline, Reconcile, Stuck, Paced, Escalates;
    i := 0;
    while !Escalates(OutcomeAt(timeout, e, ticks, i))
      invariant i < |ticks|
      invariant forall k | 0 <= k < i :: !Escalates(OutcomeAt(timeout, e, ticks, k))
      decreases |ticks| - i
    {
      OnTimeUntil(timeout, e, ticks, start, i, gap, send);
      i := i + 1;
    }
    OnTimeUntil(timeout, e, ticks, start, i, gap, send);
  }

  /** The whole life of a stuck agent, from the tick that records its first nudge: it is taken
      from its task within four windows and three sends, after at most four nudges. */
  lemma FromFirstNudge(timeout: int, ticks: seq<Tick>, gap: nat, send: nat) returns (i: nat)
    requires ticks != [] && OutcomeAt(timeout, CLEARED, ticks, 0) == Nudged
    requires Paced(ticks, ticks[0].now, gap, send) && forall t | t in ticks :: Stuck(timeout, t)
    requires ticks[0].recordedAt + 4 * (NUDGE_TIMEOUT + gap) + 3 * send <= ticks[|ticks| - 1].now
    ensures i < |ticks| && Escalates(OutcomeAt(timeout, CLEARED, ticks, i))
    ensures forall k | 0 <= k < i :: !Escalates(OutcomeAt(timeout, CLEARED, ticks, k))
    ensures ticks[i].now < ticks[0].recordedAt + 4 * (NUDGE_TIMEOUT + gap) + 3 * send
    ensures NudgesBefore(timeout, CLEARED, ticks, i) <= 1 + RETRY_BUDGET
  {
    hide Reconcile, Stuck;
    var e, rest := Entry(Some(ticks[0].recordedAt), 0), ticks[1..];
    FirstNudgeEntry(timeout, ticks[0]);
    assert Paced(rest, ticks[0].now, gap, send);
    i := EscalatesInTime(timeout, e, rest, ticks[0].now, gap, send);
    forall k | 0 <= k <= |rest|
      ensures EntryAt(timeout, CLEARED, ticks, k + 1) == EntryAt(timeout, e, rest, k)
      ensures NudgesBefore(timeout, CLEARED, ticks, k + 1) == 1 + NudgesBefore(timeout, e, rest, k)
    {
      TailRun(timeout, CLEARED, e, ticks, k);
    }
    assert forall k | 0 <= k < |rest| :: OutcomeAt(timeout, CLEARED, ticks, k + 1) == OutcomeAt(timeout, e, rest, k);
    forall k | 0 <= k < i + 1 ensures !Escalates(OutcomeAt(timeout, CLEARED, ticks, k)) {
      if k > 0 {
        assert !Escalates(OutcomeAt(timeout, e, rest, k - 1));
      }
    }
    i := i + 1;
  }

  lemma FirstNudgeEntry(timeout: int, t: Tick)
    requires Reconcile(timeout, CLEARED, t).1 == Nudged
    ensures Reconcile(timeout, CLEARED, t).0 == Entry(Some(t.recordedAt), 0)
  {
    hide EvaluateAgentHealth;
  }

  lemma {:induction false} TailRun(timeout: int, e: Entry, e1: Entry, ticks: seq<Tick>, k: nat)
    requires k < |ticks| && Reconcile(timeout, e, ticks[0]) == (e1, Nudged)
    ensures EntryAt(timeout, e, ticks, k + 1) == EntryAt(timeout, e1, ticks[1..], k)
    ensures NudgesBefore(timeout, e, ticks, k + 1) == 1 + NudgesBefore(timeout, e1, ticks[1..], k)
  {
    hide Reconcile;
    if k == 0 {
      assert EntryAt(timeout, e, ticks, 1) == Reconcile(timeout, EntryAt(timeout, e, ticks, 0), ticks[0]).0;
      assert NudgesBefore(timeout, e, ticks, 0) == 0;
    } else {
      TailRun(timeout, e, e1, ticks, k - 1);
      assert ticks[1..][k - 1] == ticks[k];
    }
  }

  /** After a nudge the entry holds a time no nudge or handoff comes earlier than NUDGE_TIMEOUT
      after, until it is cleared. */
  lemma {:induction false} SentAtOnlyGrows(timeout: int, e: Entry, ticks: seq<Tick>, i: nat, j: nat)
    requires i < j <= |ticks| && OutcomeAt(timeout, e, ticks, i) == Nudged
    requires forall k | i < k < j :: !Clears(OutcomeAt(timeout, e, ticks, k))
    requires forall t | t in ticks :: t.now <= t.recordedAt
    ensures var e' := EntryAt(timeout, e, ticks, j); e'.sentAt.Some? && ticks[i].recordedAt <= e'.sentAt.value
  {
    hide EvaluateAgentHealth, EventFresh;
    if i + 1 < j {
      SentAtOnlyGrows(timeout, e, ticks, i, j - 1);
      assert !Clears(OutcomeAt(timeout, e, ticks, j - 1));
    }
  }

  /** Two recorded nudges, and a nudge and the handoff it leads to, are a full timeout apart. */
  lemma NudgesAreSpaced(timeout: int, e: Entry, ticks: seq<Tick>, i: nat, j: nat)
    requires i < j < |ticks| && OutcomeAt(timeout, e, ticks, i) == Nudged
    requires OutcomeAt(timeout, e, ticks, j) in {Nudged, HandedOff}
    requires forall k | i < k < j :: !Clears(OutcomeAt(timeout, e, ticks, k))
    requires forall t | t in ticks :: t.now <= t.recordedAt
    ensures ticks[j].now >= ticks[i].recordedAt + NUDGE_TIMEOUT
  {
    hide EvaluateAgentHealth, EventFresh;
    SentAtOnlyGrows(timeout, e, ticks, i, j);
  }

  /** The clock never starts while every nudge is rejected because a turn is active. */
  lemma {:induction false} RejectedNudgesNeverHandOff(timeout: int, ticks: seq<Tick>, i: nat)
    requires i < |ticks| && forall t | t in ticks :: t.send == TurnActive
    ensures EntryAt(timeout, CLEARED, ticks, i) == CLEARED
    ensures OutcomeAt(timeout, CLEARED, ticks, i) !in {Nudged, HandedOff}
  {
    hide EvaluateAgentHealth, EventFresh;
    if i > 0 {
      RejectedNudgesNeverHandOff(timeout, ticks, i - 1);
    }
  }

  // ---- The reconciler ------------------------------------------------------------------------

  class Reconciler {
    const timeout: int
    var nudgeSent: map<string, int>
    var nudgeErrorRetries: map<string, nat>

    constructor (timeout: int)
      ensures this.timeout == timeout
      ensures forall id :: EntryOf(id) == CLEARED
    {
      this.timeout := timeout;
      nudgeSent, nudgeErrorRetries := map[], map[];
    }

    ghost function EntryOf(id: string): Entry
      reads this
    {
      Entry(if id in nudgeSent then Some(nudgeSent[id]) else None,
            if id in nudgeErrorRetries then nudgeErrorRetries[id] else 0)
    }

    twostate predicate OthersKept(id: string)
      reads this
    {
      nudgeSent - {id} == old(nudgeSent) - {id} && nudgeErrorRetries - {id} == old(nudgeErrorRetries) - {id}
    }

    method ClearNudge(id: string)
      modifies this
      ensures EntryOf(id) == CLEARED && OthersKept(id)
    {
      nudgeSent := nudgeSent - {id};
      nudgeErrorRetries := nudgeErrorRetries - {id};
    }

    method HandleACPEndedWithoutSignal(id: string, t: Tick) returns (outcome: Outcome)
      modifies this
      ensures (EntryOf(id), outcome) == EndedTick(old(EntryOf(id)), t) && OthersKept(id)
    {
      var decision := EvaluateAgentHealth(EndedObservation(t.state));
      if decision.1 == Block {
        return Blocked;
      }
      if id !in nudgeSent {
        if t.send == TurnActive {
          return Deferred;
        }
        nudgeSent := nudgeSent[id := t.recordedAt];
        return Nudged;
      }
      if t.now - nudgeSent[id] < NUDGE_TIMEOUT {
        return Waited;
      }
      if t.state.lastStopReason == "error" {
        var retries := if id in nudgeErrorRetries then nudgeErrorRetries[id] else 0;
        if retries < RETRY_BUDGET {
          nudgeErrorRetries := nudgeErrorRetries[id := retries + 1];
          nudgeSent := nudgeSent - {id};
          nudgeSent := nudgeSent[id := t.recordedAt];
          return Nudged;
        }
      }
      ClearNudge(id);
      return HandedOff;
    }

    method HandleACPStall(id: string, t: Tick) returns (outcome: Outcome)
      modifies this
      ensures (EntryOf(id), outcome) == StallTick(old(EntryOf(id)), t) && OthersKept(id)
    {
      if id !in nudgeSent {
        if t.send == TurnActive {
          return Deferred;
        }
        nudgeSent := nudgeSent[id := t.recordedAt];
        return Nudged;
      }
      if t.now - nudgeSent[id] < NUDGE_TIMEOUT {
        return Waited;
      }
      ClearNudge(id);
      return HandedOff;
    }

    /** reconcileACP: the agent's entry follows Reconcile and no other agent's changes. */
    method ReconcileACP(id: string, t: Tick) returns (outcome: Outcome)
      modifies this
      ensures (EntryOf(id), outcome) == Reconcile(timeout, old(EntryOf(id)), t) && OthersKept(id)
    {
      hide EndedTick, StallTick;
      var eventFresh := EventFresh(t.state, t.now, timeout);
      if t.state.lastStopReason == "cancelled" && A.EndedWithoutSignal(t.state) {
        ClearNudge(id);
        outcome := Cancelled;
      } else if !t.alive && !t.heartbeatFresh && !eventFresh {
        ClearNudge(id);
        outcome := Gone;
      } else if !t.alive {
        outcome := Grace;
      } else if t.state.contextLimitError {
        ClearNudge(id);
        outcome := ContextHandoff;
      } else if A.EndedWithoutSignal(t.state) {
        outcome := HandleACPEndedWithoutSignal(id, t);
      } else if t.heartbeatFresh || eventFresh {
        outcome := Waited;
      } else {
        outcome := HandleACPStall(id, t);
      }
    }
  }
}
