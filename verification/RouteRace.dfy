/** Several RouteStep calls on one task row at once: each reads the row and later writes it,
    and these reads and writes interleave freely with each other and with dispatches. */
module RouteRace {
  import opened Options
  import opened Workflow

  /** How often the task entered each step, counted by the writes themselves. */
  type Counts = map<Name, nat>

  function Count(counts: Counts, n: Name): nat {
    if n in counts then counts[n] else 0
  }

  /** What a call read, with the history at that moment: the true counts and the number of
      advances written so far. */
  datatype Snapshot = Snapshot(row: Row, entered: Counts, advances: nat)

  /** A call in flight: what it was asked to route, and what it read, once it has. */
  datatype Call = Call(step: Name, success: bool, oscillates: bool, seen: Option<Snapshot>, done: bool)

  datatype Race = Race(row: Row, calls: map<nat, Call>, entered: Counts, advances: nat)

  datatype Event =
    | Begin(id: nat, step: Name, success: bool, oscillates: bool)
    | Read(id: nat)
    | WriteBack(id: nat)
    | Dispatched

  function DecisionOf(t: Template, c: Call): Decision
    requires c.seen.Some?
  {
    Decide(t, c.seen.value.row, c.step, c.success, c.oscillates)
  }

  /** The guarded update of the step hits. */
  predicate Advances(row: Row, step: Name, d: Decision) {
    d.Advance? && row.status == Running && row.step == step
  }

  function Next(t: Template, s: Race, e: Event): Option<Race> {
    match e
    case Begin(id, step, success, oscillates) =>
      if id in s.calls then None
      else Some(s.(calls := s.calls[id := Call(step, success, oscillates, None, false)]))
    case Read(id) =>
      if id in s.calls && s.calls[id].seen.None?
      then Some(s.(calls := s.calls[id := s.calls[id].(seen := Some(Snapshot(s.row, s.entered, s.advances)))]))
      else None
    case WriteBack(id) =>
      if id in s.calls && s.calls[id].seen.Some? && !s.calls[id].done then
        var c := s.calls[id];
        var d := DecisionOf(t, c);
        var s' := s.(row := Workflow.Write(s.row, c.step, d), calls := s.calls[id := c.(done := true)]);
        Some(if Advances(s.row, c.step, d)
             then s'.(entered := s.entered[d.next := Count(s.entered, d.next) + 1], advances := s.advances + 1) else s')
      else None
    case Dispatched =>
      if s.row.status == Pending then Some(s.(row := Dispatch(t, s.row))) else None
  }

  ghost predicate IsRace(t: Template, states: seq<Race>, events: seq<Event>) {
    && |states| == |events| + 1
    && (forall id | id in states[0].calls :: states[0].calls[id].seen.None?)
    && forall i | 0 <= i < |events| :: Next(t, states[i], events[i]) == Some(states[i + 1])
  }

  // ---- Between two dispatches --------------------------------------------------------------------

  /** The events between two dispatches; no call has yet read the row when it begins. */
  ghost predicate IsEpoch(t: Template, states: seq<Race>, events: seq<Event>) {
    IsRace(t, states, events) && states[0].row.status == Running && forall i | 0 <= i < |events| :: events[i] != Dispatched
  }

  /** Until the row changes every snapshot equals it; after the change it is not running. */
  ghost predicate Settled(first: Row, s: Race) {
    if s.row == first
    then forall id | id in s.calls && s.calls[id].seen.Some? :: s.calls[id].seen.value.row == first
    else s.row.status != Running
  }

  lemma SettledStep(t: Template, first: Row, s: Race, e: Event)
    requires first.status == Running && Settled(first, s) && e != Dispatched && Next(t, s, e).Some?
    ensures Settled(first, Next(t, s, e).value)
  {}

  lemma {:induction false} SettledInEpoch(t: Template, states: seq<Race>, events: seq<Event>, i: nat)
    requires IsEpoch(t, states, events) && i < |states|
    ensures Settled(states[0].row, states[i])
  {
    if i > 0 {
      var j := i - 1;
      SettledInEpoch(t, states, events, j);
      assert Next(t, states[j], events[j]) == Some(states[j + 1]);
      SettledStep(t, states[0].row, states[j], events[j]);
    }
  }

  /** Event i changed the row, and did exactly what one uninterrupted RouteStep on the
      dispatched row does. */
  ghost predicate RoutesAtomically(t: Template, states: seq<Race>, events: seq<Event>, i: nat)
    requires |states| == |events| + 1
  {
    && i < |events| && events[i].WriteBack? && events[i].id in states[i].calls
    && states[i].row == states[0].row != states[i + 1].row
    && var c := states[i].calls[events[i].id];
       states[i + 1].row == Route(t, states[0].row, c.step, c.success, c.oscillates)
  }

  lemma ChangeIsAtomic(t: Template, states: seq<Race>, events: seq<Event>, i: nat)
    requires IsEpoch(t, states, events) && i < |events| && states[i + 1].row != states[i].row
    ensures RoutesAtomically(t, states, events, i)
  {
    SettledInEpoch(t, states, events, i);
    assert Next(t, states[i], events[i]) == Some(states[i + 1]);
  }

  lemma {:induction false} NothingAfterChange(t: Template, states: seq<Race>, events: seq<Event>, i: nat, j: nat)
    requires IsEpoch(t, states, events) && i < j <= |events| && states[i + 1].row != states[i].row
    ensures states[j].row == states[i + 1].row
  {
    if i + 1 < j {
      var m := j - 1;
      NothingAfterChange(t, states, events, i, m);
      ChangeIsAtomic(t, states, events, i);
      SettledInEpoch(t, states, events, m);
      assert Next(t, states[m], events[m]) == Some(states[m + 1]);
    }
  }

  /** However the calls of an epoch interleave, the row at its end is the dispatched row or the
      result of exactly one of them run alone; every other call changes nothing. */
  lemma {:induction false} OneRoutePerDispatch(t: Template, states: seq<Race>, events: seq<Event>, n: nat)
    requires IsEpoch(t, states, events) && n < |states|
    ensures states[n].row == states[0].row
            || exists i: nat :: i < n && RoutesAtomically(t, states, events, i) && states[n].row == states[i + 1].row
    ensures forall i: nat, j: nat | i < n && j < n
              && RoutesAtomically(t, states, events, i) && RoutesAtomically(t, states, events, j) :: i == j
  {
    hide Next, Route;
    if n > 0 && states[n].row != states[0].row {
      OneRoutePerDispatch(t, states, events, n - 1);
      if states[n - 1].row == states[0].row {
        var m: nat := n - 1;
        ChangeIsAtomic(t, states, events, m);
        assert RoutesAtomically(t, states, events, m) && states[n].row == states[m + 1].row;
      } else {
        var i: nat :| i < n - 1 && RoutesAtomically(t, states, events, i) && states[n - 1].row == states[i + 1].row;
        NothingAfterChange(t, states, events, i, n);
      }
    }
    forall i: nat, j: nat | i < j < n && RoutesAtomically(t, states, events, i) && RoutesAtomically(t, states, events, j)
      ensures false
    {
      NothingAfterChange(t, states, events, i, j);
    }
  }

  /** An advance raises the count of the step it enters by one and no other, and a failure
      route never takes a budgeted step past its limit. */
  lemma AdvanceCountsOnce(t: Template, row: Row, step: Name, success: bool, oscillates: bool)
    requires row.status == Running && Route(t, row, step, success, oscillates).status == Pending
    ensures var row' := Route(t, row, step, success, oscillates); var next := row'.step;
            && step in t.steps && next == Destination(t.steps[step], success) && next != COMPLETE
            && (forall n :: Attempts(row', n) == Attempts(row, n) + if n == next then 1 else 0)
            && (!success && next in t.steps && t.steps[next].maxRetries > 0 ==>
                  Attempts(row', next) <= t.steps[next].maxRetries)
  {}

  // ---- Across dispatches: when the counts are right ------------------------------------------------

  /** The row's attempts are the true counts. */
  ghost predicate Faithful(s: Race) {
    forall n :: Attempts(s.row, n) == Count(s.entered, n)
  }

  /** The counts only grow, and strictly with each advance. */
  ghost predicate GrownSince(c: Call, s: Race) {
    c.seen.Some? ==>
      && c.seen.value.advances <= s.advances
      && (forall n :: Count(c.seen.value.entered, n) <= Count(s.entered, n))
      && (c.seen.value.advances == s.advances ==> forall n :: Count(c.seen.value.entered, n) == Count(s.entered, n))
      && (c.seen.value.advances < s.advances ==> exists n :: Count(c.seen.value.entered, n) < Count(s.entered, n))
  }

  ghost predicate SeenFaithfully(c: Call) {
    c.seen.Some? ==> forall n :: Attempts(c.seen.value.row, n) == Count(c.seen.value.entered, n)
  }

  ghost predicate AllGrown(s: Race) {
    forall id | id in s.calls :: GrownSince(s.calls[id], s)
  }

  lemma CallGrows(c: Call, s: Race, s': Race, next: Name)
    requires GrownSince(c, s) && s'.advances == s.advances + 1
    requires s'.entered == s.entered[next := Count(s.entered, next) + 1]
    ensures GrownSince(c, s')
  {
    if c.seen.Some? {
      assert Count(c.seen.value.entered, next) < Count(s'.entered, next);
    }
  }

  lemma UnreadGrows(c: Call, s: Race)
    requires c.seen.None? || c.seen == Some(Snapshot(s.row, s.entered, s.advances))
    ensures GrownSince(c, s)
  {}

  lemma SameCountsGrow(c: Call, c': Call, s: Race, s': Race)
    requires GrownSince(c, s) && c'.seen == c.seen && s'.entered == s.entered && s'.advances == s.advances
    ensures GrownSince(c', s')
  {}

  lemma AllGrownStep(t: Template, s: Race, e: Event)
    requires AllGrown(s) && Next(t, s, e).Some?
    ensures AllGrown(Next(t, s, e).value)
  {
    hide GrownSince, Count, DecisionOf;
    var s' := Next(t, s, e).value;
    forall id | id in s'.calls ensures GrownSince(s'.calls[id], s') {
      if id !in s.calls || s'.calls[id].seen != s.calls[id].seen {
        UnreadGrows(s'.calls[id], s');
      } else if s'.advances != s.advances {
        CallGrows(s.calls[id], s, s', DecisionOf(t, s.calls[e.id]).next);
        SameCountsGrow(s.calls[id], s'.calls[id], s', s');
      } else {
        SameCountsGrow(s.calls[id], s'.calls[id], s, s');
      }
    }
  }

  lemma {:induction false} AllGrownInRace(t: Template, states: seq<Race>, events: seq<Event>, i: nat)
    requires IsRace(t, states, events) && i < |states|
    ensures AllGrown(states[i])
  {
    hide Next;
    if i > 0 {
      AllGrownInRace(t, states, events, i - 1);
      assert Next(t, states[i - 1], events[i - 1]) == Some(states[i - 1 + 1]);
      AllGrownStep(t, states[i - 1], events[i - 1]);
    }
  }

  /** Event i is a write that advances the row. */
  ghost predicate AdvanceAt(t: Template, states: seq<Race>, events: seq<Event>, i: nat)
    requires |states| == |events| + 1
  {
    && i < |events| && events[i].WriteBack? && events[i].id in states[i].calls && states[i].calls[events[i].id].seen.Some?
    && var c := states[i].calls[events[i].id]; Advances(states[i].row, c.step, DecisionOf(t, c))
  }

  /** An advance has been written between the call's read and now. */
  predicate Overtaken(c: Call, s: Race) {
    c.seen.Some? && c.seen.value.advances != s.advances
  }

  /** A write that advances the row, of a call that read true counts, leaves true counts iff no
      other advance was written between its read and its write. */
  lemma LateAdvanceExact(t: Template, states: seq<Race>, events: seq<Event>, i: nat)
    requires IsRace(t, states, events) && AdvanceAt(t, states, events, i)
    requires SeenFaithfully(states[i].calls[events[i].id])
    ensures Faithful(states[i + 1]) <==> !Overtaken(states[i].calls[events[i].id], states[i])
  {
    AllGrownInRace(t, states, events, i);
    assert Next(t, states[i], events[i]) == Some(states[i + 1]);
    var s, s', c := states[i], states[i + 1], states[i].calls[events[i].id];
    assert GrownSince(c, s);
    var next := DecisionOf(t, c).next;
    assert forall n :: Attempts(s'.row, n) == Attempts(c.seen.value.row, n) + if n == next then 1 else 0;
    assert forall n :: Count(s'.entered, n) == Count(s.entered, n) + if n == next then 1 else 0;
    if Overtaken(c, s) {
      var n :| Count(c.seen.value.entered, n) < Count(s.entered, n);
      assert Attempts(s'.row, n) != Count(s'.entered, n);
    }
  }

  lemma OtherEventsKeepCounts(t: Template, s: Race, e: Event)
    requires Next(t, s, e).Some?
    requires !(e.WriteBack? && e.id in s.calls && s.calls[e.id].seen.Some?
               && Advances(s.row, s.calls[e.id].step, DecisionOf(t, s.calls[e.id])))
    ensures Faithful(s) <==> Faithful(Next(t, s, e).value)
  {
    var s' := Next(t, s, e).value;
    assert s'.row.attempts == s.row.attempts && s'.entered == s.entered;
  }

  lemma SeenStep(t: Template, s: Race, e: Event)
    requires Next(t, s, e).Some? && Faithful(s) && forall id | id in s.calls :: SeenFaithfully(s.calls[id])
    ensures forall id | id in Next(t, s, e).value.calls :: SeenFaithfully(Next(t, s, e).value.calls[id])
  {
    var s' := Next(t, s, e).value;
    forall id | id in s'.calls ensures SeenFaithfully(s'.calls[id]) {
      assert id in s.calls ==> SeenFaithfully(s.calls[id]);
    }
  }

  lemma {:induction false} SeenWhileFaithful(t: Template, states: seq<Race>, events: seq<Event>, n: nat)
    requires IsRace(t, states, events) && n < |states| && forall i | 0 <= i < n :: Faithful(states[i])
    ensures forall id | id in states[n].calls :: SeenFaithfully(states[n].calls[id])
  {
    hide Next, Faithful, SeenFaithfully;
    if n == 0 {
      forall id | id in states[0].calls ensures SeenFaithfully(states[0].calls[id]) {
        Unseen(states[0].calls[id]);
      }
    } else {
      SeenWhileFaithful(t, states, events, n - 1);
      assert Next(t, states[n - 1], events[n - 1]) == Some(states[n - 1 + 1]);
      SeenStep(t, states[n - 1], events[n - 1]);
    }
  }

  lemma Unseen(c: Call)
    requires c.seen.None?
    ensures SeenFaithfully(c)
  {}

  /** No advance so far was overtaken by another between its read and its write. */
  ghost predicate NoneOvertaken(t: Template, states: seq<Race>, events: seq<Event>, n: nat)
    requires |states| == |events| + 1 && n <= |events|
  {
    forall i: nat | i < n && AdvanceAt(t, states, events, i) :: !Overtaken(states[i].calls[events[i].id], states[i])
  }

  /** Whatever the interleaving of calls and dispatches: the attempts are right in every state
      up to n iff no advance was overtaken by another one between its read and its write. */
  lemma {:induction false} CountsExactly(t: Template, states: seq<Race>, events: seq<Event>, n: nat)
    requires IsRace(t, states, events) && Faithful(states[0]) && n < |states|
    ensures (forall i | 0 <= i <= n :: Faithful(states[i])) <==> NoneOvertaken(t, states, events, n)
  {
    hide Next, Faithful, SeenFaithfully, Overtaken, DecisionOf;
    if n > 0 {
      var m: nat := n - 1;
      CountsExactly(t, states, events, m);
      if NoneOvertaken(t, states, events, m) {
        SeenWhileFaithful(t, states, events, m);
        assert Next(t, states[m], events[m]) == Some(states[m + 1]);
        if AdvanceAt(t, states, events, m) {
          LateAdvanceExact(t, states, events, m);
        } else {
          OtherEventsKeepCounts(t, states[m], events[m]);
        }
      }
    }
  }

  // ---- Across dispatches: writes without a step guard -----------------------------------------------

  /** What a write does to a running row: an advance needs the row to be at the call's step
      still, but completing, failing and blocking end whatever step the row has reached. */
  lemma WriteHitsExactly(t: Template, s: Race, id: nat)
    requires Next(t, s, WriteBack(id)).Some? && s.row.status == Running && s.calls[id].step in t.steps
    ensures var c := s.calls[id]; var d := DecisionOf(t, c); var s' := Next(t, s, WriteBack(id)).value;
            && (s'.row.status != Running <==> !d.Advance? || s.row.step == c.step)
            && (s'.row.status in {Done, Failed, Blocked} <==> !d.Advance?)
            && (!d.Advance? ==> s'.row.step == s.row.step && s'.row.attempts == s.row.attempts)
  {}

  /** The step the task is at, or, before its first dispatch, the one it will enter. */
  function StepOf(t: Template, row: Row): Name {
    if row.status == Pending && row.step == "" then t.entry else row.step
  }

  ghost predicate NoAdvance(t: Template, states: seq<Race>, events: seq<Event>, r: nat, i: nat)
    requires |states| == |events| + 1
  {
    forall m: nat | r <= m < i :: !AdvanceAt(t, states, events, m)
  }

  /** The last advance from event r until before event i entered step n. */
  ghost predicate LastAdvanceTo(t: Template, states: seq<Race>, events: seq<Event>, r: nat, i: nat, n: Name)
    requires |states| == |events| + 1
  {
    exists m: nat :: r <= m < i && NoAdvance(t, states, events, m + 1, i) && AdvanceTo(t, states, events, m, n)
  }

  ghost predicate AdvanceTo(t: Template, states: seq<Race>, events: seq<Event>, m: nat, n: Name)
    requires |states| == |events| + 1
  {
    AdvanceAt(t, states, events, m) && DecisionOf(t, states[m].calls[events[m].id]).next == n
  }

  /** From r to i the task has been brought to step n. */
  ghost predicate BroughtTo(t: Template, states: seq<Race>, events: seq<Event>, r: nat, i: nat, n: Name)
    requires |states| == |events| + 1 && r < |states|
  {
    if NoAdvance(t, states, events, r, i) then StepOf(t, states[r].row) == n else LastAdvanceTo(t, states, events, r, i, n)
  }

  lemma AdvanceMoves(t: Template, states: seq<Race>, events: seq<Event>, m: nat)
    requires IsRace(t, states, events) && m < |events| && t.entry != ""
    ensures AdvanceAt(t, states, events, m) ==> forall n :: AdvanceTo(t, states, events, m, n) <==> StepOf(t, states[m + 1].row) == n
    ensures !AdvanceAt(t, states, events, m) ==> StepOf(t, states[m + 1].row) == StepOf(t, states[m].row)
  {
    assert Next(t, states[m], events[m]) == Some(states[m + 1]);
  }

  lemma BroughtOn(t: Template, states: seq<Race>, events: seq<Event>, r: nat, m: nat, n: Name)
    requires |states| == |events| + 1 && r <= m < |events|
    ensures !AdvanceAt(t, states, events, m) ==> (BroughtTo(t, states, events, r, m + 1, n) <==> BroughtTo(t, states, events, r, m, n))
    ensures AdvanceAt(t, states, events, m) ==> (BroughtTo(t, states, events, r, m + 1, n) <==> AdvanceTo(t, states, events, m, n))
  {
    hide AdvanceAt, DecisionOf;
    if AdvanceAt(t, states, events, m) {
      assert NoAdvance(t, states, events, m + 1, m + 1);
    } else {
      forall j: nat | j <= m ensures NoAdvance(t, states, events, j, m + 1) <==> NoAdvance(t, states, events, j, m) {
        NoAdvanceOn(t, states, events, j, m);
      }
    }
  }

  lemma NoAdvanceOn(t: Template, states: seq<Race>, events: seq<Event>, j: nat, m: nat)
    requires |states| == |events| + 1 && j <= m < |events| && !AdvanceAt(t, states, events, m)
    ensures NoAdvance(t, states, events, j, m + 1) <==> NoAdvance(t, states, events, j, m)
  {}

  lemma {:induction false} StepSince(t: Template, states: seq<Race>, events: seq<Event>, r: nat, i: nat)
    requires IsRace(t, states, events) && r <= i < |states| && t.entry != ""
    ensures forall n :: StepOf(t, states[i].row) == n <==> BroughtTo(t, states, events, r, i, n)
  {
    hide Next, AdvanceAt, AdvanceTo, BroughtTo, StepOf;
    if r == i {
      AtOnce(t, states, events, r);
    } else {
      var m: nat := i - 1;
      StepSince(t, states, events, r, m);
      AdvanceMoves(t, states, events, m);
      forall n ensures StepOf(t, states[i].row) == n <==> BroughtTo(t, states, events, r, i, n) {
        BroughtOn(t, states, events, r, m, n);
      }
    }
  }

  lemma AtOnce(t: Template, states: seq<Race>, events: seq<Event>, r: nat)
    requires |states| == |events| + 1 && r < |states|
    ensures forall n :: BroughtTo(t, states, events, r, r, n) <==> StepOf(t, states[r].row) == n
  {}

  /** Event i writes the outcome of the call that read the row at event r. */
  ghost predicate LateWrite(t: Template, states: seq<Race>, events: seq<Event>, r: nat, i: nat)
    requires |states| == |events| + 1
  {
    r < i < |events| && events[i].WriteBack? && events[r] == Read(events[i].id) && states[i].row.status == Running
  }

  /** A call that completes, fails or blocks a running task ends it, and it ends the step that
      the call was made for iff that step was the row's at the read and no advance came between
      read and write, or the last one that did had brought the task back to it. */
  lemma EndsItsStepExactly(t: Template, states: seq<Race>, events: seq<Event>, r: nat, i: nat)
    requires IsRace(t, states, events) && LateWrite(t, states, events, r, i) && t.entry != ""
    ensures events[i].id in states[i].calls && states[i].calls[events[i].id].seen.Some?
    ensures var c := states[i].calls[events[i].id]; var d := DecisionOf(t, c); var row := states[i + 1].row;
            d.Complete? || d.Fail? || d.Block? ==>
              && row.status in {Done, Failed, Blocked}
              && (row.step == c.step <==> BroughtTo(t, states, events, r, i, c.step))
  {
    hide BroughtTo, Decide;
    assert Next(t, states[i], events[i]) == Some(states[i + 1]);
    StepSince(t, states, events, r, i);
  }

  const LOOP := Template("t", "a", map["a" := Step(Agent, "", 0, COMPLETE, "b"), "b" := Step(Agent, "", 0, COMPLETE, "a")])
  const AT_A := Row(Running, "a", map[])
  const AT_B := Row(Running, "b", map["b" := 1])
  const SEEN := Some(Snapshot(AT_A, map[], 0))
  const GOOD := Call("a", true, false, None, false)
  const BAD := Call("a", false, false, None, false)

  lemma LoopDecisions()
    ensures Validate(LOOP)
    ensures Decide(LOOP, AT_A, "a", false, false) == Advance("b", map["b" := 1])
    ensures Decide(LOOP, AT_A, "a", true, false) == Complete
  {
    assert "a"[0] != "b"[0];
  }

  lemma ReadIsNext(s: Race, id: nat, c: Call)
    requires id in s.calls && s.calls[id] == c && c.seen.None? && s.row == AT_A && s.entered == map[] && s.advances == 0
    ensures Next(LOOP, s, Read(id)) == Some(s.(calls := s.calls[id := c.(seen := SEEN)]))
  {}

  lemma FailureIsNext(calls: map<nat, Call>)
    requires 1 in calls && calls[1] == BAD.(seen := SEEN)
    ensures Next(LOOP, Race(AT_A, calls, map[], 0), WriteBack(1))
         == Some(Race(AT_B.(status := Pending), calls[1 := BAD.(seen := SEEN, done := true)], map["b" := 1], 1))
  {
    LoopDecisions();
    hide Decide, Validate;
    assert Count(map[], "b") == 0;
  }

  lemma DispatchIsNext(calls: map<nat, Call>)
    ensures Next(LOOP, Race(AT_B.(status := Pending), calls, map["b" := 1], 1), Dispatched)
         == Some(Race(AT_B, calls, map["b" := 1], 1))
  {}

  lemma SuccessIsNext(calls: map<nat, Call>)
    requires 0 in calls && calls[0] == GOOD.(seen := SEEN)
    ensures Next(LOOP, Race(AT_B, calls, map["b" := 1], 1), WriteBack(0))
         == Some(Race(AT_B.(status := Done), calls[0 := GOOD.(seen := SEEN, done := true)], map["b" := 1], 1))
  {
    LoopDecisions();
    hide Decide, Validate;
  }

  /** So a call that read the row at one step can end the task at another: a duplicate success
      signal of step a completes the task while step b, entered by its failure, is running. */
  lemma StaleCompleteEndsLaterStep() returns (states: seq<Race>, events: seq<Event>)
    ensures Validate(LOOP) && IsRace(LOOP, states, events) && |events| == 5
    ensures states[0].row == AT_A && states[4].row == AT_B && 0 in states[4].calls && states[4].calls[0].step == "a"
    ensures events[4] == WriteBack(0) && states[5].row == AT_B.(status := Done)
  {
    var calls := map[0 := GOOD, 1 := BAD];
    var both := calls[0 := GOOD.(seen := SEEN)][1 := BAD.(seen := SEEN)];
    var written := both[1 := BAD.(seen := SEEN, done := true)];
    var s0 := Race(AT_A, calls, map[], 0);
    var s1 := Race(AT_A, calls[0 := GOOD.(seen := SEEN)], map[], 0);
    ReadIsNext(s0, 0, GOOD);
    ReadIsNext(s1, 1, BAD);
    FailureIsNext(both);
    DispatchIsNext(written);
    SuccessIsNext(written);
    LoopDecisions();
    hide Next, Validate;
    states := [s0, s1, Race(AT_A, both, map[], 0), Race(AT_B.(status := Pending), written, map["b" := 1], 1),
               Race(AT_B, written, map["b" := 1], 1),
               Race(AT_B.(status := Done), written[0 := GOOD.(seen := SEEN, done := true)], map["b" := 1], 1)];
    events := [Read(0), Read(1), WriteBack(1), Dispatched, WriteBack(0)];
  }

  /** A late advance does lose a count: a failure loop routed by a call that read the row one
      dispatch too early stays at one attempt, so its budget of two is never spent. */
  lemma StaleReadLosesAttempt() returns (t: Template, before: Row, now: Row)
    ensures Validate(t) && "work" in t.steps && t.steps["work"].maxRetries == 2
    ensures now == Dispatch(t, Route(t, before, "work", false, false)) && Attempts(now, "work") == 1
    ensures Workflow.Write(now, "work", Decide(t, before, "work", false, false)) == Row(Pending, "work", now.attempts)
  {
    t := Template("loop", "work", map["work" := Step(Agent, "", 2, COMPLETE, "work")]);
    before := Row(Running, "work", map[]);
    now := Row(Running, "work", map["work" := 1]);
    assert Decide(t, before, "work", false, false) == Advance("work", map["work" := 1]);
  }
}
