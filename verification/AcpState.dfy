/** What the reconciler reads from an ACP agent's event log: the newest-N query, the fold over
    the events it returns, and what that fold means for the log it did not see. */
module AcpState {
  /** The facts the fold takes from one payload; Garbled when it is not JSON. */
  datatype Body =
    | Garbled
    | Message(contextLimit: bool, stopReason: string, started: bool, completed: bool, permission: bool, tool: bool)

  /** An agent_events row; `at` is 0 for a timestamp that does not parse. */
  datatype AgentEvent = AgentEvent(agent: string, task: string, number: int, at: nat, body: Body)

  datatype State = State(
    lastEventAt: nat,
    lastStopReason: string,
    inTurn: bool,
    hadTurn: bool,
    permissionPending: bool,
    toolActivity: bool,
    contextLimitError: bool,
    errorTurnCount: nat)

  const ZERO := State(0, "", false, false, false, false, false, 0)

  predicate EndedWithoutSignal(s: State) {
    s.hadTurn && !s.inTurn
  }

  // ---- The declarative reading of a log -------------------------------------------------

  predicate Starts(e: AgentEvent) { e.body.Message? && e.body.started }

  predicate Stops(e: AgentEvent) { e.body.Message? && e.body.stopReason != "" }

  predicate Ends(e: AgentEvent) { e.body.Message? && (e.body.stopReason != "" || e.body.completed) }

  predicate TurnEvent(e: AgentEvent) { Starts(e) || Ends(e) }

  predicate Tool(e: AgentEvent) { e.body.Message? && e.body.tool }

  predicate Permission(e: AgentEvent) { e.body.Message? && e.body.permission }

  predicate ContextLimit(e: AgentEvent) { e.body.Message? && e.body.contextLimit }

  predicate ErrorStop(e: AgentEvent) { e.body.Message? && e.body.stopReason == "error" }

  ghost predicate Some(events: seq<AgentEvent>, p: AgentEvent -> bool) {
    exists i | 0 <= i < |events| :: p(events[i])
  }

  /** Event i is the last one with property p. */
  ghost predicate LastAt(events: seq<AgentEvent>, p: AgentEvent -> bool, i: int) {
    0 <= i < |events| && p(events[i]) && forall k | i < k < |events| :: !p(events[k])
  }

  /** Event i has property p and no turn started after it. */
  ghost predicate SinceStart(events: seq<AgentEvent>, p: AgentEvent -> bool, i: int) {
    0 <= i < |events| && p(events[i]) && forall k | i < k < |events| :: !Starts(events[k])
  }

  /** The last turn event starts a turn and does not end it. */
  ghost predicate OpenTurn(events: seq<AgentEvent>) {
    exists i :: LastAt(events, TurnEvent, i) && !Ends(events[i])
  }

  function Count(events: seq<AgentEvent>, p: AgentEvent -> bool): nat {
    if events == [] then 0
    else Count(events[..|events| - 1], p) + (if p(events[|events| - 1]) then 1 else 0)
  }

  ghost predicate IsNewest(events: seq<AgentEvent>, at: nat) {
    (forall e | e in events :: e.at <= at) && (at == 0 || exists e | e in events :: e.at == at)
  }

  ghost predicate IsLastStopReason(events: seq<AgentEvent>, reason: string) {
    if reason == "" then !Some(events, Stops)
    else exists i :: LastAt(events, Stops, i) && events[i].body.stopReason == reason
  }

  ghost predicate Reads(events: seq<AgentEvent>, s: State) {
    && IsNewest(events, s.lastEventAt)
    && IsLastStopReason(events, s.lastStopReason)
    && (s.inTurn <==> OpenTurn(events))
    && (s.hadTurn <==> Some(events, Ends))
    && (s.permissionPending <==> exists i :: SinceStart(events, Permission, i))
    && (s.toolActivity <==> exists i :: SinceStart(events, Tool, i))
    && (s.contextLimitError <==> Some(events, ContextLimit))
    && s.errorTurnCount == Count(events, ErrorStop)
  }

  // ---- The fold -------------------------------------------------------------------------

  lemma SomeGrows(events: seq<AgentEvent>, e: AgentEvent, p: AgentEvent -> bool)
    ensures Some(events + [e], p) <==> p(e) || Some(events, p)
  {
    var all := events + [e];
    if p(e) {
      assert p(all[|events|]);
    } else if Some(events, p) {
      var i :| 0 <= i < |events| && p(events[i]);
      assert p(all[i]);
    }
  }

  lemma LastGrows(events: seq<AgentEvent>, e: AgentEvent, p: AgentEvent -> bool, i: int)
    ensures LastAt(events + [e], p, i) <==> if p(e) then i == |events| else LastAt(events, p, i)
  {
    var all := events + [e];
    assert all[|events|] == e;
    assert forall k | 0 <= k < |events| :: all[k] == events[k];
  }

  lemma SinceStartGrows(events: seq<AgentEvent>, e: AgentEvent, p: AgentEvent -> bool)
    ensures (exists i :: SinceStart(events + [e], p, i)) <==> p(e) || (!Starts(e) && exists i :: SinceStart(events, p, i))
  {
    var all := events + [e];
    assert all[|events|] == e;
    assert forall k | 0 <= k < |events| :: all[k] == events[k];
    if p(e) {
      assert SinceStart(all, p, |events|);
    } else if !Starts(e) && exists i :: SinceStart(events, p, i) {
      var i :| SinceStart(events, p, i);
      assert SinceStart(all, p, i);
    } else if exists i :: SinceStart(all, p, i) {
      var i :| SinceStart(all, p, i);
      assert i < |events| && SinceStart(events, p, i);
    }
  }

  lemma OpenTurnGrows(events: seq<AgentEvent>, e: AgentEvent)
    ensures OpenTurn(events + [e]) <==> if TurnEvent(e) then !Ends(e) else OpenTurn(events)
  {
    var all := events + [e];
    if TurnEvent(e) {
      LastGrows(events, e, TurnEvent, |events|);
      forall i ensures LastAt(all, TurnEvent, i) <==> i == |events| {
        LastGrows(events, e, TurnEvent, i);
      }
    } else {
      forall i ensures LastAt(all, TurnEvent, i) <==> LastAt(events, TurnEvent, i) {
        LastGrows(events, e, TurnEvent, i);
      }
    }
  }

  lemma StopReasonGrows(events: seq<AgentEvent>, e: AgentEvent, reason: string)
    requires IsLastStopReason(events, reason)
    ensures IsLastStopReason(events + [e], if Stops(e) then e.body.stopReason else reason)
  {
    SomeGrows(events, e, Stops);
    if Stops(e) {
      LastGrows(events, e, Stops, |events|);
    } else if reason != "" {
      var i :| LastAt(events, Stops, i) && events[i].body.stopReason == reason;
      LastGrows(events, e, Stops, i);
    }
  }

  lemma NewestGrows(events: seq<AgentEvent>, e: AgentEvent, at: nat)
    requires IsNewest(events, at)
    ensures IsNewest(events + [e], if e.at > at then e.at else at)
  {
    var all := events + [e];
    assert all[|events|] == e;
    if e.at <= at && at != 0 {
      var o :| o in events && o.at == at;
      assert o in all;
    }
  }

  /** The body of the loop: starts are applied before ends, tool use and permission after both. */
  function Observe(s: State, e: AgentEvent): State {
    var s0 := s.(lastEventAt := if e.at > s.lastEventAt then e.at else s.lastEventAt);
    match e.body
    case Garbled => s0
    case Message(contextLimit, stopReason, started, completed, permission, tool) =>
      var ended := stopReason != "" || completed;
      s0.(contextLimitError := s.contextLimitError || contextLimit,
          lastStopReason := if stopReason != "" then stopReason else s.lastStopReason,
          errorTurnCount := s.errorTurnCount + (if stopReason == "error" then 1 else 0),
          inTurn := (s.inTurn || started) && !ended,
          hadTurn := s.hadTurn || ended,
          permissionPending := permission || (s.permissionPending && !started),
          toolActivity := tool || (s.toolActivity && !started))
  }

  lemma TurnsGrow(events: seq<AgentEvent>, e: AgentEvent, s: State)
    requires s.inTurn == OpenTurn(events)
    ensures Observe(s, e).inTurn == OpenTurn(events + [e])
  {
    OpenTurnGrows(events, e);
    hide OpenTurn;
  }

  lemma FlagsGrow(events: seq<AgentEvent>, e: AgentEvent, s: State)
    requires Reads(events, s)
    ensures var s', all := Observe(s, e), events + [e];
            && (s'.hadTurn <==> Some(all, Ends)) && (s'.contextLimitError <==> Some(all, ContextLimit))
            && (s'.permissionPending <==> exists i :: SinceStart(all, Permission, i))
            && (s'.toolActivity <==> exists i :: SinceStart(all, Tool, i))
  {
    hide Some, LastAt, SinceStart, OpenTurn, IsNewest, IsLastStopReason, Count;
    SomeGrows(events, e, Ends);
    SomeGrows(events, e, ContextLimit);
    SinceStartGrows(events, e, Permission);
    SinceStartGrows(events, e, Tool);
  }

  lemma ReadsGrows(events: seq<AgentEvent>, e: AgentEvent, s: State)
    requires Reads(events, s)
    ensures Reads(events + [e], Observe(s, e))
  {
    hide Some, LastAt, SinceStart, OpenTurn, IsNewest, IsLastStopReason;
    NewestGrows(events, e, s.lastEventAt);
    StopReasonGrows(events, e, s.lastStopReason);
    TurnsGrow(events, e, s);
    FlagsGrow(events, e, s);
    assert (events + [e])[..|events|] == events;
  }

  lemma ReadsNext(events: seq<AgentEvent>, i: nat, s: State)
    requires i < |events| && Reads(events[..i], s)
    ensures Reads(events[..i + 1], Observe(s, events[i]))
  {
    hide Reads, Observe;
    ReadsGrows(events[..i], events[i], s);
    assert events[..i] + [events[i]] == events[..i + 1];
  }

  lemma ReadsNothing()
    ensures Reads([], ZERO)
  {}

  /** computeACPState: one pass with a mutable record equals the declarative reading. */
  method ComputeACPState(events: seq<AgentEvent>) returns (state: State)
    ensures Reads(events, state)
  {
    hide Reads, Observe;
    ReadsNothing();
    state := ZERO;
    var i := 0;
    while i < |events|
      invariant 0 <= i <= |events|
      invariant Reads(events[..i], state)
    {
      ReadsNext(events, i, state);
      state := ObserveEvent(state, events[i]);
      i := i + 1;
    }
    assert events[..i] == events;
  }

  /** The body of that loop. */
  method ObserveEvent(before: State, ev: AgentEvent) returns (state: State)
    ensures state == Observe(before, ev)
  {
    var State(lastEventAt, lastStopReason, inTurn, hadTurn, permissionPending, toolActivity, contextLimitError, errorTurnCount) := before;
    if ev.at > lastEventAt {
      lastEventAt := ev.at;
    }
    if ev.body.Message? {
      var turnEnded := false;
      if ev.body.contextLimit {
        contextLimitError := true;
      }
      if ev.body.stopReason != "" {
        lastStopReason := ev.body.stopReason;
        turnEnded := true;
        if ev.body.stopReason == "error" {
          errorTurnCount := errorTurnCount + 1;
        }
      }
      if ev.body.completed {
        turnEnded := true;
      }
      if ev.body.started {
        inTurn, permissionPending, toolActivity := true, false, false;
      }
      if turnEnded {
        inTurn, hadTurn := false, true;
      }
      if ev.body.permission {
        permissionPending := true;
      }
      if ev.body.tool {
        toolActivity := true;
      }
    }
    state := State(lastEventAt, lastStopReason, inTurn, hadTurn, permissionPending, toolActivity, contextLimitError, errorTurnCount);
  }

  // ---- The query --------------------------------------------------------------------------

  /** The WHERE clause; an empty filter matches everything. */
  predicate Matches(e: AgentEvent, agent: string, task: string, afterSeq: int) {
    && (agent != "" ==> e.agent == agent)
    && (task != "" ==> e.task == task)
    && (afterSeq > 0 ==> e.number > afterSeq)
  }

  /** The matching rows of the first n, in table order. */
  function Matching(table: seq<AgentEvent>, n: nat, agent: string, task: string, afterSeq: int): seq<AgentEvent>
    requires n <= |table|
  {
    if n == 0 then []
    else Matching(table, n - 1, agent, task, afterSeq)
         + (if Matches(table[n - 1], agent, task, afterSeq) then [table[n - 1]] else [])
  }

  function Newest(events: seq<AgentEvent>, limit: int): seq<AgentEvent> {
    if 0 < limit < |events| then events[|events| - limit..] else events
  }

  predicate Ascending(events: seq<AgentEvent>) {
    forall i, j | 0 <= i < j < |events| :: events[i].number <= events[j].number
  }

  /** A log of the rows: all of them in ascending order of their numbers, whatever order they
      were inserted in. Rows with equal numbers may come in either order. */
  ghost predicate IsLog(log: seq<AgentEvent>, rows: seq<AgentEvent>) {
    Ascending(log) && multiset(log) == multiset(rows)
  }

  /** No two different rows share a number. */
  ghost predicate NumbersIdentify(rows: seq<AgentEvent>) {
    forall x, y | x in rows && y in rows && x.number == y.number :: x == y
  }

  /** If no two different rows share a number, there is only one log. */
  lemma {:induction false} LogIsUnique(rows: seq<AgentEvent>, a: seq<AgentEvent>, b: seq<AgentEvent>)
    requires IsLog(a, rows) && IsLog(b, rows)
    requires NumbersIdentify(rows)
    ensures a == b
  {
    assert NumbersIdentify(a) by {
      assert forall x | x in a :: x in multiset(rows) && x in rows;
    }
    SortedOnce(a, b);
  }

  lemma SameLast(a: seq<AgentEvent>, b: seq<AgentEvent>)
    requires Ascending(a) && Ascending(b) && multiset(a) == multiset(b) && NumbersIdentify(a) && a != [] && b != []
    ensures a[|a| - 1] == b[|b| - 1]
  {
    var x, y := a[|a| - 1], b[|b| - 1];
    assert x in multiset(b) && y in multiset(a);
    assert x in b && y in a;
  }

  lemma DropLast(a: seq<AgentEvent>)
    requires a != [] && Ascending(a)
    ensures multiset(a[..|a| - 1]) == multiset(a) - multiset{a[|a| - 1]} && Ascending(a[..|a| - 1])
    ensures NumbersIdentify(a) ==> NumbersIdentify(a[..|a| - 1])
  {
    assert a == a[..|a| - 1] + [a[|a| - 1]];
  }

  lemma {:induction false} SortedOnce(a: seq<AgentEvent>, b: seq<AgentEvent>)
    requires Ascending(a) && Ascending(b) && multiset(a) == multiset(b) && NumbersIdentify(a)
    ensures a == b
    decreases |a|
  {
    hide Ascending, NumbersIdentify;
    assert |multiset(a)| == |a| && |multiset(b)| == |b|;
    if a != [] {
      var n := |a| - 1;
      SameLast(a, b);
      DropLast(a);
      DropLast(b);
      SortedOnce(a[..n], b[..n]);
      assert a == a[..n] + [a[n]] && b == b[..n] + [b[n]];
    }
  }

  /** No row left over has a larger number than one already taken. */
  ghost predicate Below(left: seq<AgentEvent>, taken: seq<AgentEvent>) {
    forall x, y | x in left && y in taken :: x.number <= y.number
  }

  predicate IsLargest(rows: seq<AgentEvent>, k: int) {
    0 <= k < |rows| && forall x | x in rows :: x.number <= rows[k].number
  }

  lemma {:induction false} LargestExists(rows: seq<AgentEvent>)
    requires rows != []
    ensures exists k :: 0 <= k < |rows| && IsLargest(rows, k)
  {
    var n := |rows| - 1;
    assert rows[n] == rows[|rows| - 1];
    if n == 0 {
      assert IsLargest(rows, 0);
    } else {
      var most := rows[..n];
      LargestExists(most);
      var k :| 0 <= k < |most| && IsLargest(most, k);
      assert forall x | x in rows :: x in most || x == rows[n];
      assert rows[k] == most[k];
      var m := if rows[n].number > rows[k].number then n else k;
      assert IsLargest(rows, m);
    }
  }

  function Without(rows: seq<AgentEvent>, k: nat): (left: seq<AgentEvent>)
    requires k < |rows|
    ensures |left| == |rows| - 1
  {
    rows[..k] + rows[k + 1..]
  }

  lemma TakeLargest(left: seq<AgentEvent>, taken: seq<AgentEvent>, k: nat)
    requires IsLargest(left, k) && Ascending(taken) && Below(left, taken)
    ensures Ascending([left[k]] + taken) && Below(Without(left, k), [left[k]] + taken)
    ensures multiset(Without(left, k)) + multiset([left[k]] + taken) == multiset(left) + multiset(taken)
  {
    var top := [left[k]] + taken;
    assert forall j | 0 < j < |top| :: top[j] in taken;
    assert forall x | x in Without(left, k) :: x in left;
    assert left == left[..k] + ([left[k]] + left[k + 1..]);
  }

  /** The log that ends in the rows taken already. */
  lemma {:induction false} LogEndingIn(left: seq<AgentEvent>, taken: seq<AgentEvent>) returns (log: seq<AgentEvent>)
    requires Ascending(taken) && Below(left, taken)
    ensures Ascending(log) && multiset(log) == multiset(left) + multiset(taken)
    ensures |log| == |left| + |taken| && log[|left|..] == taken
    decreases |left|
  {
    if left == [] {
      log := taken;
    } else {
      LargestExists(left);
      var k :| 0 <= k < |left| && IsLargest(left, k);
      TakeLargest(left, taken, k);
      log := LogEndingIn(Without(left, k), [left[k]] + taken);
      assert log[|left|..] == log[|left| - 1..][1..];
    }
  }

  ghost predicate Mirrors(rows: seq<AgentEvent>, taken: seq<AgentEvent>) {
    |rows| == |taken| && forall i | 0 <= i < |rows| :: rows[i] == taken[|taken| - 1 - i]
  }

  /** Where the cursor stands: rows read, largest first, and rows left. */
  ghost predicate Cursor(all: seq<AgentEvent>, rows: seq<AgentEvent>, left: seq<AgentEvent>, taken: seq<AgentEvent>) {
    && Mirrors(rows, taken) && Ascending(taken) && Below(left, taken)
    && multiset(left) + multiset(taken) == multiset(all)
  }

  lemma CursorStarts(all: seq<AgentEvent>)
    ensures Cursor(all, [], all, [])
  {}

  lemma CursorMoves(all: seq<AgentEvent>, rows: seq<AgentEvent>, left: seq<AgentEvent>, taken: seq<AgentEvent>, k: nat)
    requires Cursor(all, rows, left, taken) && IsLargest(left, k)
    ensures Cursor(all, rows + [left[k]], Without(left, k), [left[k]] + taken)
  {
    hide Ascending, Below, IsLargest, Without;
    TakeLargest(left, taken, k);
  }

  /** The events are the last `limit` of a log of the rows. */
  ghost predicate IsWindow(events: seq<AgentEvent>, rows: seq<AgentEvent>, limit: int) {
    exists log :: IsLog(log, rows) && events == Newest(log, limit)
  }

  lemma CursorStops(all: seq<AgentEvent>, rows: seq<AgentEvent>, left: seq<AgentEvent>, taken: seq<AgentEvent>, limit: int)
    requires Cursor(all, rows, left, taken) && (0 < limit ==> |rows| <= limit) && (left == [] || 0 < limit <= |rows|)
    ensures Mirrors(rows, taken) && IsWindow(taken, all, limit)
  {
    hide Ascending, Below;
    var log := LogEndingIn(left, taken);
    assert IsLog(log, all) && taken == Newest(log, limit);
  }

  /** ORDER BY seq DESC LIMIT: the rows with the largest numbers, largest first. */
  method QueryDescending(table: seq<AgentEvent>, agent: string, task: string, afterSeq: int, limit: int) returns (rows: seq<AgentEvent>)
    ensures exists window :: Mirrors(rows, window) && IsWindow(window, Matching(table, |table|, agent, task, afterSeq), limit)
  {
    hide Matching, IsLargest, Cursor, Without, Mirrors, IsWindow;
    var all := Matching(table, |table|, agent, task, afterSeq);
    rows := [];
    var left := all;
    ghost var taken := [];
    CursorStarts(all);
    while left != [] && !(0 < limit <= |rows|)
      invariant Cursor(all, rows, left, taken) && (0 < limit ==> |rows| <= limit)
      decreases |left|
    {
      LargestExists(left);
      var k :| 0 <= k < |left| && IsLargest(left, k);
      CursorMoves(all, rows, left, taken, k);
      rows, left, taken := rows + [left[k]], Without(left, k), [left[k]] + taken;
    }
    CursorStops(all, rows, left, taken, limit);
  }

  lemma MirroredTwice(rows: seq<AgentEvent>, window: seq<AgentEvent>, events: seq<AgentEvent>)
    requires Mirrors(rows, window) && Mirrors(events, rows)
    ensures events == window
  {}

  lemma WindowAscends(window: seq<AgentEvent>, rows: seq<AgentEvent>, limit: int)
    requires IsWindow(window, rows, limit)
    ensures Ascending(window)
  {}

  /** AgentEventsList: the query's descending rows are reversed in place with two indices. */
  method AgentEventsList(table: seq<AgentEvent>, agent: string, task: string, afterSeq: int, limit: int) returns (events: array<AgentEvent>)
    ensures fresh(events)
    ensures IsWindow(events[..], Matching(table, |table|, agent, task, afterSeq), limit) && Ascending(events[..])
  {
    hide Matching, IsWindow, Mirrors, Ascending;
    var rows := QueryDescending(table, agent, task, afterSeq, limit);
    events := new AgentEvent[|rows|](i requires 0 <= i < |rows| => rows[i]);
    assert events[..] == rows;
    ReverseInPlace(events);
    ghost var all := Matching(table, |table|, agent, task, afterSeq);
    ghost var window :| Mirrors(rows, window) && IsWindow(window, all, limit);
    MirroredTwice(rows, window, events[..]);
    WindowAscends(window, all, limit);
  }

  method ReverseInPlace(events: array<AgentEvent>)
    modifies events
    ensures Mirrors(events[..], old(events[..]))
  {
    hide *;
    ghost var was, n := events[..], events.Length;
    var i, j := 0, events.Length - 1;
    while i < j
      invariant 0 <= i <= j + 1 && i + j == n - 1
      invariant forall k | 0 <= k < n && !(i <= k <= j) :: events[k] == was[n - 1 - k]
      invariant forall k | i <= k <= j :: events[k] == was[k]
    {
      events[i], events[j] := events[j], events[i];
      i, j := i + 1, j - 1;
    }
    assert forall k | 0 <= k < n :: events[..][k] == was[n - 1 - k];
    AreMirrors(events[..], was);
  }

  lemma AreMirrors(rows: seq<AgentEvent>, was: seq<AgentEvent>)
    requires |rows| == |was| && forall k | 0 <= k < |rows| :: rows[k] == was[|was| - 1 - k]
    ensures Mirrors(rows, was)
  {}

  // ---- What the window tells about the log ------------------------------------------------

  lemma {:induction false} LastExists(events: seq<AgentEvent>, p: AgentEvent -> bool)
    requires Some(events, p)
    ensures exists i :: LastAt(events, p, i)
  {
    var n := |events| - 1;
    if p(events[n]) {
      assert LastAt(events, p, n);
    } else {
      var i :| 0 <= i < |events| && p(events[i]);
      assert p(events[..n][i]);
      LastExists(events[..n], p);
      var k :| LastAt(events[..n], p, k);
      assert LastAt(events, p, k);
    }
  }

  /** EndedWithoutSignal, read off the log: its last turn event ends a turn. */
  lemma EndedExactly(events: seq<AgentEvent>, s: State)
    requires Reads(events, s)
    ensures EndedWithoutSignal(s) <==> exists i :: LastAt(events, TurnEvent, i) && Ends(events[i])
  {
    if Some(events, Ends) {
      var e :| 0 <= e < |events| && Ends(events[e]);
      assert TurnEvent(events[e]);
      LastExists(events, TurnEvent);
      var i :| LastAt(events, TurnEvent, i);
    }
  }

  /** A suffix that holds an event with p holds the last one. */
  lemma LastInSuffix(events: seq<AgentEvent>, lo: nat, p: AgentEvent -> bool, i: int)
    requires lo <= |events|
    ensures LastAt(events[lo..], p, i) ==> LastAt(events, p, lo + i)
    ensures LastAt(events, p, i) && Some(events[lo..], p) ==> i >= lo && LastAt(events[lo..], p, i - lo)
  {
    var w := events[lo..];
    assert forall k | 0 <= k < |w| :: w[k] == events[lo + k];
    if LastAt(events, p, i) && Some(w, p) {
      var k :| 0 <= k < |w| && p(w[k]);
      assert p(events[lo + k]);
    }
  }

  lemma CountOfSuffix(events: seq<AgentEvent>, lo: nat, p: AgentEvent -> bool)
    requires lo <= |events|
    ensures Count(events[lo..], p) <= Count(events, p)
    decreases |events|
  {
    if lo < |events| {
      var n := |events| - 1;
      CountOfSuffix(events[..n], lo, p);
      assert events[lo..][..n - lo] == events[..n][lo..];
    }
  }

  function Dropped(events: seq<AgentEvent>, limit: int): (lo: nat)
    ensures lo <= |events| && Newest(events, limit) == events[lo..]
  {
    if 0 < limit < |events| then |events| - limit else 0
  }

  /** EndedWithoutSignal on the window means the same on the full log, and conversely as long
      as the window still holds a turn event. */
  lemma EndedOnWindow(full: seq<AgentEvent>, limit: int, w: State, f: State)
    requires Reads(Newest(full, limit), w) && Reads(full, f)
    ensures EndedWithoutSignal(w) <==> EndedWithoutSignal(f) && Some(Newest(full, limit), TurnEvent)
  {
    hide Reads;
    var window, lo := Newest(full, limit), Dropped(full, limit);
    EndedExactly(window, w);
    EndedExactly(full, f);
    if i :| LastAt(window, TurnEvent, i) && Ends(window[i]) {
      LastInSuffix(full, lo, TurnEvent, i);
      assert LastAt(full, TurnEvent, lo + i) && Ends(full[lo + i]);
    } else if EndedWithoutSignal(f) && Some(window, TurnEvent) {
      var i :| LastAt(full, TurnEvent, i) && Ends(full[i]);
      LastInSuffix(full, lo, TurnEvent, i);
    }
  }

  lemma SinceStartInSuffix(events: seq<AgentEvent>, lo: nat, p: AgentEvent -> bool)
    requires lo <= |events| && exists i :: SinceStart(events[lo..], p, i)
    ensures exists i :: SinceStart(events, p, i)
  {
    var w := events[lo..];
    assert forall k | lo <= k < |events| :: w[k - lo] == events[k];
    var i :| SinceStart(w, p, i);
    assert SinceStart(events, p, lo + i);
  }

  lemma StopReasonInSuffix(events: seq<AgentEvent>, lo: nat, reason: string, all: string)
    requires lo <= |events| && IsLastStopReason(events[lo..], reason) && reason != ""
    requires IsLastStopReason(events, all)
    ensures all == reason
  {
    var w := events[lo..];
    var i :| LastAt(w, Stops, i) && w[i].body.stopReason == reason;
    LastInSuffix(events, lo, Stops, i);
    LastMeansSome(events, Stops, lo + i);
    var j :| LastAt(events, Stops, j) && events[j].body.stopReason == all;
    LastIsUnique(events, Stops, lo + i, j);
  }

  lemma LastMeansSome(events: seq<AgentEvent>, p: AgentEvent -> bool, i: int)
    requires LastAt(events, p, i)
    ensures Some(events, p)
  {}

  lemma LastIsUnique(events: seq<AgentEvent>, p: AgentEvent -> bool, i: int, j: int)
    requires LastAt(events, p, i) && LastAt(events, p, j)
    ensures i == j
  {}

  lemma NewestInSuffix(events: seq<AgentEvent>, lo: nat, w: nat, all: nat)
    requires lo <= |events| && IsNewest(events[lo..], w) && IsNewest(events, all)
    ensures w <= all
  {
    if w != 0 {
      var e :| e in events[lo..] && e.at == w;
      assert e in events;
    }
  }

  lemma SomeInSuffix(events: seq<AgentEvent>, lo: nat, p: AgentEvent -> bool)
    requires lo <= |events| && Some(events[lo..], p)
    ensures Some(events, p)
  {
    var i :| 0 <= i < |events| - lo && p(events[lo..][i]);
    assert p(events[lo + i]);
  }

  /** The other evidence only ever weakens on the window: what it reports, the log holds. */
  lemma EvidenceOnWindow(full: seq<AgentEvent>, limit: int, w: State, f: State)
    requires Reads(Newest(full, limit), w) && Reads(full, f)
    ensures w.toolActivity ==> f.toolActivity
    ensures w.permissionPending ==> f.permissionPending
    ensures w.contextLimitError ==> f.contextLimitError
    ensures w.lastStopReason != "" ==> f.lastStopReason == w.lastStopReason
    ensures w.errorTurnCount <= f.errorTurnCount && w.lastEventAt <= f.lastEventAt
  {
    hide Some, LastAt, SinceStart, OpenTurn, IsNewest, IsLastStopReason, Newest;
    var lo := Dropped(full, limit);
    CountOfSuffix(full, lo, ErrorStop);
    NewestInSuffix(full, lo, w.lastEventAt, f.lastEventAt);
    if w.toolActivity {
      SinceStartInSuffix(full, lo, Tool);
    }
    if w.permissionPending {
      SinceStartInSuffix(full, lo, Permission);
    }
    if w.contextLimitError {
      SomeInSuffix(full, lo, ContextLimit);
    }
    if w.lastStopReason != "" {
      StopReasonInSuffix(full, lo, w.lastStopReason, f.lastStopReason);
    }
  }

  const WINDOW := 500

  /** The view agrees with the log on ended turns as long as the window holds a turn event, and
      never reports an ended turn that the log does not. */
  ghost predicate IsSoundView(state: State, log: seq<AgentEvent>) {
    && Reads(Newest(log, WINDOW), state)
    && forall full | Reads(log, full) ::
         EndedWithoutSignal(state) <==> EndedWithoutSignal(full) && Some(Newest(log, WINDOW), TurnEvent)
  }

  lemma WindowIsSound(log: seq<AgentEvent>, state: State)
    requires Reads(Newest(log, WINDOW), state)
    ensures IsSoundView(state, log)
  {
    hide Reads, Some, Newest;
    forall full | Reads(log, full)
      ensures EndedWithoutSignal(state) <==> EndedWithoutSignal(full) && Some(Newest(log, WINDOW), TurnEvent)
    {
      EndedOnWindow(log, WINDOW, state, full);
    }
  }

  /** acpState: the reconciler's view of an agent is sound for its whole log. */
  method AcpStateOf(table: seq<AgentEvent>, agent: string) returns (state: State)
    ensures exists log :: IsLog(log, Matching(table, |table|, agent, "", 0)) && IsSoundView(state, log)
  {
    hide Reads, Ascending, IsSoundView, IsLog, Newest, Matching;
    var events := AgentEventsList(table, agent, "", 0, WINDOW);
    state := ComputeACPState(events[..]);
    ghost var log :| IsLog(log, Matching(table, |table|, agent, "", 0)) && events[..] == Newest(log, WINDOW);
    WindowIsSound(log, state);
  }

  /** A log has one reading, so the fold's result is determined by the declarative clauses. */
  lemma ReadingIsUnique(events: seq<AgentEvent>, s: State, t: State)
    requires Reads(events, s) && Reads(events, t)
    ensures s == t
  {
    hide Some, LastAt, SinceStart, OpenTurn, IsLastStopReason, IsNewest;
    assert events[0..] == events;
    NewestInSuffix(events, 0, s.lastEventAt, t.lastEventAt);
    NewestInSuffix(events, 0, t.lastEventAt, s.lastEventAt);
    if s.lastStopReason != "" {
      StopReasonInSuffix(events, 0, s.lastStopReason, t.lastStopReason);
    } else if t.lastStopReason != "" {
      StopReasonInSuffix(events, 0, t.lastStopReason, s.lastStopReason);
    }
  }
}
