/** The ACP runtime's event path: events of a session that is not yet bound to an agent wait in
    a capped buffer; binding flushes it; delete throws it away. Each method is one critical
    section of the runtime mutex, and deliveries to the sink happen outside it, so a sequence of
    steps is any interleaving of emitters, binders and deleters. */
module EventRouter {
  type Session = string

  datatype Event = Event(stream: string, payload: string)

  datatype Binding = Binding(agent: string, task: string)

  const CAP := 200

  /** What has become of the events emitted for one session (history), by their positions in
      emitted. A flight is what one goroutine still has to hand to the sink, in order: the
      flushed buffer of a bind, or a single event. Waiting are the events emitted since the
      session was last bound or deleted. */
  datatype Log = Log(
    emitted: seq<Event>,
    flights: seq<seq<nat>>,
    delivered: seq<nat>,
    dropped: multiset<nat>,
    discarded: multiset<nat>,
    waiting: seq<nat>)

  const NO_LOG := Log([], [], [], multiset{}, multiset{}, [])

  datatype Router = Router(
    bindings: map<Session, Binding>,
    pending: map<Session, seq<Event>>,
    log: map<Session, Log>)

  const EMPTY := Router(map[], map[], map[])

  function Buffer(r: Router, s: Session): seq<Event> {
    if s in r.pending then r.pending[s] else []
  }

  function LogOf(r: Router, s: Session): Log {
    if s in r.log then r.log[s] else NO_LOG
  }

  function Newest<T>(events: seq<T>): seq<T> {
    if |events| > CAP then events[|events| - CAP..] else events
  }

  function Oldest<T>(events: seq<T>): seq<T> {
    if |events| > CAP then events[..|events| - CAP] else []
  }

  /** An event emitted to the sink takes off; it lands when the sink is called. */
  function Sent(l: Log, ev: Event): Log {
    l.(emitted := l.emitted + [ev], flights := l.flights + [[|l.emitted|]])
  }

  /** An event held back, at the cap in place of the oldest one held. */
  function Held(l: Log, ev: Event): Log {
    var n: nat := |l.emitted|;
    l.(emitted := l.emitted + [ev], waiting := l.waiting + [n],
       dropped := l.dropped + multiset(Oldest(Newest<nat>(l.waiting) + [n])))
  }

  function Flushed(l: Log): Log {
    if l.waiting == [] then l else l.(flights := l.flights + [Newest(l.waiting)], waiting := [])
  }

  function Discarded(l: Log): Log {
    l.(discarded := l.discarded + multiset(Newest(l.waiting)), waiting := [])
  }

  /** One call of the sink: flight k hands over its next event, which gets the next number. */
  function Delivery(l: Log, k: nat): Log {
    if k >= |l.flights| || l.flights[k] == [] then l
    else
      var left := l.flights[k][1..];
      l.(delivered := l.delivered + [l.flights[k][0]],
         flights := l.flights[..k] + (if left == [] then [] else [left]) + l.flights[k + 1..])
  }

  /** emit: to the sink when the session is bound, else into the capped buffer. */
  function Emit(r: Router, s: Session, ev: Event): Router {
    if s in r.bindings then r.(log := r.log[s := Sent(LogOf(r, s), ev)])
    else r.(pending := r.pending[s := Newest(Buffer(r, s) + [ev])], log := r.log[s := Held(LogOf(r, s), ev)])
  }

  /** BindAgentSession: record the binding and take the whole buffer out for delivery. */
  function Bind(r: Router, s: Session, b: Binding): Router {
    Router(r.bindings[s := b], r.pending - {s}, r.log[s := Flushed(LogOf(r, s))])
  }

  function Deliver(r: Router, s: Session, k: nat): Router {
    r.(log := r.log[s := Delivery(LogOf(r, s), k)])
  }

  /** delete: forget the session. */
  function Delete(r: Router, s: Session): Router {
    Router(r.bindings - {s}, r.pending - {s}, r.log[s := Discarded(LogOf(r, s))])
  }

  datatype Step = EmitStep(s: Session, ev: Event) | BindStep(s: Session, b: Binding) | DeliverStep(s: Session, k: nat) | DeleteStep(s: Session)

  function Apply(r: Router, step: Step): Router {
    match step
    case EmitStep(s, ev) => Emit(r, s, ev)
    case BindStep(s, b) => Bind(r, s, b)
    case DeliverStep(s, k) => Deliver(r, s, k)
    case DeleteStep(s) => Delete(r, s)
  }

  /** The state after some steps of a new runtime. */
  function After(steps: seq<Step>): Router {
    if steps == [] then EMPTY else Apply(After(steps[..|steps| - 1]), steps[|steps| - 1])
  }

  // ---- Conservation ------------------------------------------------------------------------

  /** Each position below n, once. */
  ghost function Positions(n: nat): multiset<nat> {
    if n == 0 then multiset{} else Positions(n - 1) + multiset{n - 1}
  }

  lemma {:induction false} PositionsOnce(n: nat, p: nat)
    ensures Positions(n)[p] == if p < n then 1 else 0
  {
    if n > 0 {
      PositionsOnce(n - 1, p);
    }
  }

  ghost function InFlight(flights: seq<seq<nat>>): multiset<nat> {
    if flights == [] then multiset{} else multiset(flights[0]) + InFlight(flights[1..])
  }

  lemma {:induction false} InFlightOfSum(a: seq<seq<nat>>, b: seq<seq<nat>>)
    ensures InFlight(a + b) == InFlight(a) + InFlight(b)
  {
    if a == [] {
      assert a + b == b;
    } else {
      assert (a + b)[1..] == a[1..] + b;
      InFlightOfSum(a[1..], b);
    }
  }

  lemma InFlightOfOne(f: seq<nat>)
    ensures InFlight([f]) == multiset(f) && InFlight([]) == multiset{}
  {
    assert [f][1..] == [];
  }

  /** Every event emitted for the session is in exactly one place, once. */
  ghost predicate Conserved(l: Log) {
    Positions(|l.emitted|) == multiset(l.delivered) + InFlight(l.flights) + multiset(Newest(l.waiting)) + l.dropped + l.discarded
  }

  /** The events of a buffer are those emitted at the given positions. */
  ghost predicate Holds(buffer: seq<Event>, emitted: seq<Event>, ps: seq<nat>) {
    |buffer| == |ps| && forall i | 0 <= i < |ps| :: ps[i] < |emitted| && buffer[i] == emitted[ps[i]]
  }

  lemma HoldsNewest(buffer: seq<Event>, emitted: seq<Event>, ps: seq<nat>, ev: Event)
    requires Holds(buffer, emitted, ps)
    ensures Holds(Newest(buffer + [ev]), emitted + [ev], Newest<nat>(ps + [|emitted|]))
  {
    var events, more, grown := buffer + [ev], emitted + [ev], ps + [|emitted|];
    HoldsGrown(buffer, emitted, ps, ev);
    hide Holds;
    if |events| > CAP {
      HoldsSuffix(events, more, grown, |events| - CAP);
    }
  }

  lemma HoldsGrown(buffer: seq<Event>, emitted: seq<Event>, ps: seq<nat>, ev: Event)
    requires Holds(buffer, emitted, ps)
    ensures Holds(buffer + [ev], emitted + [ev], ps + [|emitted|]) && |buffer| == |ps|
  {
    var grown, more := ps + [|emitted|], emitted + [ev];
    forall i | 0 <= i < |grown| ensures grown[i] < |more| && (buffer + [ev])[i] == more[grown[i]] {
      if i < |ps| {
        assert grown[i] == ps[i] < |emitted|;
      }
    }
  }

  lemma HoldsSuffix(buffer: seq<Event>, emitted: seq<Event>, ps: seq<nat>, lo: nat)
    requires Holds(buffer, emitted, ps) && lo <= |ps|
    ensures Holds(buffer[lo..], emitted, ps[lo..])
  {
    forall i | 0 <= i < |ps| - lo ensures ps[lo..][i] < |emitted| && buffer[lo..][i] == emitted[ps[lo..][i]] {
      assert ps[lo..][i] == ps[lo + i] && buffer[lo..][i] == buffer[lo + i];
    }
  }

  /** A bound session has no buffer; an unbound one's is the newest waiting events, in order. */
  ghost predicate BufferOk(r: Router, s: Session) {
    var l, b := LogOf(r, s), Buffer(r, s);
    && (s in r.bindings ==> s !in r.pending && l.waiting == [])
    && Holds(b, l.emitted, Newest(l.waiting))
  }

  ghost predicate SessionOk(r: Router, s: Session) {
    Conserved(LogOf(r, s)) && BufferOk(r, s) && [] !in LogOf(r, s).flights
  }

  ghost predicate Inv(r: Router) {
    forall s :: SessionOk(r, s)
  }

  lemma SplitAtCap(events: seq<nat>)
    ensures multiset(events) == multiset(Oldest(events)) + multiset(Newest(events))
  {
    if |events| > CAP {
      assert events == Oldest(events) + Newest(events);
    }
  }

  /** Capping the old buffer and then the grown one is capping once. */
  lemma NewestAgain(events: seq<nat>, ev: nat)
    ensures Newest(Newest(events) + [ev]) == Newest(events + [ev])
  {}

  lemma SentConserves(l: Log, ev: Event)
    requires Conserved(l)
    ensures Conserved(Sent(l, ev))
  {
    hide Newest, InFlight;
    InFlightOfSum(l.flights, [[|l.emitted|]]);
    InFlightOfOne([|l.emitted|]);
  }

  lemma HeldConserves(l: Log, ev: Event)
    requires Conserved(l)
    ensures Conserved(Held(l, ev))
  {
    hide Newest, Oldest, InFlight;
    var n: nat := |l.emitted|;
    var kept := Newest<nat>(l.waiting);
    SplitAtCap(kept + [n]);
    NewestAgain(l.waiting, n);
    assert multiset(kept + [n]) == multiset(kept) + multiset{n};
    var l' := Held(l, ev);
    assert Newest<nat>(l'.waiting) == Newest<nat>(kept + [n]);
    var rest := multiset(l.delivered) + InFlight(l.flights) + l.discarded;
    assert Positions(n) == rest + (multiset(kept) + l.dropped);
    assert Positions(n + 1) == Positions(n) + multiset{n};
    assert Positions(n + 1) == rest + (multiset(kept + [n]) + l.dropped);
    assert l'.dropped == l.dropped + multiset(Oldest<nat>(kept + [n]));
    assert multiset(Newest<nat>(l'.waiting)) + l'.dropped == multiset(kept + [n]) + l.dropped;
    assert Positions(n + 1) == rest + (multiset(Newest<nat>(l'.waiting)) + l'.dropped);
  }

  lemma EmptyBuffer(emitted: seq<Event>)
    ensures Newest<nat>([]) == [] && Holds([], emitted, [])
  {}

  lemma EmitOk(r: Router, s: Session, ev: Event)
    requires SessionOk(r, s)
    ensures SessionOk(Emit(r, s, ev), s)
  {
    hide Conserved, Newest, Oldest, Holds;
    var l := LogOf(r, s);
    if s in r.bindings {
      SentConserves(l, ev);
      EmptyBuffer(l.emitted + [ev]);
    } else {
      HeldConserves(l, ev);
      NewestAgain(l.waiting, |l.emitted|);
      HoldsNewest(Buffer(r, s), l.emitted, Newest(l.waiting), ev);
    }
  }

  lemma FlushedConserves(l: Log)
    requires Conserved(l)
    ensures Conserved(Flushed(l)) && (l.waiting != [] ==> Newest(l.waiting) != [])
  {
    hide Positions, InFlight;
    InFlightOfSum(l.flights, [Newest(l.waiting)]);
    InFlightOfOne(Newest(l.waiting));
  }

  lemma BindOk(r: Router, s: Session, b: Binding)
    requires SessionOk(r, s)
    ensures SessionOk(Bind(r, s, b), s)
  {
    hide Conserved, Holds, Newest;
    FlushedConserves(LogOf(r, s));
    EmptyBuffer(LogOf(r, s).emitted);
  }

  lemma InFlightAround(a: seq<seq<nat>>, b: seq<seq<nat>>, c: seq<seq<nat>>)
    ensures InFlight(a + b + c) == InFlight(a) + InFlight(b) + InFlight(c)
  {
    hide InFlight;
    InFlightOfSum(a + b, c);
    InFlightOfSum(a, b);
  }

  lemma DeliveryConserves(l: Log, k: nat)
    requires Conserved(l) && k < |l.flights| && [] !in l.flights
    ensures Conserved(Delivery(l, k)) && [] !in Delivery(l, k).flights
  {
    hide Positions, InFlight, Newest;
    var f := l.flights[k];
    assert f in l.flights;
    var left := f[1..];
    var before, after := l.flights[..k], l.flights[k + 1..];
    assert l.flights == before + [f] + after;
    InFlightAround(before, [f], after);
    InFlightAround(before, [left], after);
    InFlightAround(before, [], after);
    InFlightOfOne(f);
    InFlightOfOne(left);
    assert multiset(f) == multiset{f[0]} + multiset(left) by {
      assert f == [f[0]] + left;
    }
    assert multiset(l.delivered + [f[0]]) == multiset(l.delivered) + multiset{f[0]};
  }

  lemma DeliverOk(r: Router, s: Session, k: nat)
    requires SessionOk(r, s)
    ensures SessionOk(Deliver(r, s, k), s)
  {
    hide Conserved, Newest, Holds;
    if k < |LogOf(r, s).flights| {
      DeliveryConserves(LogOf(r, s), k);
    }
  }

  lemma DiscardedConserves(l: Log)
    requires Conserved(l)
    ensures Conserved(Discarded(l))
  {
    hide Positions, InFlight;
  }

  lemma DeleteOk(r: Router, s: Session)
    requires SessionOk(r, s)
    ensures SessionOk(Delete(r, s), s)
  {
    hide Conserved, Holds, Newest;
    DiscardedConserves(LogOf(r, s));
    EmptyBuffer(LogOf(r, s).emitted);
  }

  lemma OtherSessions(r: Router, step: Step, u: Session)
    requires u != step.s
    ensures var r' := Apply(r, step);
            LogOf(r', u) == LogOf(r, u) && Buffer(r', u) == Buffer(r, u) && (u in r'.bindings <==> u in r.bindings)
            && (u in r'.pending <==> u in r.pending)
  {
    hide Sent, Held, Flushed, Delivery, Discarded, Newest;
  }

  lemma ApplyInv(r: Router, step: Step)
    requires Inv(r)
    ensures Inv(Apply(r, step))
  {
    hide Conserved, Emit, Bind, Deliver, Delete, Newest;
    forall u ensures SessionOk(Apply(r, step), u) {
      assert SessionOk(r, u);
      if u != step.s {
        OtherSessions(r, step, u);
      } else {
        hide SessionOk;
        match step
        case EmitStep(s, ev) => EmitOk(r, s, ev);
        case BindStep(s, b) => BindOk(r, s, b);
        case DeliverStep(s, k) => DeliverOk(r, s, k);
        case DeleteStep(s) => DeleteOk(r, s);
      }
    }
  }

  /** Under every interleaving each emitted event is delivered exactly once, or still in flight,
      buffered, dropped by the cap, or discarded with its session. */
  lemma {:induction false} EventsAreConserved(steps: seq<Step>)
    ensures Inv(After(steps))
  {
    if steps != [] {
      EventsAreConserved(steps[..|steps| - 1]);
      ApplyInv(After(steps[..|steps| - 1]), steps[|steps| - 1]);
    }
  }

  // ---- Nothing lost below the cap ------------------------------------------------------------

  /** Emitting a list of events for one session. */
  function EmitAll(r: Router, s: Session, evs: seq<Event>): Router
    decreases evs
  {
    if evs == [] then r else EmitAll(Emit(r, s, evs[0]), s, evs[1..])
  }

  /** The positions the next n events get. */
  function Following(l: Log, n: nat): seq<nat> {
    seq(n, i requires 0 <= i => |l.emitted| + i)
  }

  lemma WaitingGrows(r: Router, s: Session, ev: Event)
    requires SessionOk(r, s) && s !in r.bindings && |LogOf(r, s).waiting| < CAP
    ensures var l, l' := LogOf(r, s), LogOf(Emit(r, s, ev), s);
            && l'.waiting == l.waiting + [|l.emitted|] && l'.dropped == l.dropped && l'.flights == l.flights
            && |l'.emitted| == |l.emitted| + 1
    ensures s !in Emit(r, s, ev).bindings
  {}

  lemma BindFlushes(r: Router, s: Session, b: Binding)
    requires |LogOf(r, s).waiting| <= CAP
    ensures var l, l' := LogOf(r, s), LogOf(Bind(r, s, b), s);
            l'.dropped == l.dropped && l'.flights == l.flights + if l.waiting == [] then [] else [l.waiting]
  {}

  /** Events are lost to the cap only: a session bound before its 201st event, and not deleted
      while it waits, hands all of them to the sink in one flight, in order. */
  lemma {:induction false} FewEventsAreAllFlushed(r: Router, s: Session, evs: seq<Event>, b: Binding)
    requires SessionOk(r, s) && s !in r.bindings && |LogOf(r, s).waiting| + |evs| <= CAP
    ensures var l, l' := LogOf(r, s), LogOf(Bind(EmitAll(r, s, evs), s, b), s);
            var flushed := l.waiting + Following(l, |evs|);
            && l'.dropped == l.dropped
            && l'.flights == l.flights + if flushed == [] then [] else [flushed]
    decreases evs
  {
    hide SessionOk, Emit, Bind, LogOf;
    var l := LogOf(r, s);
    if evs == [] {
      assert l.waiting + Following(l, 0) == l.waiting;
      BindFlushes(r, s, b);
    } else {
      EmitOk(r, s, evs[0]);
      WaitingGrows(r, s, evs[0]);
      var l1 := LogOf(Emit(r, s, evs[0]), s);
      assert l1.waiting + Following(l1, |evs| - 1) == l.waiting + Following(l, |evs|);
      FewEventsAreAllFlushed(Emit(r, s, evs[0]), s, evs[1..], b);
    }
  }

  // ---- Which events wait ---------------------------------------------------------------------

  predicate Resets(step: Step, s: Session) {
    (step.BindStep? || step.DeleteStep?) && step.s == s
  }

  /** The session's last bind or delete was a bind to b. */
  ghost predicate LastBoundTo(steps: seq<Step>, s: Session, b: Binding) {
    exists i | 0 <= i < |steps| :: steps[i] == BindStep(s, b) && forall j | i < j < |steps| :: !Resets(steps[j], s)
  }

  /** How many events were emitted for the session, and how many since its last bind or delete. */
  function EmittedBy(steps: seq<Step>, s: Session): nat {
    if steps == [] then 0
    else EmittedBy(steps[..|steps| - 1], s) + (if steps[|steps| - 1].EmitStep? && steps[|steps| - 1].s == s then 1 else 0)
  }

  function EmittedSince(steps: seq<Step>, s: Session): nat {
    if steps == [] then 0
    else
      var step := steps[|steps| - 1];
      if Resets(step, s) then 0
      else EmittedSince(steps[..|steps| - 1], s) + (if step.EmitStep? && step.s == s then 1 else 0)
  }

  lemma BindingStep(r: Router, step: Step, s: Session)
    ensures var r' := Apply(r, step);
            && (s in r'.bindings <==> if Resets(step, s) then step.BindStep? else s in r.bindings)
            && (s in r'.bindings ==> r'.bindings[s] == if Resets(step, s) then step.b else r.bindings[s])
  {
    hide Sent, Held, Flushed, Delivery, Discarded, Newest;
  }

  lemma LastBoundStep(before: seq<Step>, step: Step, s: Session, b: Binding)
    ensures LastBoundTo(before + [step], s, b) <==> if Resets(step, s) then step == BindStep(s, b) else LastBoundTo(before, s, b)
  {
    var steps := before + [step];
    assert steps[|before|] == step;
    assert forall j | 0 <= j < |before| :: steps[j] == before[j];
    if step == BindStep(s, b) {
      assert LastBoundTo(steps, s, b);
    } else if !Resets(step, s) && LastBoundTo(before, s, b) {
      var i :| 0 <= i < |before| && before[i] == BindStep(s, b) && forall j | i < j < |before| :: !Resets(before[j], s);
      assert steps[i] == BindStep(s, b);
    }
  }

  /** A session is bound, and to what, as its last bind or delete says. */
  lemma {:induction false} BoundExactly(steps: seq<Step>, s: Session, b: Binding)
    ensures s in After(steps).bindings && After(steps).bindings[s] == b <==> LastBoundTo(steps, s, b)
  {
    if steps != [] {
      hide Apply, LastBoundTo;
      var before, step := steps[..|steps| - 1], steps[|steps| - 1];
      BoundExactly(before, s, b);
      BindingStep(After(before), step, s);
      assert before + [step] == steps;
      LastBoundStep(before, step, s, b);
    }
  }

  /** The last k of the first n positions. */
  function LastOf(n: nat, k: nat): seq<nat>
    requires k <= n
  {
    seq(k, i requires 0 <= i < k => n - k + i)
  }

  lemma LastOfGrows(n: nat, k: nat)
    requires k <= n
    ensures LastOf(n + 1, k + 1) == LastOf(n, k) + [n] && LastOf(n, 0) == []
  {}

  lemma WaitingStep(r: Router, step: Step, s: Session)
    ensures var l, l' := LogOf(r, s), LogOf(Apply(r, step), s);
            if step.s != s then l' == l
            else if step.EmitStep? then
              |l'.emitted| == |l.emitted| + 1 && l'.waiting == l.waiting + if s in r.bindings then [] else [|l.emitted|]
            else l'.emitted == l.emitted && l'.waiting == if Resets(step, s) then [] else l.waiting
  {
    hide Newest, Oldest;
  }

  /** What waits are the events emitted since the last bind or delete, if the session is not
      bound. */
  lemma {:induction false} WaitingExactly(steps: seq<Step>, s: Session)
    ensures var r := After(steps); var n, k := EmittedBy(steps, s), EmittedSince(steps, s);
            |LogOf(r, s).emitted| == n >= k && LogOf(r, s).waiting == if s in r.bindings then [] else LastOf(n, k)
  {
    if steps != [] {
      hide Apply, LastOf, LogOf;
      var before, step := steps[..|steps| - 1], steps[|steps| - 1];
      WaitingExactly(before, s);
      WaitingStep(After(before), step, s);
      BindingStep(After(before), step, s);
      LastOfGrows(EmittedBy(before, s), EmittedSince(before, s));
    }
  }

  /** An event emitted for a bound session takes off alone, whatever else is in flight; one
      emitted for another session drops nothing before 200 of its events wait. */
  lemma EmittedTakesOff(steps: seq<Step>, s: Session, ev: Event)
    ensures var r := After(steps); var l, l' := LogOf(r, s), LogOf(Apply(r, EmitStep(s, ev)), s);
            && l'.emitted == l.emitted + [ev]
            && l'.flights == l.flights + (if s in r.bindings then [[|l.emitted|]] else [])
            && (s in r.bindings || EmittedSince(steps, s) < 200 ==> l'.dropped == l.dropped)
  {
    WaitingExactly(steps, s);
  }

  // ---- The order of delivery -----------------------------------------------------------------

  predicate Ascending(ps: seq<nat>) {
    forall i, j | 0 <= i < j < |ps| :: ps[i] < ps[j]
  }

  /** Some deliveries in a row, by the flights that make them. */
  function Deliveries(l: Log, ks: seq<nat>): Log
    decreases ks
  {
    if ks == [] then l else Deliveries(Delivery(l, ks[0]), ks[1..])
  }

  /** At most one goroutine has events of the session to hand over. */
  predicate Calm(l: Log) {
    |l.flights| <= 1
  }

  /** Delivered, in flight and waiting, in this order, is the order of emission. */
  ghost predicate InLine(l: Log) {
    && Ascending(l.delivered + Flight(l) + l.waiting)
    && forall p | p in l.delivered + Flight(l) + l.waiting :: p < |l.emitted|
  }

  function Flight(l: Log): seq<nat> {
    if l.flights == [] then [] else l.flights[0]
  }

  lemma CalmDelivery(l: Log, k: nat)
    requires Calm(l) && InLine(l)
    ensures Calm(Delivery(l, k)) && InLine(Delivery(l, k))
  {
    var l' := Delivery(l, k);
    if k < |l.flights| && l.flights[k] != [] {
      assert Flight(l) == [Flight(l)[0]] + Flight(l');
      assert l'.delivered + Flight(l') + l'.waiting == l.delivered + Flight(l) + l.waiting;
    }
  }

  lemma {:induction false} CalmDeliveries(l: Log, ks: seq<nat>)
    requires Calm(l) && InLine(l)
    ensures Ascending(Deliveries(l, ks).delivered)
    decreases ks
  {
    if ks == [] {
      var all := l.delivered + Flight(l) + l.waiting;
      assert forall i | 0 <= i < |l.delivered| :: l.delivered[i] == all[i];
    } else {
      CalmDelivery(l, ks[0]);
      CalmDeliveries(Delivery(l, ks[0]), ks[1..]);
    }
  }

  lemma InLineWith(l: Log, all: seq<nat>)
    requires Ascending(all) && all == l.delivered + Flight(l) + l.waiting && forall p | p in all :: p < |l.emitted|
    ensures InLine(l)
  {}

  lemma OneMore(l: Log)
    requires InLine(l)
    ensures var all := l.delivered + Flight(l) + l.waiting + [|l.emitted|];
            Ascending(all) && forall p | p in all :: p < |l.emitted| + 1
  {
    var all := l.delivered + Flight(l) + l.waiting;
    assert forall i | 0 <= i < |all| :: all[i] in all;
  }

  lemma CalmSent(l: Log, ev: Event)
    requires InLine(l) && l.waiting == [] && Calm(Sent(l, ev))
    ensures InLine(Sent(l, ev))
  {
    OneMore(l);
    InLineWith(Sent(l, ev), l.delivered + Flight(l) + l.waiting + [|l.emitted|]);
  }

  lemma CalmHeld(l: Log, ev: Event)
    requires InLine(l)
    ensures InLine(Held(l, ev))
  {
    hide Newest, Oldest;
    OneMore(l);
    InLineWith(Held(l, ev), l.delivered + Flight(l) + l.waiting + [|l.emitted|]);
  }

  /** Leaving out a middle part keeps the order. */
  lemma AscendingWithout(a: seq<nat>, b: seq<nat>, c: seq<nat>)
    requires Ascending(a + b + c)
    ensures Ascending(a + c) && forall p | p in a + c :: p in a + b + c
  {
    var all, left := a + b + c, a + c;
    assert forall i | 0 <= i < |left| :: left[i] == all[if i < |a| then i else i + |b|];
  }

  lemma CalmFlushed(l: Log)
    requires InLine(l) && Calm(Flushed(l))
    ensures InLine(Flushed(l))
  {
    hide Ascending;
    if l.waiting != [] {
      var kept, lost := Newest(l.waiting), Oldest(l.waiting);
      assert l.delivered + Flight(l) + l.waiting == l.delivered + lost + kept;
      AscendingWithout(l.delivered, lost, kept);
      InLineWith(Flushed(l), l.delivered + kept);
    }
  }

  lemma CalmDiscarded(l: Log)
    requires InLine(l)
    ensures InLine(Discarded(l))
  {
    hide Newest, Ascending;
    assert l.delivered + Flight(l) + l.waiting + [] == l.delivered + Flight(l) + l.waiting;
    AscendingWithout(l.delivered + Flight(l), l.waiting, []);
    InLineWith(Discarded(l), l.delivered + Flight(l) + []);
  }

  /** A step of the session keeps the line, as long as it stays calm. */
  lemma CalmStep(r: Router, step: Step)
    requires SessionOk(r, step.s) && Calm(LogOf(r, step.s)) && InLine(LogOf(r, step.s))
    requires Calm(LogOf(Apply(r, step), step.s))
    ensures InLine(LogOf(Apply(r, step), step.s))
  {
    hide Calm, InLine, Sent, Held, Flushed, Delivery, Discarded, Conserved, Newest;
    var l := LogOf(r, step.s);
    match step
    case EmitStep(s, ev) =>
      if s in r.bindings {
        CalmSent(l, ev);
      } else {
        CalmHeld(l, ev);
      }
    case BindStep(s, b) => CalmFlushed(l);
    case DeliverStep(s, k) => CalmDelivery(l, k);
    case DeleteStep(s) => CalmDiscarded(l);
  }

  lemma {:induction false} CalmIsInLine(s: Session, steps: seq<Step>)
    requires AlwaysCalm(s, steps)
    ensures InLine(LogOf(After(steps), s))
  {
    hide Calm, InLine, Apply, LogOf, SessionOk, AlwaysCalm;
    if steps == [] {
      NothingInLine(s);
    } else {
      var m: nat := |steps| - 1;
      CalmPrefix(s, steps, m);
      CalmPrefix(s, steps, m + 1);
      assert steps[..m + 1] == steps;
      CalmIsInLine(s, steps[..m]);
      EventsAreConserved(steps[..m]);
      assert SessionOk(After(steps[..m]), s);
      if steps[m].s != s {
        OtherSessions(After(steps[..m]), steps[m], s);
      } else {
        CalmStep(After(steps[..m]), steps[m]);
      }
    }
  }

  lemma NothingInLine(s: Session)
    ensures InLine(LogOf(EMPTY, s))
  {}

  lemma {:induction false} InFlightOnce(flights: seq<seq<nat>>, i: nat, j: nat)
    requires i < j < |flights| && [] !in flights && flights[i][0] == flights[j][0]
    ensures InFlight(flights)[flights[i][0]] >= 2
  {
    var p := flights[i][0];
    if i == 0 {
      HeadInFlight(flights[1..], j - 1);
      assert p in flights[0];
    } else {
      InFlightOnce(flights[1..], i - 1, j - 1);
    }
  }

  lemma {:induction false} HeadInFlight(flights: seq<seq<nat>>, j: nat)
    requires j < |flights| && flights[j] != []
    ensures flights[j][0] in InFlight(flights)
  {
    if j > 0 {
      HeadInFlight(flights[1..], j - 1);
    } else {
      assert flights[0][0] in flights[0];
    }
  }

  /** Two flights can always deliver out of order: the later event first. */
  lemma TwoFlightsOvertake(l: Log) returns (ks: seq<nat>)
    requires Conserved(l) && [] !in l.flights && !Calm(l)
    ensures !Ascending(Deliveries(l, ks).delivered)
  {
    hide Conserved, Positions, InFlight;
    var a, b := l.flights[0], l.flights[1];
    assert a in l.flights && b in l.flights;
    HeadsDiffer(l);
    var l1, l2;
    if a[0] > b[0] {
      ks := [0, if |a| == 1 then 0 else 1];
      l1 := Delivery(l, 0);
      assert l1.flights[ks[1]] == b;
    } else {
      ks := [1, 0];
      l1 := Delivery(l, 1);
      assert l1.flights[0] == a;
    }
    l2 := Delivery(l1, ks[1]);
    assert Deliveries(l, ks) == l2 by {
      assert ks[1..] == [ks[1]] && ks[1..][1..] == [];
      assert Deliveries(l2, []) == l2;
      assert Deliveries(l1, [ks[1]]) == l2;
    }
    assert l2.delivered[|l.delivered|] > l2.delivered[|l.delivered| + 1];
  }

  lemma HeadsDiffer(l: Log)
    requires Conserved(l) && [] !in l.flights && !Calm(l)
    ensures l.flights[0] != [] && l.flights[1] != [] && l.flights[0][0] != l.flights[1][0]
  {
    assert l.flights[0] in l.flights && l.flights[1] in l.flights;
    if l.flights[0][0] == l.flights[1][0] {
      InFlightOnce(l.flights, 0, 1);
      PositionsOnce(|l.emitted|, l.flights[0][0]);
      assert false;
    }
  }

  /** In every state on the way and however deliveries go on from there, the session's events
      reach the sink, and get their numbers, in the order of emission. */
  ghost predicate InOrderHowever(s: Session, steps: seq<Step>) {
    forall n: nat | n <= |steps| :: InOrderFrom(LogOf(After(steps[..n]), s))
  }

  ghost predicate InOrderFrom(l: Log) {
    forall ks: seq<nat> :: Ascending(Deliveries(l, ks).delivered)
  }

  /** At no point two goroutines have events of the session to hand over. */
  ghost predicate AlwaysCalm(s: Session, steps: seq<Step>) {
    forall n: nat | n <= |steps| :: Calm(LogOf(After(steps[..n]), s))
  }

  lemma CalmPrefix(s: Session, steps: seq<Step>, n: nat)
    requires AlwaysCalm(s, steps) && n <= |steps|
    ensures AlwaysCalm(s, steps[..n]) && Calm(LogOf(After(steps[..n]), s))
  {
    hide Calm, LogOf, After;
    assert forall m: nat | m <= n :: steps[..n][..m] == steps[..m];
  }

  lemma CalmIsInOrder(s: Session, steps: seq<Step>)
    requires AlwaysCalm(s, steps)
    ensures InOrderHowever(s, steps)
  {
    forall n: nat | n <= |steps| ensures InOrderFrom(LogOf(After(steps[..n]), s)) {
      CalmStateIsInOrder(s, steps, n);
    }
  }

  lemma CalmStateIsInOrder(s: Session, steps: seq<Step>, n: nat)
    requires AlwaysCalm(s, steps) && n <= |steps|
    ensures InOrderFrom(LogOf(After(steps[..n]), s))
  {
    hide Calm, InLine, Ascending, Deliveries, LogOf, After, AlwaysCalm;
    CalmPrefix(s, steps, n);
    CalmIsInLine(s, steps[..n]);
    var l := LogOf(After(steps[..n]), s);
    forall ks: seq<nat> ensures Ascending(Deliveries(l, ks).delivered) {
      CalmDeliveries(l, ks);
    }
  }

  lemma UncalmIsOutOfOrder(l: Log)
    requires Conserved(l) && [] !in l.flights && !Calm(l)
    ensures !InOrderFrom(l)
  {
    hide Conserved, Calm, Ascending, Deliveries;
    var ks := TwoFlightsOvertake(l);
  }

  lemma InOrderIsCalm(s: Session, steps: seq<Step>)
    requires InOrderHowever(s, steps)
    ensures AlwaysCalm(s, steps)
  {
    hide Calm, InOrderFrom, Conserved, LogOf, After, Inv;
    forall n: nat | n <= |steps| ensures Calm(LogOf(After(steps[..n]), s)) {
      var l := LogOf(After(steps[..n]), s);
      EventsAreConserved(steps[..n]);
      SessionParts(After(steps[..n]), s);
      if !Calm(l) {
        UncalmIsOutOfOrder(l);
      }
    }
  }

  /** Events of a session keep the order of emission however deliveries go on iff at no point
      two goroutines have events of it to hand over: no event is emitted to the sink, and no
      buffer flushed, during a delivery. */
  lemma OrderExactly(s: Session, steps: seq<Step>)
    ensures InOrderHowever(s, steps) <==> AlwaysCalm(s, steps)
  {
    hide InOrderHowever, AlwaysCalm;
    if AlwaysCalm(s, steps) {
      CalmIsInOrder(s, steps);
    }
    if InOrderHowever(s, steps) {
      InOrderIsCalm(s, steps);
    }
  }

  lemma SessionParts(r: Router, s: Session)
    requires Inv(r)
    ensures Conserved(LogOf(r, s)) && [] !in LogOf(r, s).flights
  {
    assert SessionOk(r, s);
  }

  // ---- The runtime ---------------------------------------------------------------------------

  /** The runtime's maps. */
  class ACPRuntime {
    var bindings: map<Session, Binding>
    var pending: map<Session, seq<Event>>
    ghost var log: map<Session, Log>

    ghost function State(): Router
      reads this
    {
      Router(bindings, pending, log)
    }

    constructor ()
      ensures State() == EMPTY
    {
      bindings, pending, log := map[], map[], map[];
    }

    /** emit; `bound` says whether the caller goes on to call the sink. */
    method EmitEvent(s: Session, ev: Event) returns (bound: bool)
      modifies this
      ensures bound == (s in old(bindings))
      ensures State() == Emit(old(State()), s, ev)
    {
      hide Sent, Held;
      log := Emit(State(), s, ev).log;
      bound := s in bindings;
      if !bound {
        pending := pending[s := (if s in pending then pending[s] else []) + [ev]];
        if |pending[s]| > CAP {
          pending := pending[s := pending[s][|pending[s]| - CAP..]];
        }
      }
    }

    /** BindAgentSession; the caller then hands `flushed` to the sink in order. */
    method BindAgentSession(s: Session, b: Binding) returns (flushed: seq<Event>)
      modifies this
      ensures flushed == Buffer(old(State()), s)
      ensures State() == Bind(old(State()), s, b)
    {
      log := Bind(State(), s, b).log;
      bindings := bindings[s := b];
      flushed := if s in pending then pending[s] else [];
      pending := pending - {s};
    }

    method DeleteSession(s: Session)
      modifies this
      ensures State() == Delete(old(State()), s)
    {
      log := Delete(State(), s).log;
      bindings := bindings - {s};
      pending := pending - {s};
    }
  }
}
