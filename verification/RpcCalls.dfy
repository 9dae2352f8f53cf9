/** JSON-RPC calls and permission requests of an ACP session: callers, the reader goroutine,
    people who resolve permissions, and the goroutine that waits for the process to exit,
    interleaved between their critical sections. */
module RpcCalls {
  import opened Options
  import opened Sets

  /** What travels through a call's channel. */
  datatype Reply = FromPeer(id: int, isError: bool, payload: string) | ProcessExited

  /** How far one call has come. */
  datatype CallPc =
    | Allocated                 // has an id, not yet registered
    | Sending                   // registered; marshalling and writing the request
    | WriteFailed               // about to unregister
    | Waiting                   // in the select
    | TimedOut                  // the context won the select; about to unregister
    | Returned(got: Option<Reply>)

  /** wait(): it holds the session lock for the whole of Draining. */
  datatype WaitPc = ProcessRuns | Draining | Exited

  /** awaitManualPermission, which the reader runs while it handles a request: in its select,
      with a decision taken or timed out, and then waiting for the lock to unregister. */
  datatype Asking = NotAsking | Awaiting(perm: int) | Leaving(perm: int)

  /** Permission requests; `channel` counts the values in each request's one-slot channel, and
      `resolvers` are the ResolvePermission calls that have looked their request up. */
  datatype Permissions = Permissions(
    last: int,
    asking: Asking,
    pending: set<int>,
    channel: map<int, nat>,
    resolvers: map<nat, int>)

  datatype Session = Session(
    lastId: int,
    calls: map<int, CallPc>,
    pending: set<int>,                 // keys of pendingCalls; each key's channel is its own
    channel: map<int, seq<Reply>>,     // contents of each call's one-slot channel
    reader: Option<Reply>,             // handleMessage: channel taken, value not yet sent
    wait: WaitPc,
    sent: map<int, seq<Reply>>,        // history: everything ever sent to a channel
    perms: Permissions)

  datatype Event =
    | Allocate
    | Register(id: int)
    | MarshalError(id: int)
    | WriteOk(id: int)
    | WriteError(id: int)
    | Expire(id: int)
    | Unregister(id: int)
    | Receive(id: int)
    | ReaderTake(msg: Reply)           // any message of the peer, expected or not
    | ReaderSend
    | ProcessExit
    | DrainOne(id: int)
    | DrainEnd
    | Permission(p: PermissionEvent)

  datatype PermissionEvent =
    | Ask                              // a request that the policy leaves to a person
    | TakeDecision
    | GiveUp                           // the timeout wins the select
    | StopAsking
    | LookUp(resolver: nat, perm: int)
    | SendDecision(resolver: nat)
    | Decline(perm: int)               // wait's second loop

  predicate LockFree(s: Session) {
    s.wait != Draining
  }

  predicate Pc(s: Session, id: int, pc: CallPc) {
    id in s.calls && s.calls[id] == pc
  }

  function SetPc(s: Session, id: int, pc: CallPc): Session {
    s.(calls := s.calls[id := pc])
  }

  /** A send on a call's channel. */
  function Send(s: Session, id: int, r: Reply): Session
    requires id in s.channel && id in s.sent
  {
    s.(channel := s.channel[id := s.channel[id] + [r]], sent := s.sent[id := s.sent[id] + [r]])
  }

  function Next(s: Session, e: Event): Option<Session> {
    match e
    case Allocate =>
      var id := s.lastId + 1;
      Some(SetPc(s, id, Allocated).(lastId := id, channel := s.channel[id := []], sent := s.sent[id := []]))
    case Register(id) =>
      if LockFree(s) && Pc(s, id, Allocated) then Some(SetPc(s, id, Sending).(pending := s.pending + {id})) else None
    // A marshal error returns without removing the registration.
    case MarshalError(id) =>
      if Pc(s, id, Sending) then Some(SetPc(s, id, Returned(None))) else None
    case WriteOk(id) =>
      if Pc(s, id, Sending) then Some(SetPc(s, id, Waiting)) else None
    case WriteError(id) =>
      if Pc(s, id, Sending) then Some(SetPc(s, id, WriteFailed)) else None
    case Expire(id) =>
      if Pc(s, id, Waiting) then Some(SetPc(s, id, TimedOut)) else None
    case Unregister(id) =>
      if LockFree(s) && (Pc(s, id, WriteFailed) || Pc(s, id, TimedOut))
      then Some(SetPc(s, id, Returned(None)).(pending := s.pending - {id})) else None
    case Receive(id) =>
      if Pc(s, id, Waiting) && id in s.channel && s.channel[id] != []
      then Some(SetPc(s, id, Returned(Some(s.channel[id][0]))).(channel := s.channel[id := s.channel[id][1..]])) else None
    case ReaderTake(msg) =>
      if LockFree(s) && s.reader.None? && s.perms.asking == NotAsking && msg.FromPeer? then
        if msg.id in s.pending then Some(s.(pending := s.pending - {msg.id}, reader := Some(msg))) else Some(s)
      else None
    // A send on a full channel would block, so it is not enabled.
    case ReaderSend =>
      if s.reader.Some? && s.reader.value.FromPeer? && s.reader.value.id in s.channel && s.reader.value.id in s.sent
         && |s.channel[s.reader.value.id]| < 1
      then Some(Send(s, s.reader.value.id, s.reader.value).(reader := None)) else None
    case ProcessExit =>
      if s.wait == ProcessRuns then Some(s.(wait := Draining)) else None
    case DrainOne(id) =>
      if s.wait == Draining && id in s.pending && id in s.channel && id in s.sent && |s.channel[id]| < 1
      then Some(Send(s, id, ProcessExited).(pending := s.pending - {id})) else None
    case DrainEnd =>
      if s.wait == Draining && s.pending == {} && s.perms.pending == {} then Some(s.(wait := Exited)) else None
    case Permission(p) =>
      var after := PermissionStep(s.perms, LockFree(s), s.reader.None?, s.wait == Draining && s.pending == {}, p);
      if after.Some? then Some(s.(perms := after.value)) else None
  }

  predicate HasRoom(ps: Permissions, perm: int) {
    perm in ps.channel && ps.channel[perm] < 1
  }

  function SendTo(ps: Permissions, perm: int): Permissions
    requires perm in ps.channel
  {
    ps.(channel := ps.channel[perm := ps.channel[perm] + 1])
  }

  /** One step on the permission requests; a send on a full channel would block. */
  function PermissionStep(ps: Permissions, lockFree: bool, readerFree: bool, declining: bool, e: PermissionEvent): Option<Permissions> {
    match e
    case Ask =>
      if lockFree && readerFree && ps.asking == NotAsking then
        var perm := ps.last + 1;
        Some(Permissions(perm, Awaiting(perm), ps.pending + {perm}, ps.channel[perm := 0], ps.resolvers))
      else None
    case TakeDecision =>
      if ps.asking.Awaiting? && ps.asking.perm in ps.channel && ps.channel[ps.asking.perm] > 0
      then Some(ps.(asking := Leaving(ps.asking.perm), channel := ps.channel[ps.asking.perm := ps.channel[ps.asking.perm] - 1]))
      else None
    case GiveUp => if ps.asking.Awaiting? then Some(ps.(asking := Leaving(ps.asking.perm))) else None
    case StopAsking =>
      if lockFree && ps.asking.Leaving? then Some(ps.(asking := NotAsking, pending := ps.pending - {ps.asking.perm})) else None
    case LookUp(r, perm) =>
      if lockFree && perm in ps.pending && r !in ps.resolvers then Some(ps.(resolvers := ps.resolvers[r := perm])) else None
    case SendDecision(r) =>
      if r in ps.resolvers && HasRoom(ps, ps.resolvers[r])
      then Some(SendTo(ps, ps.resolvers[r]).(resolvers := ps.resolvers - {r})) else None
    case Decline(perm) =>
      if declining && perm in ps.pending && HasRoom(ps, perm)
      then Some(SendTo(ps, perm).(pending := ps.pending - {perm})) else None
  }

  ghost predicate Init(s: Session) {
    s == Session(0, map[], {}, map[], None, ProcessRuns, map[], Permissions(0, NotAsking, {}, map[], map[]))
  }

  ghost predicate IsRun(run: seq<Session>, events: seq<Event>) {
    && |run| == |events| + 1 && Init(run[0])
    && forall i | 0 <= i < |events| :: Next(run[i], events[i]) == Some(run[i + 1])
  }

  predicate Belongs(r: Reply, id: int) {
    r == ProcessExited || r.id == id
  }

  predicate ReaderHolds(s: Session, id: int) {
    s.reader.Some? && s.reader.value.FromPeer? && s.reader.value.id == id
  }

  /** Whoever removes an id from pendingCalls is its only sender: the right to send is in the
      map, with the reader, or used up. */
  ghost predicate CallOk(s: Session, id: int)
    requires id in s.calls
  {
    && id <= s.lastId && id in s.channel && id in s.sent
    && (s.calls[id] == Allocated ==> id !in s.pending && !ReaderHolds(s, id) && s.sent[id] == [])
    && |s.sent[id]| + (if id in s.pending then 1 else 0) + (if ReaderHolds(s, id) then 1 else 0) <= 1
    && (forall r | r in s.sent[id] :: Belongs(r, id))
    && (s.channel[id] == [] || s.channel[id] == s.sent[id])
    && (s.calls[id].Returned? && s.calls[id].got.Some? ==> s.sent[id] == [s.calls[id].got.value] && s.channel[id] == [])
  }

  /** Only the request the reader is busy with can be registered. */
  ghost predicate PermissionsOk(ps: Permissions) {
    && (ps.asking != NotAsking ==> ps.asking.perm in ps.channel)
    && (forall p | p in ps.pending :: ps.asking != NotAsking && ps.asking.perm == p)
    && (forall p | p in ps.channel :: p <= ps.last && ps.channel[p] <= 1)
    && (forall r | r in ps.resolvers :: ps.resolvers[r] in ps.channel)
  }

  ghost predicate CallsOk(s: Session) {
    && (forall id | id in s.calls :: CallOk(s, id))
    && s.pending <= s.calls.Keys
    && (s.reader.Some? ==> s.reader.value.FromPeer? && s.reader.value.id in s.calls)
  }

  ghost predicate Inv(s: Session) {
    CallsOk(s) && PermissionsOk(s.perms)
  }

  /** The caller's own steps. */
  lemma CallerInv(s: Session, e: Event)
    requires CallsOk(s) && Next(s, e).Some?
    requires e.Allocate? || e.Register? || e.MarshalError? || e.WriteOk? || e.WriteError? || e.Expire? || e.Unregister?
    ensures CallsOk(Next(s, e).value)
  {
    hide PermissionStep;
    var s' := Next(s, e).value;
    forall id | id in s'.calls ensures CallOk(s', id) {
      assert id in s.calls ==> CallOk(s, id);
    }
  }

  lemma ReceiveInv(s: Session, id: int)
    requires CallsOk(s) && Next(s, Receive(id)).Some?
    ensures CallsOk(Next(s, Receive(id)).value)
  {
    hide PermissionStep;
    var s' := Next(s, Receive(id)).value;
    forall i | i in s'.calls ensures CallOk(s', i) {
      assert CallOk(s, i);
    }
  }

  lemma ReaderInv(s: Session, e: Event)
    requires CallsOk(s) && Next(s, e).Some? && (e.ReaderTake? || e.ReaderSend?)
    ensures CallsOk(Next(s, e).value)
  {
    hide PermissionStep;
    var s' := Next(s, e).value;
    forall id | id in s'.calls ensures CallOk(s', id) {
      assert CallOk(s, id);
    }
  }

  lemma WaitInv(s: Session, e: Event)
    requires CallsOk(s) && Next(s, e).Some? && (e.ProcessExit? || e.DrainOne? || e.DrainEnd? || e.Permission?)
    ensures CallsOk(Next(s, e).value)
  {
    hide PermissionStep;
    var s' := Next(s, e).value;
    forall id | id in s'.calls ensures CallOk(s', id) {
      assert CallOk(s, id);
    }
  }

  lemma PermissionInv(ps: Permissions, lockFree: bool, readerFree: bool, declining: bool, e: PermissionEvent)
    requires PermissionsOk(ps) && PermissionStep(ps, lockFree, readerFree, declining, e).Some?
    ensures PermissionsOk(PermissionStep(ps, lockFree, readerFree, declining, e).value)
  {}

  lemma NextInv(s: Session, e: Event)
    requires Inv(s) && Next(s, e).Some?
    ensures Inv(Next(s, e).value)
  {
    hide CallsOk, PermissionsOk, PermissionStep;
    match e
    case Allocate | Register(_) | MarshalError(_) | WriteOk(_) | WriteError(_) | Expire(_) | Unregister(_) => CallerInv(s, e);
    case Receive(id) => ReceiveInv(s, id);
    case ReaderTake(_) | ReaderSend => ReaderInv(s, e);
    case ProcessExit | DrainOne(_) | DrainEnd => WaitInv(s, e);
    case Permission(p) =>
      WaitInv(s, e);
      PermissionInv(s.perms, LockFree(s), s.reader.None?, s.wait == Draining && s.pending == {}, p);
  }

  lemma {:induction false} RunInv(run: seq<Session>, events: seq<Event>, i: nat)
    requires IsRun(run, events) && i < |run|
    ensures Inv(run[i])
  {
    if i > 0 {
      var j := i - 1;
      RunInv(run, events, j);
      assert Next(run[j], events[j]) == Some(run[j + 1]);
      NextInv(run[j], events[j]);
    }
  }

  /** In every run each call's channel receives at most one value, ever: the reply bearing the
      call's own id or the exit error; and a call returns nothing else. */
  lemma AtMostOneReply(run: seq<Session>, events: seq<Event>, i: nat, id: int)
    requires IsRun(run, events) && i < |run| && id in run[i].calls
    ensures id in run[i].sent && |run[i].sent[id]| <= 1
    ensures forall r | r in run[i].sent[id] :: Belongs(r, id)
    ensures var pc := run[i].calls[id]; pc.Returned? && pc.got.Some? ==> run[i].sent[id] == [pc.got.value]
  {
    RunInv(run, events, i);
    assert CallOk(run[i], id);
  }

  // ---- No call is forgotten ------------------------------------------------------------------

  /** Registered and not yet returned: its right to one value is in the map, with the reader, or
      used up. */
  ghost predicate Accounted(s: Session, id: int)
    requires id in s.calls && id in s.sent
  {
    s.calls[id] in {Sending, WriteFailed, Waiting, TimedOut} ==>
      |s.sent[id]| + (if id in s.pending then 1 else 0) + (if ReaderHolds(s, id) then 1 else 0) == 1
  }

  ghost predicate AllAccounted(s: Session) {
    forall id | id in s.calls :: id in s.sent && Accounted(s, id)
  }

  lemma AccountedStep(s: Session, e: Event)
    requires CallsOk(s) && AllAccounted(s) && Next(s, e).Some?
    ensures AllAccounted(Next(s, e).value)
  {
    hide PermissionStep;
    var s' := Next(s, e).value;
    forall id | id in s'.calls ensures id in s'.sent && Accounted(s', id) {
      assert id in s.calls ==> CallOk(s, id) && Accounted(s, id);
    }
  }

  lemma {:induction false} AccountedInRun(run: seq<Session>, events: seq<Event>, i: nat)
    requires IsRun(run, events) && i < |run|
    ensures AllAccounted(run[i])
  {
    hide Next, CallsOk, PermissionsOk, Accounted;
    if i > 0 {
      var j := i - 1;
      AccountedInRun(run, events, j);
      RunInv(run, events, j);
      assert Next(run[j], events[j]) == Some(run[j + 1]);
      AccountedStep(run[j], events[j]);
    }
  }

  /** Only a marshal error leaves a call registered after it has returned. */
  lemma LeakStep(s: Session, e: Event, id: int)
    requires CallsOk(s) && Next(s, e).Some?
    requires var s' := Next(s, e).value; id in s'.calls && id in s'.pending && s'.calls[id].Returned?
    ensures e == MarshalError(id) || (id in s.calls && id in s.pending && s.calls[id].Returned?)
  {
    hide PermissionStep;
    assert id in s.calls ==> CallOk(s, id);
  }

  lemma {:induction false} LeakedByMarshalError(run: seq<Session>, events: seq<Event>, i: nat, id: int)
    requires IsRun(run, events) && i < |run| && id in run[i].calls && id in run[i].pending && run[i].calls[id].Returned?
    ensures exists j | 0 <= j < i :: events[j] == MarshalError(id)
  {
    hide Next, CallsOk, PermissionsOk;
    if i > 0 {
      var j := i - 1;
      RunInv(run, events, j);
      assert Next(run[j], events[j]) == Some(run[j + 1]);
      LeakStep(run[j], events[j], id);
      if events[j] != MarshalError(id) {
        LeakedByMarshalError(run, events, j, id);
      }
    }
  }

  /** In every run a call that has not returned is registered, or its reply is with the reader,
      or it has been sent, and only one of these; and a call that has returned is registered no
      longer, unless its request could not be marshalled. */
  lemma NoCallIsForgotten(run: seq<Session>, events: seq<Event>, i: nat, id: int)
    requires IsRun(run, events) && i < |run| && id in run[i].calls
    ensures id in run[i].sent
    ensures var s := run[i]; var sent := s.sent[id] != [];
            && (s.calls[id] in {Sending, WriteFailed, Waiting, TimedOut} ==>
                  && (id in s.pending || ReaderHolds(s, id) || sent)
                  && !(id in s.pending && ReaderHolds(s, id)) && !(id in s.pending && sent) && !(ReaderHolds(s, id) && sent))
            && (s.calls[id].Returned? && id in s.pending ==> exists j | 0 <= j < i :: events[j] == MarshalError(id))
  {
    hide Next, IsRun;
    RunInv(run, events, i);
    AccountedInRun(run, events, i);
    assert CallOk(run[i], id) && Accounted(run[i], id);
    if run[i].calls[id].Returned? && id in run[i].pending {
      LeakedByMarshalError(run, events, i, id);
    }
  }

  /** No send on a call's channel ever finds it full: neither the reader's nor those wait makes
      under the session lock. */
  lemma NoSendBlocks(run: seq<Session>, events: seq<Event>, i: nat)
    requires IsRun(run, events) && i < |run|
    ensures run[i].reader.Some? ==> Next(run[i], ReaderSend).Some?
    ensures run[i].wait == Draining ==>
              forall id | id in run[i].pending :: Next(run[i], DrainOne(id)).Some?
  {
    RunInv(run, events, i);
    var s := run[i];
    if s.reader.Some? {
      assert CallOk(s, s.reader.value.id);
    }
    forall id | id in s.pending ensures id in s.channel && id in s.sent && |s.channel[id]| < 1 {
      assert CallOk(s, id);
    }
  }

  // ---- wait's loops under the lock -------------------------------------------------------------

  ghost predicate IsPath(run: seq<Session>, events: seq<Event>, s: Session) {
    && |run| == |events| + 1 && run[0] == s
    && forall i | 0 <= i < |events| :: Next(run[i], events[i]) == Some(run[i + 1])
  }

  lemma PathFrom(s: Session, e: Event, s1: Session, more: seq<Session>, rest: seq<Event>) returns (run: seq<Session>, events: seq<Event>)
    requires Next(s, e) == Some(s1) && IsPath(more, rest, s1)
    ensures IsPath(run, events, s) && run == [s] + more && events == [e] + rest
  {
    hide Next;
    run, events := [s] + more, [e] + rest;
    forall i | 0 <= i < |events| ensures Next(run[i], events[i]) == Some(run[i + 1]) {
      if i > 0 {
        assert Next(more[i - 1], rest[i - 1]) == Some(more[i]);
      }
    }
  }

  /** The peer's reply to a call still waiting for it reaches exactly that call, once the reader
      is free of other requests. */
  lemma ReplyIsDelivered(s: Session, msg: Reply)
    requires Inv(s) && LockFree(s) && s.reader.None? && s.perms.asking == NotAsking && msg.FromPeer?
    requires msg.id in s.pending && Pc(s, msg.id, Waiting)
    ensures var s1 := Next(s, ReaderTake(msg));
            && s1.Some? && Next(s1.value, ReaderSend).Some?
            && var s2 := Next(s1.value, ReaderSend).value;
               && Next(s2, Receive(msg.id)).Some?
               && Next(s2, Receive(msg.id)).value.calls == s.calls[msg.id := Returned(Some(msg))]
  {
    hide PermissionStep, PermissionsOk;
    assert CallOk(s, msg.id);
  }

  /** wait's first loop ends: each iteration empties one entry, and every call that was pending
      gets the exit error. */
  lemma {:induction false} CallsAreDrained(s: Session) returns (run: seq<Session>, events: seq<Event>)
    requires Inv(s) && s.wait == Draining
    ensures IsPath(run, events, s) && |events| == |s.pending|
    ensures var s' := run[|events|];
            && Inv(s') && s'.wait == Draining && s'.pending == {} && s'.calls == s.calls && s'.perms == s.perms
            && (forall id | id in s.pending :: id in s'.sent && s'.sent[id] == [ProcessExited])
            && (forall id | id in s.calls && id !in s.pending :: id in s'.sent && s'.sent[id] == s.sent[id])
    decreases |s.pending|
  {
    if s.pending != {} {
      var id := Pick(s.pending);
      assert CallOk(s, id);
      var s1 := Next(s, DrainOne(id)).value;
      NextInv(s, DrainOne(id));
      var more, rest := CallsAreDrained(s1);
      run, events := PathFrom(s, DrainOne(id), s1, more, rest);
    } else {
      forall id | id in s.calls ensures id in s.sent {
        assert CallOk(s, id);
      }
      run, events := [s], [];
    }
  }

  /** A registered request whose slot is taken and whose awaiter has left its select: nobody will
      empty the slot, and the awaiter needs the lock to unregister. */
  ghost predicate Jammed(s: Session) {
    s.wait == Draining && exists p | p in s.perms.pending :: !HasRoom(s.perms, p) && !s.perms.asking.Awaiting?
  }

  /** Nothing is in a registered request's slot or on its way there. */
  ghost predicate Quiet(ps: Permissions) {
    forall p | p in ps.pending :: HasRoom(ps, p) && forall r | r in ps.resolvers :: ps.resolvers[r] != p
  }

  lemma JammedStays(s: Session, e: Event)
    requires Inv(s) && Jammed(s) && Next(s, e).Some?
    ensures Jammed(Next(s, e).value)
  {
    hide CallsOk;
  }

  /** Once jammed, wait never gets past its send: it holds the lock in every continuation. */
  lemma {:induction false} JammedForever(s: Session, run: seq<Session>, events: seq<Event>, i: nat)
    requires Inv(s) && Jammed(s) && IsPath(run, events, s) && i < |run|
    ensures Inv(run[i]) && Jammed(run[i]) && run[i].wait == Draining
  {
    hide Inv;
    if i > 0 {
      hide Jammed, Next;
      var j := i - 1;
      JammedForever(s, run, events, j);
      assert Next(run[j], events[j]) == Some(run[j + 1]);
      NextInv(run[j], events[j]);
      JammedStays(run[j], events[j]);
      JammedHoldsLock(run[i]);
    }
  }

  lemma JammedHoldsLock(s: Session)
    requires Jammed(s)
    ensures s.wait == Draining
  {}

  /** The second loop, when every channel has room or is about to be read. */
  lemma Declines(s: Session) returns (run: seq<Session>, events: seq<Event>)
    requires Inv(s) && s.wait == Draining && s.pending == {} && !Jammed(s)
    ensures IsPath(run, events, s) && run[|events|].wait == Exited && run[|events|].calls == s.calls && run[|events|].sent == s.sent
  {
    hide CallsOk;
    if s.perms.pending == {} {
      run, events := [s, s.(wait := Exited)], [DrainEnd];
    } else {
      var p := Pick(s.perms.pending);
      assert forall q | q in s.perms.pending :: q == p;
      if HasRoom(s.perms, p) {
        var s1 := Next(s, Permission(Decline(p))).value;
        assert s1.perms.pending == {};
        run, events := PathFrom(s, Permission(Decline(p)), s1, [s1, s1.(wait := Exited)], [DrainEnd]);
      } else {
        var s1 := Next(s, Permission(TakeDecision)).value;
        var s2 := Next(s1, Permission(Decline(p))).value;
        assert s2.perms.pending == {};
        run, events := PathFrom(s1, Permission(Decline(p)), s2, [s2, s2.(wait := Exited)], [DrainEnd]);
        run, events := PathFrom(s, Permission(TakeDecision), s1, run, events);
      }
    }
  }

  lemma {:induction false} Append(a: seq<Session>, as_: seq<Event>, b: seq<Session>, bs: seq<Event>, s: Session)
      returns (run: seq<Session>, events: seq<Event>)
    requires IsPath(a, as_, s) && IsPath(b, bs, a[|as_|])
    ensures IsPath(run, events, s) && run[|events|] == b[|bs|]
  {
    hide Next;
    run, events := a + b[1..], as_ + bs;
    forall i | 0 <= i < |events| ensures Next(run[i], events[i]) == Some(run[i + 1]) {
      if i < |as_| {
        assert Next(a[i], as_[i]) == Some(a[i + 1]);
      } else {
        assert Next(b[i - |as_|], bs[i - |as_|]) == Some(b[i - |as_| + 1]);
        assert run[i] == b[i - |as_|];
      }
    }
  }

  /** wait has let go of the lock, the calls that were pending have got the exit error, and no
      other call has got anything. */
  ghost predicate Released(s: Session, s': Session) {
    && s'.wait == Exited && s'.calls == s.calls
    && (forall id | id in s.pending :: id in s'.sent && s'.sent[id] == [ProcessExited])
    && (forall id | id in s.calls && id !in s.pending :: id in s'.sent && s.sent.Keys >= {id} && s'.sent[id] == s.sent[id])
  }

  /** wait can finish its loops and release the lock iff it is not jammed. */
  lemma DrainFinishesExactly(s: Session)
    requires Inv(s) && s.wait == Draining
    ensures !Jammed(s) <==> exists run: seq<Session>, events: seq<Event> :: IsPath(run, events, s) && Released(s, run[|events|])
  {
    hide Inv, Jammed;
    if !Jammed(s) {
      var a, as_ := CallsAreDrained(s);
      SameJam(s, a[|as_|]);
      var b, bs := Declines(a[|as_|]);
      var run, events := Append(a, as_, b, bs, s);
      SentToCalls(s);
      assert Released(s, run[|events|]);
    } else {
      forall run: seq<Session>, events: seq<Event> | IsPath(run, events, s) ensures run[|events|].wait != Exited {
        JammedForever(s, run, events, |events|);
      }
    }
  }

  lemma SentToCalls(s: Session)
    requires Inv(s)
    ensures forall id | id in s.calls :: id in s.sent
  {
    hide PermissionsOk;
    forall id | id in s.calls ensures id in s.sent {
      assert CallOk(s, id);
    }
  }

  lemma SameJam(s: Session, s': Session)
    requires s.wait == s'.wait && s.perms == s'.perms
    ensures Jammed(s) == Jammed(s')
  {}

  lemma QuietStays(s: Session, e: Event)
    requires Inv(s) && s.wait == Draining && Quiet(s.perms) && Next(s, e).Some? && Next(s, e).value.wait == Draining
    ensures Quiet(Next(s, e).value.perms)
  {
    hide CallsOk;
  }

  lemma {:induction false} QuietNeverJams(s: Session, run: seq<Session>, events: seq<Event>, i: nat)
    requires Inv(s) && s.wait == Draining && Quiet(s.perms) && IsPath(run, events, s) && i < |run|
    ensures Inv(run[i]) && !Jammed(run[i]) && run[i].wait != ProcessRuns && (run[i].wait == Draining ==> Quiet(run[i].perms))
  {
    hide CallsOk, PermissionsOk, PermissionStep;
    if i > 0 {
      var j := i - 1;
      QuietNeverJams(s, run, events, j);
      assert Next(run[j], events[j]) == Some(run[j + 1]);
      NextInv(run[j], events[j]);
      WaitOrder(run[j], events[j]);
      if run[i].wait == Draining {
        QuietStays(run[j], events[j]);
      }
    }
  }

  lemma WaitOrder(s: Session, e: Event)
    requires Next(s, e).Some? && s.wait != ProcessRuns
    ensures Next(s, e).value.wait != ProcessRuns
    ensures Next(s, e).value.wait == Draining ==> s.wait == Draining
  {
    hide PermissionStep;
  }

  /** A decision already in a slot, or about to be sent there, can still jam wait. */
  lemma UnquietCanJam(s: Session) returns (run: seq<Session>, events: seq<Event>)
    requires Inv(s) && s.wait == Draining && !Quiet(s.perms)
    ensures IsPath(run, events, s) && Jammed(run[|events|])
  {
    hide CallsOk;
    var p :| p in s.perms.pending && !(HasRoom(s.perms, p) && forall r | r in s.perms.resolvers :: s.perms.resolvers[r] != p);
    run, events := [s], [];
    var s1 := s;
    if HasRoom(s.perms, p) {
      var r :| r in s.perms.resolvers && s.perms.resolvers[r] == p;
      s1 := Next(s, Permission(SendDecision(r))).value;
      run, events := [s, s1], [Permission(SendDecision(r))];
    }
    assert p in s1.perms.pending && !HasRoom(s1.perms, p) && s1.wait == Draining && s1.perms.asking == s.perms.asking;
    if s1.perms.asking.Awaiting? {
      var s2 := Next(s1, Permission(GiveUp)).value;
      run, events := run + [s2], events + [Permission(GiveUp)];
    }
  }

  /** From the moment the process has exited, wait is safe from jamming, however the others
      move, iff no decision is in a registered request's slot or on its way there. */
  lemma NeverJamsExactly(s: Session)
    requires Inv(s) && s.wait == Draining
    ensures Quiet(s.perms) <==> forall run: seq<Session>, events: seq<Event> | IsPath(run, events, s) :: !Jammed(run[|events|])
  {
    hide Inv, Jammed, Quiet;
    if Quiet(s.perms) {
      forall run: seq<Session>, events: seq<Event> | IsPath(run, events, s) ensures !Jammed(run[|events|]) {
        QuietNeverJams(s, run, events, |events|);
      }
    } else {
      var run, events := UnquietCanJam(s);
    }
  }

  const NO_REQUEST := Permissions(0, NotAsking, {}, map[], map[])
  const REQUESTED := Permissions(1, Awaiting(1), {1}, map[1 := 0], map[])
  const TIMED_OUT := Permissions(1, Leaving(1), {1}, map[1 := 0], map[0 := 1])
  const DECIDED_LATE := Permissions(1, Leaving(1), {1}, map[1 := 1], map[])

  lemma JamSteps()
    ensures PermissionStep(NO_REQUEST, true, true, false, Ask) == Some(REQUESTED)
    ensures PermissionStep(REQUESTED, true, true, false, LookUp(0, 1)) == Some(REQUESTED.(resolvers := map[0 := 1]))
    ensures PermissionStep(REQUESTED.(resolvers := map[0 := 1]), true, true, false, GiveUp) == Some(TIMED_OUT)
    ensures PermissionStep(TIMED_OUT, true, true, false, SendDecision(0)) == Some(DECIDED_LATE)
  {
    assert {} + {1} == {1} && map[1 := 0][1 := 1] == map[1 := 1] && map[0 := 1] - {0} == map[];
  }

  /** A run that jams: a request times out while a decision for it is being sent, and the
      process exits before the reader gets the lock to unregister it. */
  lemma PermissionJamsWait() returns (run: seq<Session>, events: seq<Event>)
    ensures IsRun(run, events) && Jammed(run[|events|])
  {
    hide PermissionStep;
    JamSteps();
    var s := Session(0, map[], {}, map[], None, ProcessRuns, map[], NO_REQUEST);
    run := [s, s.(perms := REQUESTED), s.(perms := REQUESTED.(resolvers := map[0 := 1])), s.(perms := TIMED_OUT),
            s.(perms := DECIDED_LATE), s.(perms := DECIDED_LATE, wait := Draining)];
    events := [Permission(Ask), Permission(LookUp(0, 1)), Permission(GiveUp), Permission(SendDecision(0)), ProcessExit];
    assert 1 in DECIDED_LATE.pending && !HasRoom(DECIDED_LATE, 1);
  }
}
