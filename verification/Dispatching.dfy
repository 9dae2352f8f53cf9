/** The dispatcher's tick: how many ready tasks it starts, and which. */
module Dispatching {
  import opened TaskDag

  datatype Level = Normal | Reduced | Critical

  /** QueuePressureDecision, as far as the tick looks at it. */
  datatype Pressure = Pressure(level: Level, shouldPause: bool, maxDispatch: int)

  /** UPDATE tasks SET status = 'running' WHERE id = ? */
  function Started(tasks: seq<Task>, id: Id): seq<Task> {
    seq(|tasks|, i requires 0 <= i < |tasks| => if tasks[i].id == id then tasks[i].(status := Running) else tasks[i])
  }

  class Dispatcher {
    var userPaused: bool
    var queuePressured: bool
    var pressure: Pressure
    var tasks: seq<Task>
    var deps: Deps
    var running: nat        // agents running
    const maxSlots: int

    constructor (maxSlots: int, tasks: seq<Task>, deps: Deps)
      ensures this.maxSlots == maxSlots && this.tasks == tasks && this.deps == deps && running == 0
      ensures !userPaused && !queuePressured && !pressure.shouldPause
    {
      this.maxSlots, this.tasks, this.deps, running := maxSlots, tasks, deps, 0;
      userPaused, queuePressured, pressure := false, false, Pressure(Normal, false, 0);
    }

    /** The loop over the batch; `starts` says whose dispatch succeeds. */
    method DispatchAll(batch: seq<Task>, starts: Id -> bool)
      modifies this`tasks, this`running
      ensures running == old(running) + Starts(batch, |batch|, starts)
      ensures |tasks| == |old(tasks)|
      ensures forall i | 0 <= i < |tasks| ::
                tasks[i] == if IsStarted(old(tasks)[i].id, batch, |batch|, starts) then old(tasks)[i].(status := Running) else old(tasks)[i]
    {
      for i := 0 to |batch|
        invariant running == old(running) + Starts(batch, i, starts)
        invariant |tasks| == |old(tasks)|
        invariant forall k | 0 <= k < |tasks| ::
                    tasks[k] == if IsStarted(old(tasks)[k].id, batch, i, starts) then old(tasks)[k].(status := Running) else old(tasks)[k]
      {
        if starts(batch[i].id) {
          tasks := Started(tasks, batch[i].id);
          running := running + 1;
        }
      }
    }

    /** Tick: nothing starts while dispatching is held; else at most the free slots are used,
        under reduced pressure at most its limit, only ready tasks start, best first, and a ready
        task is left out only when that is used up. Every start is counted as a running agent and
        nothing else changes. */
    method Tick(starts: Id -> bool) returns (batch: seq<Task>)
      modifies this`tasks, this`running
      ensures running == old(running) + Starts(batch, |batch|, starts)
      ensures userPaused || queuePressured || pressure.shouldPause || old(running) >= maxSlots ==> batch == []
      ensures batch != [] ==> old(running) + |batch| <= maxSlots
      ensures pressure.level == Reduced && pressure.maxDispatch > 0 ==> |batch| <= pressure.maxDispatch
      ensures forall t | t in batch :: t in old(tasks) && IsReady(old(tasks), deps, t)
      ensures !(userPaused || queuePressured || pressure.shouldPause) ==>
                forall t | t in old(tasks) && IsReady(old(tasks), deps, t) && t !in batch ::
                  && (forall b | b in batch :: Before(b, t))
                  && (|batch| >= maxSlots - old(running)
                      || (pressure.level == Reduced && pressure.maxDispatch > 0 && |batch| == pressure.maxDispatch))
      ensures |tasks| == |old(tasks)|
      ensures forall i | 0 <= i < |tasks| ::
                tasks[i] == if IsStarted(old(tasks)[i].id, batch, |batch|, starts) then old(tasks)[i].(status := Running) else old(tasks)[i]
    {
      hide IsReady, ReadySorted, TasksReady, IsStarted, Starts;
      batch := [];
      var slots := maxSlots - running;
      if userPaused || queuePressured || pressure.shouldPause {
        slots := 0;
      } else if pressure.level == Reduced && pressure.maxDispatch > 0 && slots > pressure.maxDispatch {
        slots := pressure.maxDispatch;
      }
      if slots > 0 {
        TasksReadyIsTheBestBatch(tasks, deps, slots);
        batch := TasksReady(tasks, deps, slots);
      }
      DispatchAll(batch, starts);
    }
  }

  /** How many of the first n of the batch are dispatched. */
  function Starts(batch: seq<Task>, n: nat, starts: Id -> bool): (count: nat)
    requires n <= |batch|
    ensures count <= n
  {
    if n == 0 then 0 else Starts(batch, n - 1, starts) + (if starts(batch[n - 1].id) then 1 else 0)
  }

  /** What happens to the number of running agents: a tick with some batch, or agents end. */
  datatype Change = Ticked(batch: seq<Task>, starts: Id -> bool) | Ended(agents: nat)

  /** The counts before and after each change, a tick's as its contract says. */
  ghost predicate IsHistory(maxSlots: int, counts: seq<nat>, changes: seq<Change>) {
    && |counts| == |changes| + 1
    && forall i | 0 <= i < |changes| ::
         match changes[i]
         case Ticked(batch, starts) =>
           && counts[i + 1] == counts[i] + Starts(batch, |batch|, starts)
           && (batch != [] ==> counts[i] + |batch| <= maxSlots)
         case Ended(agents) => counts[i + 1] + agents == counts[i]
  }

  /** Over any series of ticks and endings of agents, no more agents run than there are slots,
      unless more ran at the start. */
  lemma {:induction false} NeverMoreThanSlots(maxSlots: int, counts: seq<nat>, changes: seq<Change>, i: nat)
    requires IsHistory(maxSlots, counts, changes) && i < |counts|
    ensures counts[i] <= maxSlots || counts[i] <= counts[0]
  {
    if i > 0 {
      var j := i - 1;
      NeverMoreThanSlots(maxSlots, counts, changes, j);
      match changes[j] {
        case Ticked(batch, starts) =>
          assert counts[j + 1] == counts[j] + Starts(batch, |batch|, starts);
        case Ended(agents) =>
          assert counts[j + 1] + agents == counts[j];
      }
    }
  }

  /** One of the first n of the batch has the id and is dispatched. */
  ghost predicate IsStarted(id: Id, batch: seq<Task>, n: nat, starts: Id -> bool)
    requires n <= |batch|
  {
    exists k | 0 <= k < n :: batch[k].id == id && starts(id)
  }
}
