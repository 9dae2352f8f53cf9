/** Workflow routing: templates, RouteStep, and when every run of a template ends. */
module Workflow {
  import opened Options
  import opened Digraph
  import opened Sets

  type Name = string

  const COMPLETE: Name := "complete"

  datatype Kind = Agent | Deterministic | OtherKind

  datatype Step = Step(kind: Kind, command: string, maxRetries: int, onSuccess: Name, onFailure: Name)

  datatype Template = Template(name: string, entry: Name, steps: map<Name, Step>)

  datatype Status = Pending | Running | Done | Failed | Blocked

  /** The columns of a tasks row that routing reads and writes. */
  datatype Row = Row(status: Status, step: Name, attempts: map<Name, nat>)

  /** template.Validate; a compiled graph has the same nodes and edges. */
  predicate Validate(t: Template) {
    && t.name != "" && t.entry != "" && t.entry in t.steps
    && forall n | n in t.steps ::
         && (t.steps[n].kind == Agent || (t.steps[n].kind == Deterministic && t.steps[n].command != ""))
         && (t.steps[n].onSuccess in {COMPLETE, ""} || t.steps[n].onSuccess in t.steps)
         && (t.steps[n].onFailure in {COMPLETE, ""} || t.steps[n].onFailure in t.steps)
  }

  function Attempts(row: Row, n: Name): nat {
    if n in row.attempts then row.attempts[n] else 0
  }

  /** What RouteStep decides from the row it read. */
  datatype Decision = UnknownStep | Block | Fail | Complete | Advance(next: Name, attempts: map<Name, nat>)

  function Destination(s: Step, success: bool): Name {
    var next := if success then s.onSuccess else s.onFailure;
    if next == "" then COMPLETE else next
  }

  /** routeStepWithGraph and routeStepWithTemplate up to their guarded write. */
  function Decide(t: Template, seen: Row, step: Name, success: bool, oscillates: bool): Decision {
    if step !in t.steps then UnknownStep
    else
      var next := Destination(t.steps[step], success);
      if next == COMPLETE then Complete
      else if !success && oscillates then Block
      else if !success && next in t.steps && t.steps[next].maxRetries > 0
              && Attempts(seen, next) >= t.steps[next].maxRetries then Fail
      else Advance(next, seen.attempts[next := Attempts(seen, next) + 1])
  }

  /** TaskSetStatusIfRunning and TaskSetStepIfRunning. */
  function Write(row: Row, step: Name, d: Decision): Row {
    if row.status != Running then row
    else
      match d
      case UnknownStep => row
      case Block => row.(status := Blocked)
      case Fail => row.(status := Failed)
      case Complete => row.(status := Done)
      case Advance(next, attempts) => if row.step == step then Row(Pending, next, attempts) else row
  }

  /** A RouteStep call that nothing interrupts. */
  function Route(t: Template, row: Row, step: Name, success: bool, oscillates: bool): Row {
    Write(row, step, Decide(t, row, step, success, oscillates))
  }

  /** dispatchTemplate: a pending task enters its step, or the entry step, and runs. */
  function Dispatch(t: Template, row: Row): Row {
    row.(status := Running, step := if row.step == "" then t.entry else row.step)
  }

  /** The loop that copies StepAttempts before changing one entry. */
  method CopyOf(attempts: map<Name, nat>) returns (copy: map<Name, nat>)
    ensures copy == attempts
  {
    copy := map[];
    var todo := attempts.Keys;
    while todo != {}
      invariant todo <= attempts.Keys && copy.Keys == attempts.Keys - todo
      invariant forall k | k in copy :: copy[k] == attempts[k]
      decreases |todo|
    {
      var k :| k in todo;
      copy := copy[k := attempts[k]];
      todo := todo - {k};
    }
  }

  /** The tasks row as an object, with the store's guarded updates. */
  class TaskRow {
    var row: Row

    constructor (r: Row)
      ensures row == r
    {
      row := r;
    }

    method SetStatusIfRunning(st: Status)
      modifies this
      ensures row == if old(row).status == Running then old(row).(status := st) else old(row)
    {
      if row.status == Running {
        row := row.(status := st);
      }
    }

    method SetStepIfRunning(oldStep: Name, newStep: Name, attempts: map<Name, nat>) returns (advanced: bool)
      modifies this
      ensures advanced == (old(row).status == Running && old(row).step == oldStep)
      ensures row == if advanced then Row(Pending, newStep, attempts) else old(row)
    {
      advanced := row.step == oldStep && row.status == Running;
      if advanced {
        row := Row(Pending, newStep, attempts);
      }
    }

    /** RouteStep: read the row, choose the edge, check the budget, write under the guard. */
    method RouteStep(t: Template, step: Name, success: bool, oscillates: bool) returns (known: bool)
      modifies this
      ensures known == (step in t.steps)
      ensures row == Route(t, old(row), step, success, oscillates)
    {
      var seen := row;
      known := step in t.steps;
      if !known {
        return;
      }
      var next := if success then t.steps[step].onSuccess else t.steps[step].onFailure;
      if next == "" {
        next := COMPLETE;
      }
      if !success && next != COMPLETE {
        if oscillates {
          SetStatusIfRunning(Blocked);
          return;
        }
        if next in t.steps && t.steps[next].maxRetries > 0 && Attempts(seen, next) >= t.steps[next].maxRetries {
          SetStatusIfRunning(Failed);
          return;
        }
      }
      if next == COMPLETE {
        SetStatusIfRunning(Done);
        return;
      }
      var newAttempts := CopyOf(seen.attempts);
      newAttempts := newAttempts[next := Attempts(seen, next) + 1];
      var _ := SetStepIfRunning(step, next, newAttempts);
    }
  }

  // ---- Runs of one task ------------------------------------------------------------------

  datatype Result = Result(success: bool, oscillates: bool)

  /** One dispatch followed by the routing of its outcome. */
  function Round(t: Template, row: Row, o: Result): Row {
    var running := Dispatch(t, row);
    Route(t, running, running.step, o.success, o.oscillates)
  }

  /** Rounds of one task without operator resets: each begins pending. */
  ghost predicate IsRun(t: Template, rows: seq<Row>, results: seq<Result>) {
    && |rows| == |results| + 1
    && forall i | 0 <= i < |results| :: rows[i].status == Pending && rows[i + 1] == Round(t, rows[i], results[i])
  }

  predicate InTemplate(t: Template, row: Row) {
    row.step == "" || row.step in t.steps
  }

  lemma RoundStaysInTemplate(t: Template, row: Row, o: Result)
    requires Validate(t) && InTemplate(t, row)
    ensures InTemplate(t, Round(t, row, o))
  {}

  /** A run never routes to a step the template does not define. */
  lemma {:induction false} NeverUndefined(t: Template, rows: seq<Row>, results: seq<Result>, i: nat)
    requires Validate(t) && IsRun(t, rows, results) && i < |rows| && InTemplate(t, rows[0])
    ensures InTemplate(t, rows[i])
  {
    if i > 0 {
      NeverUndefined(t, rows, results, i - 1);
      RoundStaysInTemplate(t, rows[i - 1], results[i - 1]);
    }
  }

  /** The edges RouteStep follows without consulting a budget: every success edge, and
      failure edges into steps whose retries are unlimited. */
  predicate IsFree(t: Template, a: Name, b: Name) {
    && a in t.steps && b in t.steps && b != COMPLETE
    && (Destination(t.steps[a], true) == b || (Destination(t.steps[a], false) == b && t.steps[b].maxRetries <= 0))
  }

  ghost function FreeEdges(t: Template): set<(Name, Name)> {
    set a, b | a in t.steps && b in t.steps && IsFree(t, a, b) :: (a, b)
  }

  function Left(t: Template, row: Row, n: Name): nat
    requires n in t.steps
  {
    if t.steps[n].maxRetries > Attempts(row, n) then t.steps[n].maxRetries - Attempts(row, n) else 0
  }

  /** Retries still unspent over a set of steps. */
  ghost function Unspent(t: Template, row: Row, names: set<Name>): nat
    requires names <= t.steps.Keys
  {
    if names == {} then 0
    else
      var n :| n in names;
      Left(t, row, n) + Unspent(t, row, names - {n})
  }

  lemma {:induction false} UnspentSplit(t: Template, row: Row, names: set<Name>, n: Name)
    requires names <= t.steps.Keys && n in names
    ensures Unspent(t, row, names) == Left(t, row, n) + Unspent(t, row, names - {n})
  {
    var m :| m in names && Unspent(t, row, names) == Left(t, row, m) + Unspent(t, row, names - {m});
    if m != n {
      UnspentSplit(t, row, names - {m}, n);
      UnspentSplit(t, row, names - {n}, m);
      assert names - {m} - {n} == names - {n} - {m};
    }
  }

  /** More attempts leave less unspent. */
  lemma {:induction false} UnspentMonotone(t: Template, a: Row, b: Row, names: set<Name>)
    requires names <= t.steps.Keys && forall n | n in names :: Left(t, b, n) <= Left(t, a, n)
    ensures Unspent(t, b, names) <= Unspent(t, a, names)
  {
    if names != {} {
      var n :| n in names && Unspent(t, b, names) == Left(t, b, n) + Unspent(t, b, names - {n});
      UnspentSplit(t, a, names, n);
      UnspentMonotone(t, a, b, names - {n});
    }
  }

  ghost function Budget(t: Template): nat {
    Unspent(t, Row(Pending, "", map[]), t.steps.Keys)
  }

  /** Lexicographic measure: unspent retries first, then what lies below by free edges. */
  ghost function Measure(t: Template, row: Row): nat {
    Unspent(t, row, t.steps.Keys) * |t.steps.Keys|
    + |Below(FreeEdges(t), t.steps.Keys, Dispatch(t, row).step)|
  }

  lemma RankBound(t: Template, n: Name)
    requires Acyclic(FreeEdges(t)) && n in t.steps
    ensures |Below(FreeEdges(t), t.steps.Keys, n)| < |t.steps.Keys|
  {
    NotBelowItself(FreeEdges(t), t.steps.Keys, n);
    SubsetSmaller(Below(FreeEdges(t), t.steps.Keys, n), t.steps.Keys);
  }

  lemma MulLess(u: nat, v: nat, n: nat)
    requires u < v
    ensures u * n + n <= v * n
  {
    assert v * n == (u + 1) * n + (v - u - 1) * n;
  }

  /** A round that leaves the task pending enters one step, counts it, and either follows a
      free edge or spends a retry of the step it enters. */
  lemma RoundShape(t: Template, row: Row, o: Result)
    requires Validate(t) && InTemplate(t, row) && Round(t, row, o).status == Pending
    ensures var a, row' := Dispatch(t, row).step, Round(t, row, o); var b := row'.step;
            && a in t.steps && b in t.steps && b != ""
            && row'.attempts == row.attempts[b := Attempts(row, b) + 1]
            && (IsFree(t, a, b) || Left(t, row', b) < Left(t, row, b))
  {}

  /** Lexicographic descent turned into descent of one number. */
  lemma LexDescends(u: nat, v: nat, x: nat, y: nat, n: nat)
    requires x < n && y < n && (v < u || (v <= u && y < x))
    ensures v * n + y < u * n + x
  {
    if v < u {
      MulLess(v, u, n);
    }
  }

  /** A round that leaves the task pending lowers the measure. */
  lemma RoundDescends(t: Template, row: Row, o: Result)
    requires Validate(t) && Acyclic(FreeEdges(t)) && InTemplate(t, row)
    requires Round(t, row, o).status == Pending
    ensures Measure(t, Round(t, row, o)) < Measure(t, row)
  {
    RoundShape(t, row, o);
    var a, row', names := Dispatch(t, row).step, Round(t, row, o), t.steps.Keys;
    var b := row'.step;
    hide Round, Acyclic, Below, Unspent, Validate;
    assert forall n | n in names :: Left(t, row', n) <= Left(t, row, n);
    UnspentMonotone(t, row, row', names);
    RankBound(t, a);
    RankBound(t, b);
    if IsFree(t, a, b) {
      assert (a, b) in FreeEdges(t);
      EdgeDescends(FreeEdges(t), names, a, b);
    } else {
      UnspentSplit(t, row, names, b);
      UnspentSplit(t, row', names, b);
      UnspentMonotone(t, row, row', names - {b});
    }
    LexDescends(Unspent(t, row, names), Unspent(t, row', names),
                |Below(FreeEdges(t), names, a)|, |Below(FreeEdges(t), names, b)|, |names|);
  }

  lemma {:induction false} RunDescends(t: Template, rows: seq<Row>, results: seq<Result>, i: nat)
    requires Validate(t) && Acyclic(FreeEdges(t)) && IsRun(t, rows, results) && InTemplate(t, rows[0])
    requires i < |results|
    ensures Measure(t, rows[i]) + i <= Measure(t, rows[0])
  {
    hide Round, Measure, Acyclic, Validate, InTemplate, FreeEdges;
    if i > 0 {
      var j := i - 1;
      RunDescends(t, rows, results, j);
      NeverUndefined(t, rows, results, j);
      assert rows[i].status == Pending && rows[j + 1] == Round(t, rows[j], results[j]);
      RoundDescends(t, rows[j], results[j]);
    }
  }

  lemma MeasureBound(t: Template, row: Row)
    requires Validate(t) && Acyclic(FreeEdges(t)) && InTemplate(t, row)
    ensures Measure(t, row) < (Budget(t) + 1) * |t.steps.Keys|
  {
    var u, n := Unspent(t, row, t.steps.Keys), |t.steps.Keys|;
    RankBound(t, Dispatch(t, row).step);
    UnspentMonotone(t, Row(Pending, "", map[]), row, t.steps.Keys);
    MulLess(u, Budget(t) + 1, n);
  }

  /** Without a cycle of free edges, a task takes at most (sum of MaxRetries + 1) * |steps| routes. */
  lemma RunsAreBounded(t: Template, rows: seq<Row>, results: seq<Result>)
    requires Validate(t) && Acyclic(FreeEdges(t)) && IsRun(t, rows, results) && InTemplate(t, rows[0])
    ensures |results| <= (Budget(t) + 1) * |t.steps.Keys|
  {
    MeasureBound(t, rows[0]);
    if results != [] {
      RunDescends(t, rows, results, |results| - 1);
    }
  }

  // ---- The bound is exact in its condition -------------------------------------------------

  /** Going round a cycle gives paths of every length. */
  lemma CycleUnrolls<T(!new)>(edges: set<(T, T)>, p: seq<T>, n: nat) returns (q: seq<T>)
    requires IsPath(edges, p) && |p| > 1 && p[0] == p[|p| - 1]
    ensures IsPath(edges, q) && |q| == n + 1 && q[0] == p[0]
  {
    var m := |p| - 1;
    q := [p[0]];
    var at := 0;
    while |q| < n + 1
      invariant 1 <= |q| <= n + 1 && 0 <= at < m && q[0] == p[0] && q[|q| - 1] == p[at]
      invariant IsPath(edges, q)
    {
      q := q + [p[at + 1]];
      at := if at + 1 == m then 0 else at + 1;
    }
  }

  lemma FreeStep(t: Template, row: Row, b: Name) returns (o: Result)
    requires row.status == Pending && row.step != "" && IsFree(t, row.step, b)
    ensures Round(t, row, o).status == Pending && Round(t, row, o).step == b
  {
    o := Result(Destination(t.steps[row.step], true) == b, false);
  }

  lemma RunPrepend(t: Template, row: Row, o: Result, rows: seq<Row>, results: seq<Result>)
    requires IsRun(t, rows, results) && row.status == Pending && rows[0] == Round(t, row, o)
    ensures IsRun(t, [row] + rows, [o] + results)
  {
    hide Round;
    var all, os := [row] + rows, [o] + results;
    forall i | 0 <= i < |os| ensures all[i].status == Pending && all[i + 1] == Round(t, all[i], os[i]) {
      if i > 0 {
        assert rows[i - 1].status == Pending && rows[i] == Round(t, rows[i - 1], results[i - 1]);
      }
    }
  }

  /** Any path of free edges is the course of some run. */
  lemma {:induction false} FreePathIsRun(t: Template, q: seq<Name>, row: Row) returns (rows: seq<Row>, results: seq<Result>)
    requires Validate(t) && IsPath(FreeEdges(t), q) && row.status == Pending && row.step == q[0] && q[0] != ""
    ensures IsRun(t, rows, results) && rows[0] == row && |results| == |q| - 1
  {
    if |q| == 1 {
      return [row], [];
    }
    assert (q[0], q[1]) in FreeEdges(t);
    assert IsFree(t, q[0], q[1]);
    hide Round, IsFree, IsRun, Validate;
    var o := FreeStep(t, row, q[1]);
    assert IsPath(FreeEdges(t), q[1..]);
    var rest, more := FreePathIsRun(t, q[1..], Round(t, row, o));
    RunPrepend(t, row, o, rest, more);
    rows, results := [row] + rest, [o] + more;
  }

  /** Routing ends on every run exactly when no cycle consists of free edges. */
  lemma RoutingEndsExactly(t: Template)
    requires Validate(t)
    ensures Acyclic(FreeEdges(t)) <==>
            forall rows, results | IsRun(t, rows, results) && InTemplate(t, rows[0]) ::
              |results| <= (Budget(t) + 1) * |t.steps.Keys|
  {
    if Acyclic(FreeEdges(t)) {
      forall rows, results | IsRun(t, rows, results) && InTemplate(t, rows[0])
        ensures |results| <= (Budget(t) + 1) * |t.steps.Keys|
      {
        RunsAreBounded(t, rows, results);
      }
    } else {
      var p :| IsPath(FreeEdges(t), p) && |p| > 1 && p[0] == p[|p| - 1];
      assert (p[0], p[1]) in FreeEdges(t) && (p[|p| - 2], p[|p| - 2 + 1]) in FreeEdges(t);
      var q := CycleUnrolls(FreeEdges(t), p, (Budget(t) + 1) * |t.steps.Keys| + 1);
      var rows, results := FreePathIsRun(t, q, Row(Pending, p[0], map[]));
      assert IsRun(t, rows, results) && InTemplate(t, rows[0]);
    }
  }

  ghost function SuccessEdges(t: Template): set<(Name, Name)> {
    set a, b | a in t.steps && b in t.steps && b != COMPLETE && Destination(t.steps[a], true) == b :: (a, b)
  }

  /** Acyclic success edges and a budget at every failure destination leave no free cycle. */
  lemma BudgetedFailuresEnd(t: Template)
    requires Validate(t) && Acyclic(SuccessEdges(t))
    requires forall a | a in t.steps && Destination(t.steps[a], false) in t.steps ::
               t.steps[Destination(t.steps[a], false)].maxRetries > 0
    ensures Acyclic(FreeEdges(t))
  {
    assert FreeEdges(t) == SuccessEdges(t);
  }

  // ---- How a task ends -----------------------------------------------------------------------

  /** The edge of the step that the outcome takes, as the template spells it. */
  function EdgeOf(s: Step, success: bool): Name {
    if success then s.onSuccess else s.onFailure
  }

  predicate Leaves(edge: Name) {
    edge == "" || edge == COMPLETE
  }

  predicate SpentBefore(t: Template, edge: Name, tries: nat) {
    edge in t.steps && t.steps[edge].maxRetries > 0 && tries >= t.steps[edge].maxRetries
  }

  /** What becomes of a task that runs the routed step: it is done iff the edge leaves the
      template; else, after a failure, it is blocked iff it oscillates and failed iff the budget
      of the next step is spent; in all other cases it is pending at the next step. */
  lemma RouteEndsExactly(t: Template, row: Row, step: Name, success: bool, oscillates: bool)
    requires row.status == Running && row.step == step && step in t.steps
    ensures var edge := EdgeOf(t.steps[step], success); var after := Route(t, row, step, success, oscillates);
            && (after.status == Done <==> Leaves(edge))
            && (after.status == Blocked <==> !Leaves(edge) && !success && oscillates)
            && (after.status == Failed <==> !Leaves(edge) && !success && !oscillates && SpentBefore(t, edge, Attempts(row, edge)))
            && (after.status == Pending <==> !Leaves(edge) && (success || (!oscillates && !SpentBefore(t, edge, Attempts(row, edge)))))
            && (after.status == Pending ==> after.step == edge)
            && (after.status != Pending ==> after.step == step && after.attempts == row.attempts)
  {
    assert Destination(t.steps[step], success) == if Leaves(EdgeOf(t.steps[step], success)) then COMPLETE else EdgeOf(t.steps[step], success);
  }

  /** How often the first i rounds of a run entered step n. */
  ghost function Entered(rows: seq<Row>, i: nat, n: Name): nat
    requires i < |rows|
  {
    if i == 0 then 0 else Entered(rows, i - 1, n) + (if rows[i].status == Pending && rows[i].step == n then 1 else 0)
  }

  lemma RoundCounts(t: Template, row: Row, o: Result, n: Name)
    requires Validate(t) && InTemplate(t, row) && row.status == Pending
    ensures var row' := Round(t, row, o);
            Attempts(row', n) == Attempts(row, n) + (if row'.status == Pending && row'.step == n then 1 else 0)
  {}

  lemma {:induction false} AttemptsAreEntries(t: Template, rows: seq<Row>, results: seq<Result>, i: nat, n: Name)
    requires Validate(t) && IsRun(t, rows, results) && i < |rows| && rows[0].attempts == map[] && InTemplate(t, rows[0])
    ensures Attempts(rows[i], n) == Entered(rows, i, n)
  {
    hide Round, Validate, InTemplate, Attempts;
    if i == 0 {
      NoAttempts(rows[0], n);
    } else {
      var j := i - 1;
      AttemptsAreEntries(t, rows, results, j, n);
      NeverUndefined(t, rows, results, j);
      assert rows[j].status == Pending && rows[j + 1] == Round(t, rows[j], results[j]);
      RoundCounts(t, rows[j], results[j], n);
    }
  }

  lemma NoAttempts(row: Row, n: Name)
    requires row.attempts == map[]
    ensures Attempts(row, n) == 0
  {}

  /** How a run of a new task ends, told from its outcomes and the steps it entered: done iff the
      last outcome took an edge that leaves the template, blocked iff it was an oscillating
      failure, failed iff it was a failure into a step that has a budget and that the run had
      already entered as often as the budget allows. */
  lemma RunEndsExactly(t: Template, rows: seq<Row>, results: seq<Result>)
    requires Validate(t) && IsRun(t, rows, results) && results != [] && rows[0].attempts == map[] && InTemplate(t, rows[0])
    ensures var m := |results| - 1; var step := if rows[m].step == "" then t.entry else rows[m].step;
            step in t.steps
            && var edge := EdgeOf(t.steps[step], results[m].success); var last := rows[m + 1].status; var failure := !results[m].success;
            && (last == Done <==> Leaves(edge))
            && (last == Blocked <==> !Leaves(edge) && failure && results[m].oscillates)
            && (last == Failed <==> !Leaves(edge) && failure && !results[m].oscillates && SpentBefore(t, edge, Entered(rows, m, edge)))
            && (last == Pending || last in {Done, Blocked, Failed})
  {
    hide Route, Attempts, Entered;
    var m: nat := |results| - 1;
    NeverUndefined(t, rows, results, m);
    assert rows[m + 1] == Round(t, rows[m], results[m]);
    var running := Dispatch(t, rows[m]);
    RouteEndsExactly(t, running, running.step, results[m].success, results[m].oscillates);
    var edge := EdgeOf(t.steps[running.step], results[m].success);
    AttemptsAreEntries(t, rows, results, m, edge);
    SameAttempts(rows[m], running, edge);
  }

  lemma SameAttempts(a: Row, b: Row, n: Name)
    requires a.attempts == b.attempts
    ensures Attempts(a, n) == Attempts(b, n)
  {}
}
