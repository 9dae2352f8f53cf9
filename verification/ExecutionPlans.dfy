/** Execution plans and the report their execution generates, against the report validator. */
module ExecutionPlans {
  import opened Options
  import opened GoStrings
  import opened Acceptance
  import opened AcceptanceSpecs
  import opened Reports

  datatype PlanStep = PlanStep(
    id: string,
    probeId: string,
    typ: string,
    command: string,
    expectedExitCode: Option<int>,
    httpMethod: string,
    url: string,
    expectedStatus: int,
    script: string,
    path: string,
    assertion: string,
    query: string,
    produces: seq<string>)

  datatype Plan = Plan(taskId: string, steps: seq<PlanStep>)

  // ---- Valid plans --------------------------------------------------------------------------

  /** validateExecutionStepType. */
  predicate StepTypeOk(s: PlanStep) {
    var t := TrimSpace(s.typ);
    if t == "shell" then !IsBlank(s.command) && s.expectedExitCode.Some?
    else if t == "http" then !IsBlank(s.httpMethod) && !IsBlank(s.url) && s.expectedStatus != 0
    else if t == "playwright" then !IsBlank(s.script)
    else if t == "db_query" then !IsBlank(s.query) && !IsBlank(s.path)
    else t == "file_assertion" && !IsBlank(s.path) && !IsBlank(s.assertion)
  }

  predicate HasProbe(c: Criterion, probeId: string) {
    exists p | p in c.probes :: p.id == probeId
  }

  ghost predicate SomeCriterionHas(criteria: seq<Criterion>, n: nat, probeId: string)
    requires n <= |criteria|
  {
    exists i | 0 <= i < n :: HasProbe(criteria[i], probeId)
  }

  predicate ProducedTypeOk(t: string) {
    !IsBlank(t) && ValidArtifactType(TrimSpace(t))
  }

  ghost predicate StepOk(spec: Option<Spec>, s: PlanStep) {
    && !IsBlank(s.id) && !IsBlank(s.probeId)
    && (spec.Some? ==> SomeCriterionHas(spec.value.criteria, |spec.value.criteria|, s.probeId))
    && StepTypeOk(s)
    && s.produces != [] && forall j | 0 <= j < |s.produces| :: ProducedTypeOk(s.produces[j])
  }

  predicate DistinctSteps(steps: seq<PlanStep>) {
    forall i, j | 0 <= i < j < |steps| :: steps[i].id != steps[j].id
  }

  ghost predicate HasStep(steps: seq<PlanStep>, probeId: string) {
    exists i | 0 <= i < |steps| :: steps[i].probeId == probeId
  }

  /** Some step of the probe produces the type, white space around it ignored. */
  ghost predicate Produces(steps: seq<PlanStep>, probeId: string, t: string) {
    exists i, j | 0 <= i < |steps| && 0 <= j < |steps[i].produces| ::
      steps[i].probeId == probeId && TrimSpace(steps[i].produces[j]) == t
  }

  ghost predicate ProbePlanned(steps: seq<PlanStep>, p: Probe) {
    HasStep(steps, p.id) && forall t | t in p.requiredEvidence :: Produces(steps, p.id, t)
  }

  ghost predicate CriterionPlanned(steps: seq<PlanStep>, c: Criterion) {
    forall k | 0 <= k < |c.probes| :: ProbePlanned(steps, c.probes[k])
  }

  ghost predicate ValidPlan(plan: Option<Plan>, spec: Option<Spec>) {
    && plan.Some? && !IsBlank(plan.value.taskId) && (spec.Some? ==> plan.value.taskId == spec.value.taskId)
    && plan.value.steps != [] && DistinctSteps(plan.value.steps)
    && (forall i | 0 <= i < |plan.value.steps| :: StepOk(spec, plan.value.steps[i]))
    && (spec.Some? ==> forall i | 0 <= i < |spec.value.criteria| :: CriterionPlanned(plan.value.steps, spec.value.criteria[i]))
  }

  method CollectProbes(criteria: seq<Criterion>) returns (ids: set<string>)
    ensures forall id :: id in ids <==> SomeCriterionHas(criteria, |criteria|, id)
  {
    ids := {};
    for i := 0 to |criteria|
      invariant forall id :: id in ids <==> SomeCriterionHas(criteria, i, id)
    {
      ghost var before := ids;
      for j := 0 to |criteria[i].probes|
        invariant ids == before + set k | 0 <= k < j :: criteria[i].probes[k].id
      {
        ids := ids + {criteria[i].probes[j].id};
      }
      forall id ensures id in ids <==> SomeCriterionHas(criteria, i + 1, id) {
        NextCriterion(criteria, i, id);
      }
    }
  }

  lemma NextCriterion(criteria: seq<Criterion>, n: nat, probeId: string)
    requires n < |criteria|
    ensures SomeCriterionHas(criteria, n + 1, probeId) <==> SomeCriterionHas(criteria, n, probeId) || HasProbe(criteria[n], probeId)
  {
    hide HasProbe;
    if SomeCriterionHas(criteria, n, probeId) {
      var i :| 0 <= i < n && HasProbe(criteria[i], probeId);
      assert HasProbe(criteria[i], probeId);
    }
  }

  /** producedByProbe, as pairs. */
  ghost predicate ProducedTable(steps: seq<PlanStep>, n: nat, produced: set<(string, string)>)
    requires n <= |steps|
  {
    produced == set i, j | 0 <= i < n && 0 <= j < |steps[i].produces| :: (steps[i].probeId, TrimSpace(steps[i].produces[j]))
  }

  method CheckStep(spec: Option<Spec>, s: PlanStep, probes: set<string>) returns (ok: bool)
    requires spec.Some? ==> forall id :: id in probes <==> SomeCriterionHas(spec.value.criteria, |spec.value.criteria|, id)
    ensures ok <==> StepOk(spec, s)
  {
    hide TrimSpace, ValidArtifactType, StepTypeOk, SomeCriterionHas;
    if IsBlank(s.id) || IsBlank(s.probeId) { return false; }
    if spec.Some? && s.probeId !in probes { return false; }
    if !StepTypeOk(s) || s.produces == [] { return false; }
    for j := 0 to |s.produces|
      invariant forall k | 0 <= k < j :: ProducedTypeOk(s.produces[k])
    {
      if !ProducedTypeOk(s.produces[j]) { return false; }
    }
    ok := true;
  }

  lemma ProducedLookup(steps: seq<PlanStep>, produced: set<(string, string)>, probeId: string, t: string)
    requires ProducedTable(steps, |steps|, produced)
    ensures (probeId, t) in produced <==> Produces(steps, probeId, t)
  {
    hide TrimSpace;
    if Produces(steps, probeId, t) {
      var i, j :| 0 <= i < |steps| && 0 <= j < |steps[i].produces|
        && steps[i].probeId == probeId && TrimSpace(steps[i].produces[j]) == t;
      assert (steps[i].probeId, TrimSpace(steps[i].produces[j])) in produced;
    }
  }

  method CheckCriterionPlanned(steps: seq<PlanStep>, c: Criterion, covered: set<string>, produced: set<(string, string)>)
      returns (ok: bool)
    requires covered == set i | 0 <= i < |steps| :: steps[i].probeId
    requires ProducedTable(steps, |steps|, produced)
    ensures ok <==> CriterionPlanned(steps, c)
  {
    hide Produces, ProducedTable;
    for j := 0 to |c.probes|
      invariant forall k | 0 <= k < j :: ProbePlanned(steps, c.probes[k])
    {
      var p := c.probes[j];
      assert p.id in covered <==> HasStep(steps, p.id);
      if p.id !in covered { return false; }
      for m := 0 to |p.requiredEvidence|
        invariant forall k | 0 <= k < m :: Produces(steps, p.id, p.requiredEvidence[k])
      {
        ProducedLookup(steps, produced, p.id, p.requiredEvidence[m]);
        if (p.id, p.requiredEvidence[m]) !in produced {
          assert p.requiredEvidence[m] in p.requiredEvidence;
          return false;
        }
      }
    }
    ok := true;
  }

  lemma NextProduced(steps: seq<PlanStep>, n: nat, produced: set<(string, string)>)
    requires n < |steps| && ProducedTable(steps, n, produced)
    ensures ProducedTable(steps, n + 1, produced + set k | 0 <= k < |steps[n].produces| :: (steps[n].probeId, TrimSpace(steps[n].produces[k])))
  {
    hide TrimSpace;
  }

  /** ValidateExecutionPlan accepts exactly the valid plans. */
  method ValidateExecutionPlan(plan: Option<Plan>, spec: Option<Spec>) returns (ok: bool)
    ensures ok <==> ValidPlan(plan, spec)
  {
    hide TrimSpace, StepOk, SomeCriterionHas, CriterionPlanned, ProducedTable;
    if plan.None? || IsBlank(plan.value.taskId) || (spec.Some? && plan.value.taskId != spec.value.taskId)
       || plan.value.steps == [] {
      return false;
    }
    var steps := plan.value.steps;
    var probes: set<string> := {};
    if spec.Some? {
      probes := CollectProbes(spec.value.criteria);
    }
    var seen: set<string>, covered: set<string>, produced: set<(string, string)> := {}, {}, {};
    NothingProduced(steps);
    for i := 0 to |steps|
      invariant seen == set k | 0 <= k < i :: steps[k].id
      invariant covered == set k | 0 <= k < i :: steps[k].probeId
      invariant DistinctSteps(steps[..i])
      invariant forall k | 0 <= k < i :: StepOk(spec, steps[k])
      invariant ProducedTable(steps, i, produced)
    {
      var stepOk := CheckStep(spec, steps[i], probes);
      if !stepOk || steps[i].id in seen { return false; }
      seen := seen + {steps[i].id};
      NextProduced(steps, i, produced);
      produced := produced + set k | 0 <= k < |steps[i].produces| :: (steps[i].probeId, TrimSpace(steps[i].produces[k]));
      covered := covered + {steps[i].probeId};
    }
    assert steps[..|steps|] == steps;
    if spec.Some? {
      for i := 0 to |spec.value.criteria|
        invariant forall k | 0 <= k < i :: CriterionPlanned(steps, spec.value.criteria[k])
      {
        var planned := CheckCriterionPlanned(steps, spec.value.criteria[i], covered, produced);
        if !planned { return false; }
      }
    }
    ok := true;
  }

  lemma NothingProduced(steps: seq<PlanStep>)
    ensures ProducedTable(steps, 0, {})
  {}

  // ---- Running a plan -------------------------------------------------------------------------

  /** What running the plan meets: which steps pass, the digest of each step's output, and the
      registry's id for each type a step produces. */
  datatype Environment = Environment(
    now: string,
    passed: nat -> bool,
    digest: nat -> string,
    artifactId: (nat, nat) -> string)

  function PlanStepCommand(s: PlanStep): string {
    if s.typ == "shell" then s.command
    else if s.typ == "playwright" then "npx playwright test " + s.script
    else if s.typ == "http" then s.httpMethod + " " + s.url
    else if s.typ == "file_assertion" then "file_assertion " + s.path + " " + s.assertion
    else if s.typ == "db_query" then s.query
    else s.typ
  }

  /** criterionByProbe: the last of the first n criteria that has the probe. */
  function CriterionOf(criteria: seq<Criterion>, n: nat, probeId: string): Option<string>
    requires n <= |criteria|
  {
    if n == 0 then None
    else if HasProbe(criteria[n - 1], probeId) then Some(criteria[n - 1].id)
    else CriterionOf(criteria, n - 1, probeId)
  }

  /** The step's evidence goes to criterion `id`. */
  predicate Feeds(plan: Plan, spec: Spec, i: nat, id: string)
    requires i < |plan.steps|
  {
    CriterionOf(spec.criteria, |spec.criteria|, plan.steps[i].probeId) == Some(id)
  }

  function EvidenceOf(plan: Plan, env: Environment, i: nat, j: nat): Evidence
    requires i < |plan.steps| && j < |plan.steps[i].produces|
  {
    var s := plan.steps[i];
    Evidence(env.artifactId(i, j), s.produces[j], "artifacts/execution-" + s.id + ".txt", s.probeId, PlanStepCommand(s),
             "acceptance", "control_plane", env.now, "sha256:" + env.digest(i), true)
  }

  function StepEvidence(plan: Plan, env: Environment, i: nat, n: nat): seq<Evidence>
    requires i < |plan.steps| && n <= |plan.steps[i].produces|
  {
    if n == 0 then [] else StepEvidence(plan, env, i, n - 1) + [EvidenceOf(plan, env, i, n - 1)]
  }

  /** The result of criterion `id` after n steps. */
  function ResultAfter(plan: Plan, spec: Spec, env: Environment, n: nat, id: string): Result
    requires n <= |plan.steps|
  {
    if n == 0 then Result(id, "pass", [], "execution plan probes passed")
    else
      var r := ResultAfter(plan, spec, env, n - 1, id);
      var s := plan.steps[n - 1];
      if !Feeds(plan, spec, n - 1, id) then r
      else
        var more := r.(evidence := r.evidence + StepEvidence(plan, env, n - 1, |s.produces|));
        if env.passed(n - 1) then more else more.(status := "fail", reason := "execution step " + s.id + " failed")
  }

  function FailuresAfter(plan: Plan, spec: Spec, env: Environment, n: nat): seq<Failure>
    requires n <= |plan.steps|
  {
    if n == 0 then []
    else
      var failures, s := FailuresAfter(plan, spec, env, n - 1), plan.steps[n - 1];
      if env.passed(n - 1) then failures
      else
        var owner := CriterionOf(spec.criteria, |spec.criteria|, s.probeId);
        failures + [Failure(if owner.Some? then owner.value else "", "execution step " + s.id + " failed")]
  }

  function PlanReport(plan: Plan, spec: Spec, env: Environment): Report {
    Report(plan.taskId,
           seq(|spec.criteria|, i requires 0 <= i < |spec.criteria| =>
             ResultAfter(plan, spec, env, |plan.steps|, spec.criteria[i].id)),
           FailuresAfter(plan, spec, env, |plan.steps|), "high", None)
  }

  lemma {:induction false} OwnerExists(criteria: seq<Criterion>, n: nat, probeId: string)
    requires n <= |criteria| && SomeCriterionHas(criteria, n, probeId)
    ensures var owner := CriterionOf(criteria, n, probeId);
            owner.Some? && exists i | 0 <= i < n :: criteria[i].id == owner.value && HasProbe(criteria[i], probeId)
  {
    hide HasProbe;
    if !HasProbe(criteria[n - 1], probeId) {
      var i :| 0 <= i < n && HasProbe(criteria[i], probeId);
      assert SomeCriterionHas(criteria, n - 1, probeId);
      OwnerExists(criteria, n - 1, probeId);
    }
  }

  lemma StepHasOwner(plan: Plan, spec: Spec, i: nat)
    requires ValidPlan(Some(plan), Some(spec)) && i < |plan.steps|
    ensures var owner := CriterionOf(spec.criteria, |spec.criteria|, plan.steps[i].probeId);
            owner.Some? && exists k | 0 <= k < |spec.criteria| ::
              spec.criteria[k].id == owner.value && HasProbe(spec.criteria[k], plan.steps[i].probeId)
  {
    hide SomeCriterionHas, HasProbe, CriterionPlanned, StepTypeOk, ProducedTypeOk;
    assert StepOk(Some(spec), plan.steps[i]);
    OwnerExists(spec.criteria, |spec.criteria|, plan.steps[i].probeId);
  }

  lemma StepProduces(plan: Plan, spec: Spec, i: nat)
    requires ValidPlan(Some(plan), Some(spec)) && i < |plan.steps|
    ensures plan.steps[i].produces != [] && !IsBlank(plan.steps[i].probeId)
    ensures forall j | 0 <= j < |plan.steps[i].produces| :: ProducedTypeOk(plan.steps[i].produces[j])
  {
    hide SomeCriterionHas, CriterionPlanned, StepTypeOk, ProducedTypeOk;
    assert StepOk(Some(spec), plan.steps[i]);
  }

  /** The results of the map after one more type produced by step i. */
  ghost predicate WithEvidence(before: map<string, Result>, results: map<string, Result>, owner: string,
                               plan: Plan, env: Environment, i: nat, n: nat)
    requires i < |plan.steps| && n <= |plan.steps[i].produces| && owner in before
  {
    var r := before[owner].(evidence := before[owner].evidence + StepEvidence(plan, env, i, n));
    results == before[owner := if n == 0 || env.passed(i) then r
                               else r.(status := "fail", reason := "execution step " + plan.steps[i].id + " failed")]
  }

  /** ArtifactAdd accepts the types a step produces as they are spelled. */
  ghost predicate StepRegistrable(s: PlanStep) {
    forall j | 0 <= j < |s.produces| :: ValidArtifactType(s.produces[j])
  }

  ghost predicate Registrable(plan: Plan) {
    forall i | 0 <= i < |plan.steps| :: StepRegistrable(plan.steps[i])
  }

  /** What a run returns: an error as soon as the registry refuses a produced type, which the
      plan validator had only looked at with the white space around it removed. */
  ghost function RunReport(plan: Plan, spec: Spec, env: Environment): Option<Report> {
    if Registrable(plan) then Some(PlanReport(plan, spec, env)) else None
  }

  /** The inner loop of runExecutionPlan. */
  method AddEvidence(before: map<string, Result>, owner: string, plan: Plan, env: Environment, i: nat)
      returns (ok: bool, results: map<string, Result>)
    requires i < |plan.steps| && owner in before
    ensures ok <==> StepRegistrable(plan.steps[i])
    ensures ok ==> WithEvidence(before, results, owner, plan, env, i, |plan.steps[i].produces|)
  {
    hide EvidenceOf, ValidArtifactType;
    results := before;
    assert before[owner].evidence + [] == before[owner].evidence && before == before[owner := before[owner]];
    for j := 0 to |plan.steps[i].produces|
      invariant WithEvidence(before, results, owner, plan, env, i, j)
      invariant forall k | 0 <= k < j :: ValidArtifactType(plan.steps[i].produces[k])
    {
      if !ValidArtifactType(plan.steps[i].produces[j]) {
        return false, before;
      }
      ghost var e, already, more := before[owner].evidence, StepEvidence(plan, env, i, j), [EvidenceOf(plan, env, i, j)];
      assert e + already + more == e + (already + more);
      var r := results[owner];
      r := r.(evidence := r.evidence + [EvidenceOf(plan, env, i, j)]);
      if !env.passed(i) {
        r := r.(status := "fail", reason := "execution step " + plan.steps[i].id + " failed");
      }
      results := results[owner := r];
    }
    ok := true;
  }

  ghost predicate ResultsAre(results: map<string, Result>, plan: Plan, spec: Spec, env: Environment, n: nat)
    requires n <= |plan.steps|
  {
    && results.Keys == (set m | 0 <= m < |spec.criteria| :: spec.criteria[m].id)
    && forall id | id in results :: results[id] == ResultAfter(plan, spec, env, n, id)
  }

  lemma NextResults(before: map<string, Result>, results: map<string, Result>, owner: string, plan: Plan, spec: Spec,
                    env: Environment, i: nat)
    requires ValidPlan(Some(plan), Some(spec)) && i < |plan.steps| && owner in before
    requires Feeds(plan, spec, i, owner) && ResultsAre(before, plan, spec, env, i)
    requires WithEvidence(before, results, owner, plan, env, i, |plan.steps[i].produces|)
    ensures ResultsAre(results, plan, spec, env, i + 1)
  {
    hide ValidPlan, CriterionOf, StepEvidence;
    StepProduces(plan, spec, i);
    assert Feeds(plan, spec, i, owner);
    forall id | id in results ensures results[id] == ResultAfter(plan, spec, env, i + 1, id) {
      assert id != owner ==> !Feeds(plan, spec, i, id);
    }
  }

  /** The results in the order of the spec's criteria. */
  method InOrder(results: map<string, Result>, plan: Plan, spec: Spec, ghost env: Environment) returns (ordered: seq<Result>)
    requires ResultsAre(results, plan, spec, env, |plan.steps|)
    ensures ordered == PlanReport(plan, spec, env).results
  {
    hide ResultAfter, FailuresAfter;
    ordered := [];
    for i := 0 to |spec.criteria|
      invariant ordered == PlanReport(plan, spec, env).results[..i]
    {
      assert spec.criteria[i].id in results;
      ordered := ordered + [results[spec.criteria[i].id]];
    }
  }

  /** Every criterion starts out passing, without evidence. */
  method StartResults(plan: Plan, spec: Spec, ghost env: Environment) returns (results: map<string, Result>)
    ensures ResultsAre(results, plan, spec, env, 0)
  {
    results := map[];
    for i := 0 to |spec.criteria|
      invariant results.Keys == set m | 0 <= m < i :: spec.criteria[m].id
      invariant forall id | id in results :: results[id] == ResultAfter(plan, spec, env, 0, id)
    {
      results := results[spec.criteria[i].id := Result(spec.criteria[i].id, "pass", [], "execution plan probes passed")];
    }
  }

  /** runExecutionPlan: results are kept in a map by criterion and updated step by step. */
  method RunExecutionPlan(plan: Plan, spec: Spec, env: Environment) returns (report: Option<Report>)
    requires ValidPlan(Some(plan), Some(spec))
    ensures report == RunReport(plan, spec, env)
  {
    hide ValidPlan, HasProbe, CriterionOf, WithEvidence, StepRegistrable, ResultAfter;
    var results := StartResults(plan, spec, env);
    var failures: seq<Failure> := [];
    for i := 0 to |plan.steps|
      invariant ResultsAre(results, plan, spec, env, i)
      invariant failures == FailuresAfter(plan, spec, env, i)
      invariant forall k | 0 <= k < i :: StepRegistrable(plan.steps[k])
    {
      StepHasOwner(plan, spec, i);
      var owner := CriterionOf(spec.criteria, |spec.criteria|, plan.steps[i].probeId).value;
      var ok, next := AddEvidence(results, owner, plan, env, i);
      if !ok {
        return None;
      }
      NextResults(results, next, owner, plan, spec, env, i);
      results := next;
      if !env.passed(i) {
        failures := failures + [Failure(owner, "execution step " + plan.steps[i].id + " failed")];
      }
    }
    var ordered := InOrder(results, plan, spec, env);
    report := Some(Report(plan.taskId, ordered, failures, "high", None));
  }
}
