/** When the report generated from an execution plan satisfies the report validator. */
module PlanAcceptance {
  import opened Options
  import opened GoStrings
  import opened Acceptance
  import opened AcceptanceSpecs
  import opened Reports
  import opened ExecutionPlans

  // ---- The condition on plan and spec ---------------------------------------------------------

  ghost predicate FedWithType(plan: Plan, spec: Spec, id: string, t: string) {
    exists i, j | 0 <= i < |plan.steps| && 0 <= j < |plan.steps[i].produces| ::
      Feeds(plan, spec, i, id) && plan.steps[i].produces[j] == t
  }

  ghost predicate FedByProbe(plan: Plan, spec: Spec, id: string, probeId: string) {
    exists i | 0 <= i < |plan.steps| ::
      Feeds(plan, spec, i, id) && plan.steps[i].probeId == probeId && plan.steps[i].produces != []
  }

  ghost predicate FedByProbeWithType(plan: Plan, spec: Spec, id: string, probeId: string, t: string) {
    exists i, j | 0 <= i < |plan.steps| && 0 <= j < |plan.steps[i].produces| ::
      Feeds(plan, spec, i, id) && plan.steps[i].probeId == probeId && plan.steps[i].produces[j] == t
  }

  /** The steps whose evidence goes to the criterion include every required artifact type and,
      for each of its probes, every type the probe requires, all spelled exactly so. */
  ghost predicate Fed(plan: Plan, spec: Spec, c: Criterion) {
    && (forall t | t in c.requiredArtifacts :: FedWithType(plan, spec, c.id, t))
    && (forall p | p in c.probes ::
          FedByProbe(plan, spec, c.id, p.id) && forall t | t in p.requiredEvidence :: FedByProbeWithType(plan, spec, c.id, p.id, t))
  }

  ghost predicate PlanCovers(plan: Plan, spec: Spec) {
    forall i | 0 <= i < |spec.criteria| :: Fed(plan, spec, spec.criteria[i])
  }

  /** One of the criterion's steps failed. */
  ghost predicate StepFailed(plan: Plan, spec: Spec, env: Environment, n: nat, id: string)
    requires n <= |plan.steps|
  {
    exists i | 0 <= i < n :: Feeds(plan, spec, i, id) && !env.passed(i)
  }

  /** What the registry and the digest are relied on for. */
  ghost predicate Sane(env: Environment) {
    && !IsBlank(env.now)
    && (forall i, j :: !IsBlank(env.artifactId(i, j)))
    && (forall i :: !IsPlaceholderHash("sha256:" + env.digest(i)))
  }

  // ---- What a result holds ----------------------------------------------------------------------

  lemma {:induction false} StepEvidenceMembers(plan: Plan, env: Environment, i: nat, n: nat, ev: Evidence)
    requires i < |plan.steps| && n <= |plan.steps[i].produces|
    ensures ev in StepEvidence(plan, env, i, n) <==> exists j | 0 <= j < n :: ev == EvidenceOf(plan, env, i, j)
  {
    hide EvidenceOf;
    if n > 0 {
      StepEvidenceMembers(plan, env, i, n - 1, ev);
      if exists j | 0 <= j < n - 1 :: ev == EvidenceOf(plan, env, i, j) {
        var j :| 0 <= j < n - 1 && ev == EvidenceOf(plan, env, i, j);
        assert ev == EvidenceOf(plan, env, i, j);
      }
    }
  }

  ghost predicate IsItsEvidence(plan: Plan, spec: Spec, env: Environment, n: nat, id: string, ev: Evidence)
    requires n <= |plan.steps|
  {
    exists i, j | 0 <= i < n && 0 <= j < |plan.steps[i].produces| ::
      Feeds(plan, spec, i, id) && ev == EvidenceOf(plan, env, i, j)
  }

  lemma NextEvidence(plan: Plan, spec: Spec, env: Environment, n: nat, id: string, ev: Evidence)
    requires n < |plan.steps|
    ensures IsItsEvidence(plan, spec, env, n + 1, id, ev) <==>
              || IsItsEvidence(plan, spec, env, n, id, ev)
              || (Feeds(plan, spec, n, id) && exists j | 0 <= j < |plan.steps[n].produces| :: ev == EvidenceOf(plan, env, n, j))
  {
    hide EvidenceOf, Feeds;
    if IsItsEvidence(plan, spec, env, n, id, ev) {
      var i, j :| 0 <= i < n && 0 <= j < |plan.steps[i].produces| && Feeds(plan, spec, i, id) && ev == EvidenceOf(plan, env, i, j);
      assert Feeds(plan, spec, i, id) && ev == EvidenceOf(plan, env, i, j);
    } else if Feeds(plan, spec, n, id) && exists j | 0 <= j < |plan.steps[n].produces| :: ev == EvidenceOf(plan, env, n, j) {
      var j :| 0 <= j < |plan.steps[n].produces| && ev == EvidenceOf(plan, env, n, j);
      assert Feeds(plan, spec, n, id) && ev == EvidenceOf(plan, env, n, j);
    }
  }

  lemma {:induction false} ResultEvidence(plan: Plan, spec: Spec, env: Environment, n: nat, id: string, ev: Evidence)
    requires n <= |plan.steps|
    ensures ev in ResultAfter(plan, spec, env, n, id).evidence <==> IsItsEvidence(plan, spec, env, n, id, ev)
  {
    hide EvidenceOf, Feeds;
    if n > 0 {
      ResultEvidence(plan, spec, env, n - 1, id, ev);
      NextEvidence(plan, spec, env, n - 1, id, ev);
      StepEvidenceMembers(plan, env, n - 1, |plan.steps[n - 1].produces|, ev);
      hide IsItsEvidence;
    }
  }

  lemma {:induction false} ResultStatus(plan: Plan, spec: Spec, env: Environment, n: nat, id: string)
    requires n <= |plan.steps|
    ensures ResultAfter(plan, spec, env, n, id).criterionId == id
    ensures ResultAfter(plan, spec, env, n, id).status == if StepFailed(plan, spec, env, n, id) then "fail" else "pass"
  {
    hide Feeds, StepEvidence;
    if n > 0 {
      ResultStatus(plan, spec, env, n - 1, id);
      if StepFailed(plan, spec, env, n - 1, id) {
        var i :| 0 <= i < n - 1 && Feeds(plan, spec, i, id) && !env.passed(i);
        assert Feeds(plan, spec, i, id) && !env.passed(i);
      } else if Feeds(plan, spec, n - 1, id) && !env.passed(n - 1) {
        assert StepFailed(plan, spec, env, n, id);
      }
    }
  }

  lemma {:induction false} NoFailures(plan: Plan, spec: Spec, env: Environment, n: nat)
    requires n <= |plan.steps|
    ensures FailuresAfter(plan, spec, env, n) == [] <==> forall i | 0 <= i < n :: env.passed(i)
  {
    hide CriterionOf;
    if n > 0 {
      NoFailures(plan, spec, env, n - 1);
    }
  }

  // ---- What the failures say ------------------------------------------------------------------------

  /** The id is that of the last criterion that has the probe. */
  ghost predicate OwnedBy(criteria: seq<Criterion>, n: nat, probeId: string, id: string)
    requires n <= |criteria|
  {
    exists m | 0 <= m < n :: criteria[m].id == id && HasProbe(criteria[m], probeId) && forall k | m < k < n :: !HasProbe(criteria[k], probeId)
  }

  lemma {:induction false} OwnerExactly(criteria: seq<Criterion>, n: nat, probeId: string, id: string)
    requires n <= |criteria|
    ensures CriterionOf(criteria, n, probeId) == Some(id) <==> OwnedBy(criteria, n, probeId, id)
  {
    hide HasProbe;
    if n > 0 {
      var last: nat := n - 1;
      OwnerExactly(criteria, last, probeId, id);
      if HasProbe(criteria[last], probeId) {
        if criteria[last].id == id {
          assert OwnedBy(criteria, n, probeId, id);
        }
      } else if OwnedBy(criteria, last, probeId, id) {
        var m :| 0 <= m < last && criteria[m].id == id && HasProbe(criteria[m], probeId) && forall k | m < k < last :: !HasProbe(criteria[k], probeId);
        assert OwnedBy(criteria, n, probeId, id);
      }
    }
  }

  /** How many of the first n steps failed. */
  function FailedSteps(env: Environment, n: nat): nat {
    if n == 0 then 0 else FailedSteps(env, n - 1) + (if env.passed(n - 1) then 0 else 1)
  }

  lemma {:induction false} FailureOfStep(plan: Plan, spec: Spec, env: Environment, n: nat, i: nat)
    requires n <= |plan.steps|
    ensures |FailuresAfter(plan, spec, env, n)| == FailedSteps(env, n)
    ensures i < n && !env.passed(i) ==>
              FailedSteps(env, i) < FailedSteps(env, n)
              && var f := FailuresAfter(plan, spec, env, n)[FailedSteps(env, i)];
                 var owner := CriterionOf(spec.criteria, |spec.criteria|, plan.steps[i].probeId);
                 f.reason == "execution step " + plan.steps[i].id + " failed" && (owner.Some? ==> f.criterionId == owner.value)
  {
    hide CriterionOf;
    if n > 0 {
      FailureOfStep(plan, spec, env, n - 1, i);
    }
  }

  /** The report lists one failure for each failed step, in the order of the steps; it names the
      step and the last criterion that has the step's probe. */
  lemma FailuresExactly(plan: Plan, spec: Spec, env: Environment, i: nat)
    requires ValidPlan(Some(plan), Some(spec)) && i < |plan.steps| && !env.passed(i)
    ensures |PlanReport(plan, spec, env).failures| == FailedSteps(env, |plan.steps|) > FailedSteps(env, i)
    ensures var f := PlanReport(plan, spec, env).failures[FailedSteps(env, i)];
            && OwnedBy(spec.criteria, |spec.criteria|, plan.steps[i].probeId, f.criterionId)
            && f.reason == "execution step " + plan.steps[i].id + " failed"
  {
    hide ValidPlan, HasProbe, ResultAfter, CriterionOf, FailuresAfter, OwnedBy;
    StepHasOwner(plan, spec, i);
    FailureOfStep(plan, spec, env, |plan.steps|, i);
    var owner := CriterionOf(spec.criteria, |spec.criteria|, plan.steps[i].probeId);
    OwnerExactly(spec.criteria, |spec.criteria|, plan.steps[i].probeId, owner.value);
  }

  lemma {:induction false} NamedByFailure(plan: Plan, spec: Spec, env: Environment, n: nat, id: string)
    requires n <= |plan.steps| && id != ""
    ensures (exists f :: f in FailuresAfter(plan, spec, env, n) && f.criterionId == id) <==> StepFailed(plan, spec, env, n, id)
  {
    hide CriterionOf;
    if n > 0 {
      var m: nat := n - 1;
      NamedByFailure(plan, spec, env, m, id);
      var before, now := FailuresAfter(plan, spec, env, m), FailuresAfter(plan, spec, env, n);
      assert StepFailed(plan, spec, env, n, id) <==> StepFailed(plan, spec, env, m, id) || (Feeds(plan, spec, m, id) && !env.passed(m));
      if !env.passed(m) {
        assert now == before + [now[|before|]];
        assert now[|before|].criterionId == id <==> Feeds(plan, spec, m, id);
      }
    }
  }

  /** Failures and results agree: a criterion's result fails iff some failure names it. */
  lemma FailuresMatchResults(plan: Plan, spec: Spec, env: Environment, k: nat)
    requires k < |spec.criteria| && spec.criteria[k].id != ""
    ensures var report, id := PlanReport(plan, spec, env), spec.criteria[k].id;
            && report.results[k].criterionId == id
            && (report.results[k].status == "fail" <==> exists f :: f in report.failures && f.criterionId == id)
            && report.results[k].status in {"pass", "fail"}
  {
    hide ResultAfter, FailuresAfter, StepFailed;
    assert "pass"[0] != "fail"[0];
    ResultStatus(plan, spec, env, |plan.steps|, spec.criteria[k].id);
    NamedByFailure(plan, spec, env, |plan.steps|, spec.criteria[k].id);
  }

  lemma CoversExactly(plan: Plan, spec: Spec, env: Environment, c: Criterion)
    requires forall p | p in c.probes :: p.id != ""
    ensures Covers(c, ResultAfter(plan, spec, env, |plan.steps|, c.id).evidence) <==> Fed(plan, spec, c)
  {
    hide Feeds, ResultAfter, HasType, HasLink, HasLinkOfType, FedWithType, FedByProbe, FedByProbeWithType;
    var evidence := ResultAfter(plan, spec, env, |plan.steps|, c.id).evidence;
    forall t ensures HasType(evidence, t) <==> FedWithType(plan, spec, c.id, t) {
      HasTypeExactly(plan, spec, env, c.id, t);
    }
    forall p | p in c.probes
      ensures HasLink(evidence, p.id) <==> FedByProbe(plan, spec, c.id, p.id)
      ensures forall t :: HasLinkOfType(evidence, p.id, t) <==> FedByProbeWithType(plan, spec, c.id, p.id, t)
    {
      HasLinkExactly(plan, spec, env, c.id, p.id);
      forall t ensures HasLinkOfType(evidence, p.id, t) <==> FedByProbeWithType(plan, spec, c.id, p.id, t) {
        HasLinkOfTypeExactly(plan, spec, env, c.id, p.id, t);
      }
    }
  }

  lemma HasTypeExactly(plan: Plan, spec: Spec, env: Environment, id: string, t: string)
    ensures HasType(ResultAfter(plan, spec, env, |plan.steps|, id).evidence, t) <==> FedWithType(plan, spec, id, t)
  {
    hide Feeds, ResultAfter, PlanStepCommand;
    var evidence := ResultAfter(plan, spec, env, |plan.steps|, id).evidence;
    if HasType(evidence, t) {
      var k :| 0 <= k < |evidence| && evidence[k].typ == t;
      ResultEvidence(plan, spec, env, |plan.steps|, id, evidence[k]);
    }
    if FedWithType(plan, spec, id, t) {
      var i, j :| 0 <= i < |plan.steps| && 0 <= j < |plan.steps[i].produces| && Feeds(plan, spec, i, id) && plan.steps[i].produces[j] == t;
      ResultEvidence(plan, spec, env, |plan.steps|, id, EvidenceOf(plan, env, i, j));
    }
  }

  lemma HasLinkExactly(plan: Plan, spec: Spec, env: Environment, id: string, probeId: string)
    requires probeId != ""
    ensures HasLink(ResultAfter(plan, spec, env, |plan.steps|, id).evidence, probeId) <==> FedByProbe(plan, spec, id, probeId)
  {
    hide Feeds, ResultAfter, PlanStepCommand;
    var evidence := ResultAfter(plan, spec, env, |plan.steps|, id).evidence;
    if HasLink(evidence, probeId) {
      var k :| 0 <= k < |evidence| && evidence[k].probeId == probeId;
      ResultEvidence(plan, spec, env, |plan.steps|, id, evidence[k]);
    }
    if FedByProbe(plan, spec, id, probeId) {
      var i :| 0 <= i < |plan.steps| && Feeds(plan, spec, i, id) && plan.steps[i].probeId == probeId && plan.steps[i].produces != [];
      ResultEvidence(plan, spec, env, |plan.steps|, id, EvidenceOf(plan, env, i, 0));
    }
  }

  lemma HasLinkOfTypeExactly(plan: Plan, spec: Spec, env: Environment, id: string, probeId: string, t: string)
    requires probeId != ""
    ensures HasLinkOfType(ResultAfter(plan, spec, env, |plan.steps|, id).evidence, probeId, t) <==> FedByProbeWithType(plan, spec, id, probeId, t)
  {
    hide Feeds, ResultAfter, PlanStepCommand;
    var evidence := ResultAfter(plan, spec, env, |plan.steps|, id).evidence;
    if HasLinkOfType(evidence, probeId, t) {
      var k :| 0 <= k < |evidence| && evidence[k].probeId == probeId && evidence[k].typ == t;
      ResultEvidence(plan, spec, env, |plan.steps|, id, evidence[k]);
    }
    if FedByProbeWithType(plan, spec, id, probeId, t) {
      var i, j :| 0 <= i < |plan.steps| && 0 <= j < |plan.steps[i].produces| && Feeds(plan, spec, i, id)
        && plan.steps[i].probeId == probeId && plan.steps[i].produces[j] == t;
      ResultEvidence(plan, spec, env, |plan.steps|, id, EvidenceOf(plan, env, i, j));
    }
  }

  // ---- Every piece of generated evidence is acceptable --------------------------------------------

  lemma ControlPlaneMayVerify()
    ensures !IsBlank("acceptance") && !IsBlank("control_plane") && IsVerifierEvidenceProducer("control_plane")
  {
    NotBlank("acceptance");
    NotBlank("control_plane");
    NothingToTrim("control_plane");
    AlreadyLower("control_plane");
  }

  lemma GeneratedProvenance(plan: Plan, spec: Spec, env: Environment, i: nat, j: nat)
    requires ValidPlan(Some(plan), Some(spec)) && Sane(env)
    requires i < |plan.steps| && j < |plan.steps[i].produces|
    ensures EvidenceProvenance(EvidenceOf(plan, env, i, j))
    ensures EvidenceOf(plan, env, i, j).typ != ""
  {
    hide ValidPlan, TrimSpace, IsPlaceholderHash, PlanStepCommand, ValidArtifactType;
    StepProduces(plan, spec, i);
    assert ProducedTypeOk(plan.steps[i].produces[j]);
    ControlPlaneMayVerify();
    NotBlank("sha256:" + env.digest(i));
    EmptyIsBlank();
  }

  lemma EmptyIsBlank()
    ensures IsBlank("")
  {}

  lemma OwnerKnowsProbe(plan: Plan, spec: Spec, i: nat, id: string)
    requires ValidPlan(Some(plan), Some(spec)) && DistinctCriteria(spec.criteria)
    requires i < |plan.steps| && Feeds(plan, spec, i, id)
    ensures KnownProbe(Some(spec), id, plan.steps[i].probeId)
  {
    hide ValidPlan, CriterionOf, LastCriterion;
    StepHasOwner(plan, spec, i);
    var k :| 0 <= k < |spec.criteria| && spec.criteria[k].id == id && HasProbe(spec.criteria[k], plan.steps[i].probeId);
    OnlyCriterion(spec.criteria, |spec.criteria|, k);
  }

  lemma GeneratedEvidenceOk(plan: Plan, spec: Spec, env: Environment, i: nat, j: nat, id: string)
    requires ValidPlan(Some(plan), Some(spec)) && DistinctCriteria(spec.criteria) && Sane(env)
    requires i < |plan.steps| && j < |plan.steps[i].produces| && Feeds(plan, spec, i, id)
    ensures EvidenceOk(Some(spec), id, EvidenceOf(plan, env, i, j))
  {
    hide ValidPlan, KnownProbe, EvidenceProvenance, IsVerifierEvidenceProducer, IsPlaceholderHash, PlanStepCommand, Feeds, DistinctCriteria;
    GeneratedProvenance(plan, spec, env, i, j);
    ControlPlaneMayVerify();
    OwnerKnowsProbe(plan, spec, i, id);
  }

  lemma GeneratedResultOk(plan: Plan, spec: Spec, env: Environment, id: string)
    requires ValidPlan(Some(plan), Some(spec)) && DistinctCriteria(spec.criteria) && Sane(env) && id != ""
    ensures var r := ResultAfter(plan, spec, env, |plan.steps|, id);
            ResultOk(Some(spec), r) <==> r.status == "pass" ==> r.evidence != []
  {
    hide ValidPlan, DistinctCriteria, Sane, EvidenceOk, ResultAfter, EvidenceOf, Feeds;
    var r := ResultAfter(plan, spec, env, |plan.steps|, id);
    ResultStatus(plan, spec, env, |plan.steps|, id);
    forall k | 0 <= k < |r.evidence| ensures EvidenceOk(Some(spec), id, r.evidence[k]) {
      ResultEvidence(plan, spec, env, |plan.steps|, id, r.evidence[k]);
      var i, j :| 0 <= i < |plan.steps| && 0 <= j < |plan.steps[i].produces|
        && Feeds(plan, spec, i, id) && r.evidence[k] == EvidenceOf(plan, env, i, j);
      GeneratedEvidenceOk(plan, spec, env, i, j, id);
    }
  }

  // ---- The main results ----------------------------------------------------------------------------

  lemma {:induction false} LastOf(plan: Plan, spec: Spec, env: Environment, n: nat, k: nat)
    requires k < n <= |spec.criteria| && DistinctCriteria(spec.criteria)
    ensures LastResult(PlanReport(plan, spec, env).results, n, spec.criteria[k].id)
         == Some(ResultAfter(plan, spec, env, |plan.steps|, spec.criteria[k].id))
  {
    hide ResultAfter;
    ResultStatus(plan, spec, env, |plan.steps|, spec.criteria[n - 1].id);
    if k < n - 1 {
      LastOf(plan, spec, env, n - 1, k);
    }
  }

  lemma ProbeIds(h: Heuristics, spec: Spec, taskId: string, risk: Risk, k: nat)
    requires ValidSpec(h, Some(spec), taskId, risk) && k < |spec.criteria|
    ensures var c := spec.criteria[k];
            c.id != "" && c.probes != [] && forall p | p in c.probes :: p.id != "" && p.requiredEvidence != []
  {
    hide KnownRisk, ArtifactTypeOk, FailIfsOk, AnyTransition, AnySideEffect, AnyNegative, TrimSpace, ValidArtifactType;
    var c := spec.criteria[k];
    assert CriterionOk(h, c, risk);
    EmptyIsBlank();
    forall p | p in c.probes ensures p.id != "" && p.requiredEvidence != [] {
      var i :| 0 <= i < |c.probes| && c.probes[i] == p;
      assert ProbeOk(h, c, c.probes[i]);
    }
  }

  /** One criterion of the generated report: its result is well formed and covers it, iff one of
      its steps failed or its steps feed it. */
  lemma CriterionExactly(h: Heuristics, plan: Plan, spec: Spec, env: Environment, taskId: string, risk: Risk, k: nat)
    requires ValidSpec(h, Some(spec), taskId, risk) && ValidPlan(Some(plan), Some(spec)) && Sane(env)
    requires k < |spec.criteria|
    ensures var c, report := spec.criteria[k], PlanReport(plan, spec, env);
            (ResultOk(Some(spec), report.results[k]) && CriterionAnswered(report, c))
              <==> StepFailed(plan, spec, env, |plan.steps|, c.id) || Fed(plan, spec, c)
  {
    hide ValidPlan, CriterionOk, Sane, ResultAfter, StepFailed, Fed, Covers, ResultOk, LastResult;
    var c := spec.criteria[k];
    ProbeIds(h, spec, taskId, risk, k);
    LastOf(plan, spec, env, |spec.criteria|, k);
    ResultStatus(plan, spec, env, |plan.steps|, c.id);
    GeneratedResultOk(plan, spec, env, c.id);
    CoversExactly(plan, spec, env, c);
    CoversNeedsEvidence(c, ResultAfter(plan, spec, env, |plan.steps|, c.id).evidence);
  }

  lemma CoversNeedsEvidence(c: Criterion, evidence: seq<Evidence>)
    requires c.probes != []
    ensures Covers(c, evidence) ==> evidence != []
  {
    if Covers(c, evidence) {
      assert ProbeCovered(c.probes[0], evidence);
    }
  }

  lemma PlanReportExactly(h: Heuristics, plan: Plan, spec: Spec, env: Environment, taskId: string, risk: Risk)
    requires ValidSpec(h, Some(spec), taskId, risk) && ValidPlan(Some(plan), Some(spec)) && Sane(env)
    ensures ValidReport(Some(PlanReport(plan, spec, env)), taskId, Some(spec)) <==>
              forall k | 0 <= k < |spec.criteria| ::
                StepFailed(plan, spec, env, |plan.steps|, spec.criteria[k].id) || Fed(plan, spec, spec.criteria[k])
    ensures Passes(PlanReport(plan, spec, env)) <==> forall i | 0 <= i < |plan.steps| :: env.passed(i)
  {
    hide CriterionOk, StepOk, CriterionPlanned, Sane, ResultAfter, StepFailed, Fed, ResultOk, CriterionAnswered, FailuresAfter;
    var report := PlanReport(plan, spec, env);
    forall k | 0 <= k < |spec.criteria|
      ensures (ResultOk(Some(spec), report.results[k]) && CriterionAnswered(report, spec.criteria[k])) <==>
                StepFailed(plan, spec, env, |plan.steps|, spec.criteria[k].id) || Fed(plan, spec, spec.criteria[k])
    {
      CriterionExactly(h, plan, spec, env, taskId, risk, k);
    }
    NoFailures(plan, spec, env, |plan.steps|);
    if forall i | 0 <= i < |plan.steps| :: env.passed(i) {
      PassingResults(plan, spec, env);
    }
  }

  lemma PassingResults(plan: Plan, spec: Spec, env: Environment)
    requires forall i | 0 <= i < |plan.steps| :: env.passed(i)
    ensures forall k | 0 <= k < |spec.criteria| :: PlanReport(plan, spec, env).results[k].status == "pass"
  {
    hide ResultAfter, Feeds;
    forall k | 0 <= k < |spec.criteria| ensures PlanReport(plan, spec, env).results[k].status == "pass" {
      ResultStatus(plan, spec, env, |plan.steps|, spec.criteria[k].id);
    }
  }

  /** A run yields an acceptable report iff the registry takes its types and every criterion
      without a failed step is fed; the report passes iff every step passed. */
  lemma GeneratedReportExactly(h: Heuristics, plan: Plan, spec: Spec, env: Environment, taskId: string, risk: Risk)
    requires ValidSpec(h, Some(spec), taskId, risk) && ValidPlan(Some(plan), Some(spec)) && Sane(env)
    ensures ValidReport(RunReport(plan, spec, env), taskId, Some(spec)) <==>
              && Registrable(plan)
              && forall k | 0 <= k < |spec.criteria| ::
                   StepFailed(plan, spec, env, |plan.steps|, spec.criteria[k].id) || Fed(plan, spec, spec.criteria[k])
    ensures Registrable(plan) ==>
              (Passes(RunReport(plan, spec, env).value) <==> forall i | 0 <= i < |plan.steps| :: env.passed(i))
  {
    hide ValidSpec, ValidPlan, Sane, StepFailed, Fed, Registrable, Passes, PlanReport, ResultOk, CriterionAnswered;
    PlanReportExactly(h, plan, spec, env, taskId, risk);
  }

  /** The condition a caller can check before running: the plan's types are registrable and it
      covers the spec. It holds iff the run yields an acceptable report whichever steps fail. */
  lemma AcceptedWhateverFails(h: Heuristics, plan: Plan, spec: Spec, env: Environment, taskId: string, risk: Risk)
    requires ValidSpec(h, Some(spec), taskId, risk) && ValidPlan(Some(plan), Some(spec)) && Sane(env)
    ensures Registrable(plan) && PlanCovers(plan, spec) <==>
              forall passed: nat -> bool :: ValidReport(RunReport(plan, spec, env.(passed := passed)), taskId, Some(spec))
  {
    hide ValidSpec, ValidPlan, ValidReport, Fed, RunReport, Sane, Feeds, Registrable;
    forall passed: nat -> bool | Registrable(plan) && PlanCovers(plan, spec)
      ensures ValidReport(RunReport(plan, spec, env.(passed := passed)), taskId, Some(spec))
    {
      SaneWhateverFails(env, passed);
      GeneratedReportExactly(h, plan, spec, env.(passed := passed), taskId, risk);
    }
    SaneWhateverFails(env, n => true);
    GeneratedReportExactly(h, plan, spec, env.(passed := n => true), taskId, risk);
  }

  lemma SaneWhateverFails(env: Environment, passed: nat -> bool)
    requires Sane(env)
    ensures Sane(env.(passed := passed))
  {
    hide TrimSpace, IsPlaceholderHash;
  }

  // ---- Plans that are covered, and plans that are not -----------------------------------------------

  /** No two criteria share a probe id. */
  ghost predicate ProbesUniqueAcross(spec: Spec) {
    forall i, j, p, q | 0 <= i < j < |spec.criteria| && p in spec.criteria[i].probes && q in spec.criteria[j].probes :: p.id != q.id
  }

  ghost predicate ArtifactsDemanded(spec: Spec) {
    forall c, t | c in spec.criteria && t in c.requiredArtifacts :: exists p | p in c.probes :: t in p.requiredEvidence
  }

  ghost predicate TypesTrimmed(plan: Plan) {
    forall s, t | s in plan.steps && t in s.produces :: TrimSpace(t) == t
  }

  /** A valid plan is registrable iff none of its types carries white space. */
  lemma RegistrableExactly(plan: Plan, spec: Spec)
    requires ValidPlan(Some(plan), Some(spec))
    ensures Registrable(plan) <==> TypesTrimmed(plan)
  {
    hide ValidPlan, TrimSpace, ValidArtifactType;
    forall i, j | 0 <= i < |plan.steps| && 0 <= j < |plan.steps[i].produces|
      ensures ValidArtifactType(plan.steps[i].produces[j]) <==> TrimSpace(plan.steps[i].produces[j]) == plan.steps[i].produces[j]
    {
      StepProduces(plan, spec, i);
      assert ProducedTypeOk(plan.steps[i].produces[j]);
      if ValidArtifactType(plan.steps[i].produces[j]) {
        ValidTypeIsTrimmed(plan.steps[i].produces[j]);
      }
    }
    if Registrable(plan) {
      forall s, t | s in plan.steps && t in s.produces ensures TrimSpace(t) == t {
        var i :| 0 <= i < |plan.steps| && plan.steps[i] == s;
        assert StepRegistrable(plan.steps[i]);
        var j :| 0 <= j < |s.produces| && s.produces[j] == t;
      }
    }
  }

  lemma ValidTypeIsTrimmed(t: string)
    requires ValidArtifactType(t)
    ensures TrimSpace(t) == t
  {
    hide TrimSpace;
    var last := t[|t| - 1];
    assert IsLower(last) || IsDigit(last);
    NothingToTrim(t);
  }

  lemma {:induction false} OwnerOf(spec: Spec, n: nat, k: nat, probeId: string)
    requires ProbesUniqueAcross(spec) && k < n <= |spec.criteria| && HasProbe(spec.criteria[k], probeId)
    ensures CriterionOf(spec.criteria, n, probeId) == Some(spec.criteria[k].id)
  {
    if k < n - 1 {
      assert !HasProbe(spec.criteria[n - 1], probeId);
      OwnerOf(spec, n - 1, k, probeId);
    }
  }

  lemma ProducedExactly(plan: Plan, spec: Spec, k: nat, p: Probe, t: string)
    requires ProbesUniqueAcross(spec) && TypesTrimmed(plan)
    requires k < |spec.criteria| && p in spec.criteria[k].probes && Produces(plan.steps, p.id, t)
    ensures FedByProbeWithType(plan, spec, spec.criteria[k].id, p.id, t)
    ensures FedByProbe(plan, spec, spec.criteria[k].id, p.id)
    ensures FedWithType(plan, spec, spec.criteria[k].id, t)
  {
    hide TrimSpace, CriterionOf, ProbesUniqueAcross;
    var i, j :| 0 <= i < |plan.steps| && 0 <= j < |plan.steps[i].produces|
      && plan.steps[i].probeId == p.id && TrimSpace(plan.steps[i].produces[j]) == t;
    assert plan.steps[i] in plan.steps && plan.steps[i].produces[j] in plan.steps[i].produces;
    OwnerOf(spec, |spec.criteria|, k, p.id);
    assert Feeds(plan, spec, i, spec.criteria[k].id);
  }

  lemma ProbeIsFed(plan: Plan, spec: Spec, k: nat, p: Probe)
    requires ProbesUniqueAcross(spec) && TypesTrimmed(plan)
    requires k < |spec.criteria| && p in spec.criteria[k].probes && ProbePlanned(plan.steps, p) && p.requiredEvidence != []
    ensures FedByProbe(plan, spec, spec.criteria[k].id, p.id)
    ensures forall t | t in p.requiredEvidence ::
              FedByProbeWithType(plan, spec, spec.criteria[k].id, p.id, t) && FedWithType(plan, spec, spec.criteria[k].id, t)
  {
    hide ProbesUniqueAcross, TypesTrimmed, Produces, TrimSpace, FedWithType, FedByProbe, FedByProbeWithType;
    forall t | t in p.requiredEvidence
      ensures FedByProbeWithType(plan, spec, spec.criteria[k].id, p.id, t) && FedWithType(plan, spec, spec.criteria[k].id, t)
    {
      ProducedExactly(plan, spec, k, p, t);
    }
    ProducedExactly(plan, spec, k, p, p.requiredEvidence[0]);
  }

  lemma TidyPlanCovers(h: Heuristics, plan: Plan, spec: Spec, taskId: string, risk: Risk)
    requires ValidSpec(h, Some(spec), taskId, risk) && ValidPlan(Some(plan), Some(spec))
    requires ProbesUniqueAcross(spec) && ArtifactsDemanded(spec) && TypesTrimmed(plan)
    ensures PlanCovers(plan, spec)
  {
    hide ValidSpec, StepOk, DistinctSteps, ProbesUniqueAcross, TypesTrimmed, ProbePlanned, TrimSpace, FedWithType, FedByProbe, FedByProbeWithType;
    forall k | 0 <= k < |spec.criteria| ensures Fed(plan, spec, spec.criteria[k]) {
      var c := spec.criteria[k];
      assert c in spec.criteria;
      ProbeIds(h, spec, taskId, risk, k);
      assert CriterionPlanned(plan.steps, c);
      forall p | p in c.probes
        ensures FedByProbe(plan, spec, c.id, p.id)
        ensures forall t | t in p.requiredEvidence :: FedByProbeWithType(plan, spec, c.id, p.id, t) && FedWithType(plan, spec, c.id, t)
      {
        var m :| 0 <= m < |c.probes| && c.probes[m] == p;
        ProbeIsFed(plan, spec, k, p);
      }
    }
  }

  /** Probe ids unique across criteria, every required artifact demanded by some probe, types
      without surrounding white space: then a valid plan covers a valid spec and can be run. */
  lemma TidyPlansAreCovered(h: Heuristics, plan: Plan, spec: Spec, taskId: string, risk: Risk)
    requires ValidSpec(h, Some(spec), taskId, risk) && ValidPlan(Some(plan), Some(spec))
    requires ProbesUniqueAcross(spec) && ArtifactsDemanded(spec) && TypesTrimmed(plan)
    ensures Registrable(plan) && PlanCovers(plan, spec)
  {
    hide ValidSpec, ValidPlan, ProbesUniqueAcross, ArtifactsDemanded, TypesTrimmed, Registrable, PlanCovers;
    RegistrableExactly(plan, spec);
    TidyPlanCovers(h, plan, spec, taskId, risk);
  }

  lemma {:induction false} LaterOwner(spec: Spec, n: nat, k: nat, probeId: string)
    requires DistinctCriteria(spec.criteria) && k < n <= |spec.criteria|
    requires exists m | k < m < n :: HasProbe(spec.criteria[m], probeId)
    ensures CriterionOf(spec.criteria, n, probeId) != Some(spec.criteria[k].id)
  {
    if !HasProbe(spec.criteria[n - 1], probeId) {
      LaterOwner(spec, n - 1, k, probeId);
    }
  }

  /** A probe id that a later criterion uses too sends all its evidence there: no run in which
      every step passes produces an acceptable report. */
  lemma SharedProbeIsRejected(h: Heuristics, plan: Plan, spec: Spec, env: Environment, taskId: string, risk: Risk, k: nat, m: nat, p: Probe)
    requires ValidSpec(h, Some(spec), taskId, risk) && ValidPlan(Some(plan), Some(spec)) && Sane(env)
    requires k < m < |spec.criteria| && p in spec.criteria[k].probes && HasProbe(spec.criteria[m], p.id)
    requires forall i | 0 <= i < |plan.steps| :: env.passed(i)
    ensures !ValidReport(RunReport(plan, spec, env), taskId, Some(spec))
  {
    hide CriterionOk, ValidPlan, ValidReport, Sane, CriterionOf, RunReport, Registrable, HasProbe;
    var c := spec.criteria[k];
    GeneratedReportExactly(h, plan, spec, env, taskId, risk);
    LaterOwner(spec, |spec.criteria|, k, p.id);
    assert !FedByProbe(plan, spec, c.id, p.id);
    assert !StepFailed(plan, spec, env, |plan.steps|, c.id);
  }

  const EXAMPLE_TEXTS := Heuristics(s => false, q => false, s => false, q => false, q => false, s => false, s => false,
                                    s => true, (s, r) => 9, (x, y) => true)
  const EXAMPLE_PROBE := Probe("p", "d", "", "c", ["log"], "", "", "", "n")
  const EXAMPLE_SPEC := Spec("t", "", [Criterion("c", "d", [EXAMPLE_PROBE], ["log"], ["f"], "", false, false),
                                       Criterion("e", "d", [EXAMPLE_PROBE], ["log"], ["f"], "", false, false)])
  const EXAMPLE_STEP := PlanStep("s", "p", "shell", "c", Some(0), "", "", 0, "", "", "", "", ["log"])
  const EXAMPLE_PLAN := Plan("t", [EXAMPLE_STEP])

  lemma ExampleCriterion(c: Criterion)
    requires c in EXAMPLE_SPEC.criteria
    ensures CriterionOk(EXAMPLE_TEXTS, c, Normal)
  {
    hide TrimSpace, ValidArtifactType, AnyTransition;
    ExampleTexts();
    assert ProbeOk(EXAMPLE_TEXTS, c, EXAMPLE_PROBE);
    assert AssertsNegative(EXAMPLE_TEXTS, c.probes[0]) && ShowsSideEffect(EXAMPLE_TEXTS, c, c.probes[0]);
    NextFlags(EXAMPLE_TEXTS, c, 0);
    assert FailIfOk(EXAMPLE_TEXTS, c.failIf[0]);
  }

  lemma ExamplePlan()
    ensures ValidPlan(Some(EXAMPLE_PLAN), Some(EXAMPLE_SPEC)) && TypesTrimmed(EXAMPLE_PLAN)
  {
    hide TrimSpace, ValidArtifactType;
    ExampleTexts();
    var steps, criteria := EXAMPLE_PLAN.steps, EXAMPLE_SPEC.criteria;
    assert steps[0] == EXAMPLE_STEP && criteria[0].probes[0] == EXAMPLE_PROBE && criteria[1].probes[0] == EXAMPLE_PROBE;
    assert EXAMPLE_PROBE in criteria[0].probes && HasProbe(criteria[0], "p");
    assert ProducedTypeOk(EXAMPLE_STEP.produces[0]);
    assert StepOk(Some(EXAMPLE_SPEC), EXAMPLE_STEP);
    assert steps[0].probeId == "p" && TrimSpace(steps[0].produces[0]) == "log";
    assert Produces(steps, "p", "log");
    assert ProbePlanned(steps, EXAMPLE_PROBE);
  }

  /** A valid plan of a valid spec whose report is rejected although every step passes: both
      criteria name their probe "p". */
  lemma SharedProbeExample(env: Environment)
    requires Sane(env) && env.passed(0)
    ensures ValidSpec(EXAMPLE_TEXTS, Some(EXAMPLE_SPEC), "t", Normal) && ArtifactsDemanded(EXAMPLE_SPEC)
    ensures ValidPlan(Some(EXAMPLE_PLAN), Some(EXAMPLE_SPEC)) && TypesTrimmed(EXAMPLE_PLAN)
    ensures Registrable(EXAMPLE_PLAN)
    ensures !ValidReport(RunReport(EXAMPLE_PLAN, EXAMPLE_SPEC, env), "t", Some(EXAMPLE_SPEC))
  {
    hide CriterionOk, ValidPlan, TypesTrimmed, Sane, ValidReport, RunReport, Registrable, TrimSpace, ToLower;
    var criteria := EXAMPLE_SPEC.criteria;
    ExampleCriterion(criteria[0]);
    ExampleCriterion(criteria[1]);
    ExamplePlan();
    RegistrableExactly(EXAMPLE_PLAN, EXAMPLE_SPEC);
    assert criteria[0].id == "c" && criteria[1].id == "e" && "c"[0] != "e"[0];
    assert EXAMPLE_PROBE in criteria[0].probes && EXAMPLE_PROBE in criteria[1].probes && "log" in EXAMPLE_PROBE.requiredEvidence;
    SharedProbeIsRejected(EXAMPLE_TEXTS, EXAMPLE_PLAN, EXAMPLE_SPEC, env, "t", Normal, 0, 1, EXAMPLE_PROBE);
  }

  lemma ExampleTexts()
    ensures !IsBlank("p") && !IsBlank("d") && !IsBlank("c") && !IsBlank("n") && !IsBlank("s") && !IsBlank("t") && IsBlank("")
    ensures TrimSpace("log") == "log" && ValidArtifactType("log") && TrimSpace("shell") == "shell"
  {
    NotBlank("p");
    NotBlank("d");
    NotBlank("c");
    NotBlank("n");
    NotBlank("s");
    NotBlank("t");
    NothingToTrim("log");
    NothingToTrim("shell");
  }

  /** A required artifact that no probe demands escapes the plan validator; if no step produces
      it, no run in which every step passes yields an acceptable report. */
  lemma UnproducedArtifactIsRejected(h: Heuristics, plan: Plan, spec: Spec, env: Environment, taskId: string, risk: Risk, c: Criterion, t: string)
    requires ValidSpec(h, Some(spec), taskId, risk) && ValidPlan(Some(plan), Some(spec)) && Sane(env)
    requires c in spec.criteria && t in c.requiredArtifacts && forall s | s in plan.steps :: t !in s.produces
    requires forall i | 0 <= i < |plan.steps| :: env.passed(i)
    ensures !ValidReport(RunReport(plan, spec, env), taskId, Some(spec))
  {
    hide ValidSpec, ValidPlan, ValidReport, Sane, CriterionOf, RunReport, Registrable;
    var k :| 0 <= k < |spec.criteria| && spec.criteria[k] == c;
    GeneratedReportExactly(h, plan, spec, env, taskId, risk);
    assert !FedWithType(plan, spec, c.id, t);
    assert !StepFailed(plan, spec, env, |plan.steps|, c.id);
  }
}
