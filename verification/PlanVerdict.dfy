/** From an execution plan to the verdict: the artifacts a run registers, and how the generated
    report is judged with them. */
module PlanVerdict {
  import opened Options
  import opened GoStrings
  import opened Acceptance
  import opened AcceptanceSpecs
  import opened Reports
  import opened Confidence
  import opened Verdicts
  import opened ExecutionPlans
  import opened PlanAcceptance

  // ---- What a run registers ---------------------------------------------------------------------

  /** What the registry keeps of the ArtifactAdd request for type j of step i; `wd` is the
      directory it captures the file of a given digest in. */
  function ArtifactOf(plan: Plan, env: Environment, wd: string -> string, i: nat, j: nat): Artifact
    requires i < |plan.steps| && j < |plan.steps[i].produces|
  {
    var s := plan.steps[i];
    Artifact(env.artifactId(i, j), plan.taskId, "artifacts/execution-" + s.id + ".txt", s.produces[j],
             "sha256:" + env.digest(i), PlanStepCommand(s), wd(env.digest(i)), "valid")
  }

  function StepArtifacts(plan: Plan, env: Environment, wd: string -> string, i: nat, n: nat): seq<Artifact>
    requires i < |plan.steps| && n <= |plan.steps[i].produces|
  {
    if n == 0 then [] else StepArtifacts(plan, env, wd, i, n - 1) + [ArtifactOf(plan, env, wd, i, n - 1)]
  }

  /** The registry after n steps, on top of what it held before. */
  function Registry(plan: Plan, env: Environment, wd: string -> string, before: seq<Artifact>, n: nat): seq<Artifact>
    requires n <= |plan.steps|
  {
    if n == 0 then before
    else Registry(plan, env, wd, before, n - 1) + StepArtifacts(plan, env, wd, n - 1, |plan.steps[n - 1].produces|)
  }

  /** The registry never hands out an id twice. */
  ghost predicate FreshIds(plan: Plan, env: Environment) {
    forall i, j, k, l | 0 <= i < |plan.steps| && 0 <= j < |plan.steps[i].produces|
        && 0 <= k < |plan.steps| && 0 <= l < |plan.steps[k].produces| && env.artifactId(i, j) == env.artifactId(k, l) ::
      i == k && j == l
  }

  lemma {:induction false} LastOfBoth(a: seq<Artifact>, b: seq<Artifact>, n: nat, id: string)
    requires n <= |b|
    ensures LastArtifact(a + b, |a| + n, id)
         == if LastArtifact(b, n, id).Some? then LastArtifact(b, n, id) else LastArtifact(a, |a|, id)
  {
    if n == 0 {
      SamePrefix(a, b, |a|, id);
    } else {
      LastOfBoth(a, b, n - 1, id);
    }
  }

  lemma {:induction false} SamePrefix(a: seq<Artifact>, b: seq<Artifact>, n: nat, id: string)
    requires n <= |a|
    ensures LastArtifact(a + b, n, id) == LastArtifact(a, n, id)
  {
    if n > 0 {
      SamePrefix(a, b, n - 1, id);
    }
  }

  lemma {:induction false} StepArtifactsLength(plan: Plan, env: Environment, wd: string -> string, i: nat, n: nat)
    requires i < |plan.steps| && n <= |plan.steps[i].produces|
    ensures |StepArtifacts(plan, env, wd, i, n)| == n
  {
    if n > 0 {
      StepArtifactsLength(plan, env, wd, i, n - 1);
    }
  }

  /** Looking an id up among the artifacts of step i. */
  lemma {:induction false} LastInStep(plan: Plan, env: Environment, wd: string -> string, i: nat, n: nat, k: nat, j: nat)
    requires FreshIds(plan, env) && i < |plan.steps| && n <= |plan.steps[i].produces|
    requires k < |plan.steps| && j < |plan.steps[k].produces|
    ensures |StepArtifacts(plan, env, wd, i, n)| == n
    ensures LastArtifact(StepArtifacts(plan, env, wd, i, n), n, env.artifactId(k, j))
         == if k == i && j < n then Some(ArtifactOf(plan, env, wd, i, j)) else None
  {
    hide PlanStepCommand;
    StepArtifactsLength(plan, env, wd, i, n);
    if n > 0 {
      StepArtifactsLength(plan, env, wd, i, n - 1);
      LastInStep(plan, env, wd, i, n - 1, k, j);
      SamePrefix(StepArtifacts(plan, env, wd, i, n - 1), [ArtifactOf(plan, env, wd, i, n - 1)], n - 1, env.artifactId(k, j));
    }
  }

  /** Looking up an id that a run registered finds what it registered. */
  lemma {:induction false} LastInRegistry(plan: Plan, env: Environment, wd: string -> string, before: seq<Artifact>, n: nat, i: nat, j: nat)
    requires FreshIds(plan, env) && i < n <= |plan.steps| && j < |plan.steps[i].produces|
    ensures var all := Registry(plan, env, wd, before, n);
            LastArtifact(all, |all|, env.artifactId(i, j)) == Some(ArtifactOf(plan, env, wd, i, j))
  {
    hide FreshIds, ArtifactOf, StepArtifacts, LastArtifact;
    var m, id := |plan.steps[n - 1].produces|, env.artifactId(i, j);
    var earlier, mine := Registry(plan, env, wd, before, n - 1), StepArtifacts(plan, env, wd, n - 1, m);
    LastInStep(plan, env, wd, n - 1, m, i, j);
    LastOfBoth(earlier, mine, m, id);
    assert Registry(plan, env, wd, before, n) == earlier + mine;
    if i < n - 1 {
      hide Registry;
      LastInRegistry(plan, env, wd, before, n - 1, i, j);
    }
  }

  // ---- Its references -----------------------------------------------------------------------------

  lemma CommandIsNotEmpty(s: PlanStep)
    requires StepTypeOk(s)
    ensures PlanStepCommand(s) != ""
  {
    NothingToTrim("shell");
    NothingToTrim("db_query");
    EmptyIsBlank();
  }

  /** commandMatches accepts a command that is the registered one. */
  ghost predicate MatchesItself(h: Heuristics) {
    forall command :: h.commandMatches(command, command)
  }

  lemma GeneratedReference(h: Heuristics, plan: Plan, spec: Spec, env: Environment, wd: string -> string, before: seq<Artifact>, i: nat, j: nat)
    requires ValidPlan(Some(plan), Some(spec)) && FreshIds(plan, env) && MatchesItself(h)
    requires i < |plan.steps| && j < |plan.steps[i].produces|
    ensures ResultEvidenceOk(h, Registry(plan, env, wd, before, |plan.steps|), plan.taskId, EvidenceOf(plan, env, i, j))
  {
    hide FreshIds, CriterionPlanned, SomeCriterionHas, ProducedTypeOk, StepTypeOk, Registry, PlanStepCommand, NormalizeSha256, RequiresCommandMetadata, LastArtifact;
    assert StepOk(Some(spec), plan.steps[i]);
    CommandIsNotEmpty(plan.steps[i]);
    LastInRegistry(plan, env, wd, before, |plan.steps|, i, j);
    assert "valid" != "invalidated" by {
      assert |"valid"| == 5 && |"invalidated"| == 11;
    }
  }

  lemma GeneratedReferences(h: Heuristics, plan: Plan, spec: Spec, env: Environment, wd: string -> string, before: seq<Artifact>)
    requires ValidPlan(Some(plan), Some(spec)) && FreshIds(plan, env) && MatchesItself(h)
    ensures ReferencesOk(h, PlanReport(plan, spec, env), Registry(plan, env, wd, before, |plan.steps|))
  {
    hide ValidPlan, FreshIds, MatchesItself, ResultEvidenceOk, Registry, ResultAfter, FailuresAfter, EvidenceOf, Feeds;
    var report, all := PlanReport(plan, spec, env), Registry(plan, env, wd, before, |plan.steps|);
    forall k | 0 <= k < |report.results| ensures ResultRefsOk(h, all, report.taskId, report.results[k]) {
      var id := spec.criteria[k].id;
      var evidence := ResultAfter(plan, spec, env, |plan.steps|, id).evidence;
      assert report.results[k].evidence == evidence;
      forall m | 0 <= m < |evidence| ensures ResultEvidenceOk(h, all, report.taskId, evidence[m]) {
        ResultEvidence(plan, spec, env, |plan.steps|, id, evidence[m]);
        var i, j :| 0 <= i < |plan.steps| && 0 <= j < |plan.steps[i].produces|
          && Feeds(plan, spec, i, id) && evidence[m] == EvidenceOf(plan, env, i, j);
        GeneratedReference(h, plan, spec, env, wd, before, i, j);
      }
    }
  }

  // ---- Its verdict ----------------------------------------------------------------------------------

  ghost function CaseOfRun(plan: Plan, spec: Spec, env: Environment, wd: string -> string, before: seq<Artifact>, bundle: Bundle,
                           task: TaskInfo, risk: Risk): Case {
    Case(Some(spec), Some(bundle), RunReport(plan, spec, env), Registry(plan, env, wd, before, |plan.steps|), Some(task), risk)
  }

  /** For a valid plan of a strong spec, with a valid bundle and unchanged files: the outcome of
      a run is not rejected iff its types are registrable and every criterion without a failed
      step is fed; it gets a pass iff the types are registrable, the plan covers the spec,
      every step passed, and the risk is normal (a run has no adversarial review to show). */
  lemma PlanRunVerdict(h: Heuristics, files: Files, plan: Plan, spec: Spec, env: Environment, wd: string -> string,
                       before: seq<Artifact>, bundle: Bundle, task: TaskInfo, risk: Risk)
    requires StrongSpec(h, Some(spec), task.id, risk) && task.id != "" && ValidPlan(Some(plan), Some(spec))
    requires Sane(env) && FreshIds(plan, env) && MatchesItself(h) && ValidDoneBundle(Some(bundle), task.id, Some(spec))
    requires forall a | a in Registry(plan, env, wd, before, |plan.steps|) :: Unchanged(files, a)
    ensures var verdict := Judge(h, files, CaseOfRun(plan, spec, env, wd, before, bundle, task, risk));
            && (!verdict.Reject? <==>
                  && Registrable(plan)
                  && forall k | 0 <= k < |spec.criteria| ::
                       StepFailed(plan, spec, env, |plan.steps|, spec.criteria[k].id) || Fed(plan, spec, spec.criteria[k]))
            && (verdict.Pass? <==>
                  && Registrable(plan) && PlanCovers(plan, spec) && risk == Normal
                  && forall i | 0 <= i < |plan.steps| :: env.passed(i))
  {
    hide ValidSpec, ValidPlan, Fed, Sane, FreshIds, MatchesItself, ValidDoneBundle, ValidReport, ReferencesOk, Passes, Unchanged, Registry,
         FailuresAfter, Mismatches, ScoreOf, Types, Feeds, Registrable;
    var c := CaseOfRun(plan, spec, env, wd, before, bundle, task, risk);
    GeneratedReportExactly(h, plan, spec, env, task.id, risk);
    if Registrable(plan) {
      GeneratedReferences(h, plan, spec, env, wd, before);
      NoMismatches(files, c.artifacts);
      if risk == Normal && ValidReport(c.report, task.id, c.spec) {
        PassExactly(h, files, c);
      }
    }
  }
}
