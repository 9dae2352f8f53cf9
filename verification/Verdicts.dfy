/** The acceptance verdict: artifact references, artifact hashes, and the gate in front of routing. */
module Verdicts {
  import opened Options
  import opened GoStrings
  import opened Acceptance
  import opened AcceptanceSpecs
  import opened Reports
  import opened Confidence

  // ---- Artifact references ------------------------------------------------------------------

  predicate RequiresCommandMetadata(artifactType: string) {
    ToLower(TrimSpace(artifactType)) in {"cli_transcript", "test_output", "shell_output", "command_output"}
  }

  /** The artifact is what the evidence says it is. */
  predicate ArtifactMatches(a: Artifact, taskId: string, ev: Evidence) {
    && a.taskId == taskId && a.status != "invalidated" && a.artifactType == ev.typ
    && (ev.path != "" ==> a.path == ev.path)
    && (ev.contentHash != "" ==> NormalizeSha256(ev.contentHash) == NormalizeSha256(a.sha256))
  }

  predicate CommandOk(h: Heuristics, a: Artifact, ev: Evidence) {
    RequiresCommandMetadata(ev.typ) ==> a.command != "" && (ev.command != "" ==> h.commandMatches(ev.command, a.command))
  }

  predicate Registered(artifacts: seq<Artifact>, taskId: string, ev: Evidence) {
    var a := LastArtifact(artifacts, |artifacts|, ev.artifactId);
    a.Some? && ArtifactMatches(a.value, taskId, ev)
  }

  predicate ResultEvidenceOk(h: Heuristics, artifacts: seq<Artifact>, taskId: string, ev: Evidence) {
    && Registered(artifacts, taskId, ev)
    && CommandOk(h, LastArtifact(artifacts, |artifacts|, ev.artifactId).value, ev)
  }

  ghost predicate ResultRefsOk(h: Heuristics, artifacts: seq<Artifact>, taskId: string, r: Result) {
    forall j | 0 <= j < |r.evidence| :: ResultEvidenceOk(h, artifacts, taskId, r.evidence[j])
  }

  ghost predicate ReferencesOk(h: Heuristics, report: Report, artifacts: seq<Artifact>) {
    && (forall i | 0 <= i < |report.results| :: ResultRefsOk(h, artifacts, report.taskId, report.results[i]))
    && (report.review.Some? ==>
          forall j | 0 <= j < |report.review.value.followupEvidence| ::
            Registered(artifacts, report.taskId, report.review.value.followupEvidence[j]))
  }

  /** byID after n artifacts. */
  ghost predicate ArtifactTable(artifacts: seq<Artifact>, n: nat, byId: map<string, Artifact>)
    requires n <= |artifacts|
  {
    forall id :: var a := LastArtifact(artifacts, n, id); (id in byId <==> a.Some?) && (a.Some? ==> byId[id] == a.value)
  }

  method BuildArtifactTable(artifacts: seq<Artifact>) returns (byId: map<string, Artifact>)
    ensures ArtifactTable(artifacts, |artifacts|, byId)
  {
    byId := map[];
    for i := 0 to |artifacts|
      invariant ArtifactTable(artifacts, i, byId)
    {
      byId := byId[artifacts[i].id := artifacts[i]];
    }
  }

  method ValidateArtifactReferences(h: Heuristics, report: Report, artifacts: seq<Artifact>) returns (ok: bool)
    ensures ok <==> ReferencesOk(h, report, artifacts)
  {
    hide ArtifactMatches, CommandOk, LastArtifact;
    var byId := BuildArtifactTable(artifacts);
    for i := 0 to |report.results|
      invariant forall k | 0 <= k < i :: ResultRefsOk(h, artifacts, report.taskId, report.results[k])
    {
      var evidence := report.results[i].evidence;
      for j := 0 to |evidence|
        invariant forall k | 0 <= k < j :: ResultEvidenceOk(h, artifacts, report.taskId, evidence[k])
      {
        var ev := evidence[j];
        Lookup(artifacts, byId, ev.artifactId);
        if ev.artifactId !in byId || !ArtifactMatches(byId[ev.artifactId], report.taskId, ev) || !CommandOk(h, byId[ev.artifactId], ev) {
          assert !ResultEvidenceOk(h, artifacts, report.taskId, evidence[j]);
          return false;
        }
      }
    }
    if report.review.Some? {
      var followup := report.review.value.followupEvidence;
      for j := 0 to |followup|
        invariant forall k | 0 <= k < j :: Registered(artifacts, report.taskId, followup[k])
      {
        Lookup(artifacts, byId, followup[j].artifactId);
        if followup[j].artifactId !in byId || !ArtifactMatches(byId[followup[j].artifactId], report.taskId, followup[j]) {
          return false;
        }
      }
    }
    ok := true;
  }

  lemma Lookup(artifacts: seq<Artifact>, byId: map<string, Artifact>, id: string)
    requires ArtifactTable(artifacts, |artifacts|, byId)
    ensures id in byId <==> LastArtifact(artifacts, |artifacts|, id).Some?
    ensures id in byId ==> byId[id] == LastArtifact(artifacts, |artifacts|, id).value
  {
    hide LastArtifact;
  }

  // ---- Artifact hashes -----------------------------------------------------------------------

  /** The digest of the file at a path, resolved from a working directory; None if unreadable. */
  type Files = (string, string) -> Option<string>

  predicate Unchanged(files: Files, a: Artifact) {
    var digest := files(a.workingDirectory, a.path);
    digest.Some? && NormalizeSha256(digest.value) == NormalizeSha256(a.sha256)
  }

  function Mismatches(files: Files, artifacts: seq<Artifact>, n: nat): (changed: seq<Artifact>)
    requires n <= |artifacts|
    ensures forall a :: a in changed <==> a in artifacts[..n] && !Unchanged(files, a)
  {
    if n == 0 then []
    else
      assert artifacts[..n] == artifacts[..n - 1] + [artifacts[n - 1]];
      Mismatches(files, artifacts, n - 1) + (if Unchanged(files, artifacts[n - 1]) then [] else [artifacts[n - 1]])
  }

  lemma NoMismatches(files: Files, artifacts: seq<Artifact>)
    ensures Mismatches(files, artifacts, |artifacts|) == [] <==> forall a | a in artifacts :: Unchanged(files, a)
  {
    hide Unchanged;
    var changed := Mismatches(files, artifacts, |artifacts|);
    assert artifacts[..|artifacts|] == artifacts;
    if changed != [] {
      assert changed[0] in changed;
    } else {
      assert forall a | a in artifacts :: a !in changed;
    }
  }

  method ArtifactHashMismatches(files: Files, artifacts: seq<Artifact>) returns (changed: seq<Artifact>)
    ensures changed == Mismatches(files, artifacts, |artifacts|)
    ensures forall a :: a in changed <==> a in artifacts && !Unchanged(files, a)
  {
    hide Unchanged;
    changed := [];
    for i := 0 to |artifacts|
      invariant changed == Mismatches(files, artifacts, i)
    {
      if !Unchanged(files, artifacts[i]) {
        changed := changed + [artifacts[i]];
      }
    }
    assert artifacts[..|artifacts|] == artifacts;
  }

  // ---- Done bundles ----------------------------------------------------------------------------

  datatype Claim = Claim(criterionId: string, status: string)

  datatype BundleArtifact = BundleArtifact(
    typ: string,
    path: string,
    probeId: string,
    command: string,
    producerStep: string,
    producerRole: string,
    timestamp: string,
    contentHash: string,
    authoritative: bool)

  datatype Bundle = Bundle(taskId: string, summary: string, claims: seq<Claim>, artifacts: seq<BundleArtifact>)

  predicate BundleArtifactOk(a: BundleArtifact) {
    && a.typ != "" && a.path != ""
    && ValidProvenance(a.probeId, a.command, a.producerStep, a.producerRole, a.timestamp, a.contentHash, a.path, a.authoritative)
  }

  predicate ClaimOk(claim: Claim, spec: Option<Spec>, artifacts: seq<BundleArtifact>) {
    && claim.criterionId != "" && claim.status == "satisfied"
    && (spec.Some? ==>
          var c := LastCriterion(spec.value.criteria, |spec.value.criteria|, claim.criterionId);
          c.Some? && forall t | t in c.value.requiredArtifacts :: exists a | a in artifacts :: a.typ == t)
  }

  /** ValidateDoneBundle. */
  predicate ValidDoneBundle(bundle: Option<Bundle>, taskId: string, spec: Option<Spec>) {
    && bundle.Some? && bundle.value.taskId == taskId && bundle.value.summary != ""
    && bundle.value.claims != [] && bundle.value.artifacts != []
    && (forall a | a in bundle.value.artifacts :: BundleArtifactOk(a))
    && (forall c | c in bundle.value.claims :: ClaimOk(c, spec, bundle.value.artifacts))
  }

  // ---- The verdict -----------------------------------------------------------------------------

  datatype TaskInfo = TaskInfo(id: string, retryCount: int)

  datatype Verdict =
    | Reject(reason: string)
    | Fail(score: real)
    | RetryOrEscalate(reason: string, score: real)
    | Pass(score: real)

  /** What is judged; `risk` is the effective risk of spec, task and bundle under the policy. */
  datatype Case = Case(
    spec: Option<Spec>,
    bundle: Option<Bundle>,
    report: Option<Report>,
    artifacts: seq<Artifact>,
    task: Option<TaskInfo>,
    risk: Risk)

  function TaskIdOf(c: Case): string {
    if c.task.Some? && c.task.value.id != "" then c.task.value.id
    else if c.spec.Some? && c.spec.value.taskId != "" then c.spec.value.taskId
    else if c.report.Some? then c.report.value.taskId
    else ""
  }

  function ScoreOf(c: Case): real {
    Score(c.spec, c.report, if c.task.Some? then c.task.value.retryCount else 0)
  }

  /** AdversarialCheckPassed. */
  predicate AdversarialCheckPassed(report: Report, risk: Risk) {
    risk == High ==> ReviewSatisfied(report)
  }

  ghost function Judge(h: Heuristics, files: Files, c: Case): Verdict {
    if !StrongSpec(h, c.spec, TaskIdOf(c), c.risk) then Reject("weak_acceptance_spec")
    else if !ValidDoneBundle(c.bundle, TaskIdOf(c), c.spec) then Reject("invalid_done_bundle")
    else if !ValidReport(c.report, TaskIdOf(c), c.spec) then Reject("invalid_verification_report")
    else if !ReferencesOk(h, c.report.value, c.artifacts) || Mismatches(files, c.artifacts, |c.artifacts|) != []
      then Reject("invalid_artifact_provenance")
    else if !Passes(c.report.value) then Fail(ScoreOf(c))
    else if !MeetsRequiredConfidence(ScoreOf(c), c.risk) then RetryOrEscalate("low_confidence", ScoreOf(c))
    else if !AdversarialCheckPassed(c.report.value, c.risk) then RetryOrEscalate("adversarial_check_failed", ScoreOf(c))
    else Pass(ScoreOf(c))
  }

  /** ComputeVerdictWithPolicy. */
  method ComputeVerdict(h: Heuristics, files: Files, c: Case) returns (verdict: Verdict)
    ensures verdict == Judge(h, files, c)
  {
    hide ValidSpec, ValidDoneBundle, ValidReport, ReferencesOk, Passes, Mismatches, Score, ReviewSatisfied;
    var taskId := TaskIdOf(c);
    var specOk := ValidateAcceptanceSpec(h, c.spec, taskId, c.risk);
    if !specOk || c.spec.None? || h.strength(c.spec.value, c.risk) < (if c.risk == High then 5 else 3) {
      ValidSpecIsSome(h, c);
      return Reject("weak_acceptance_spec");
    }
    if !ValidDoneBundle(c.bundle, taskId, c.spec) {
      return Reject("invalid_done_bundle");
    }
    var pass := ValidateVerificationReport(c.report, taskId, c.spec);
    if pass.None? || c.report.None? {
      ValidReportIsSome(c);
      return Reject("invalid_verification_report");
    }
    var refsOk := ValidateArtifactReferences(h, c.report.value, c.artifacts);
    if !refsOk {
      return Reject("invalid_artifact_provenance");
    }
    var changed := ArtifactHashMismatches(files, c.artifacts);
    if |changed| > 0 {
      return Reject("invalid_artifact_provenance");
    }
    var confidence := ComputeVerificationConfidence(c.spec, c.report, if c.task.Some? then c.task.value.retryCount else 0);
    if !pass.value {
      return Fail(confidence);
    }
    if !MeetsRequiredConfidence(confidence, c.risk) {
      return RetryOrEscalate("low_confidence", confidence);
    }
    if !AdversarialCheckPassed(c.report.value, c.risk) {
      return RetryOrEscalate("adversarial_check_failed", confidence);
    }
    return Pass(confidence);
  }

  lemma ValidSpecIsSome(h: Heuristics, c: Case)
    ensures ValidSpec(h, c.spec, TaskIdOf(c), c.risk) ==> c.spec.Some?
  {}

  lemma ValidReportIsSome(c: Case)
    ensures ValidReport(c.report, TaskIdOf(c), c.spec) ==> c.report.Some?
  {}

  // ---- What a pass guarantees --------------------------------------------------------------------

  /** A registered artifact of the task, not invalidated, of type t, whose file still has the
      registered digest. */
  ghost predicate Sound(files: Files, artifacts: seq<Artifact>, a: Artifact, taskId: string, t: string) {
    a in artifacts && a.taskId == taskId && a.status != "invalidated" && a.artifactType == t && Unchanged(files, a)
  }

  /** Evidence of type t linked to the criterion's probe, naming a sound artifact. */
  ghost predicate Backed(files: Files, artifacts: seq<Artifact>, report: Report, c: Criterion, probeId: string, t: string) {
    exists i: int, j: int, a: Artifact | 0 <= i < |report.results| && 0 <= j < |report.results[i].evidence| ::
      && report.results[i].criterionId == c.id && report.results[i].evidence[j].artifactId == a.id
      && report.results[i].evidence[j].probeId == probeId && report.results[i].evidence[j].typ == t
      && Sound(files, artifacts, a, report.taskId, t)
  }

  /** Every type of evidence that any probe of any criterion requires is backed. */
  ghost predicate FullyBacked(files: Files, artifacts: seq<Artifact>, report: Report, spec: Spec) {
    forall c, p, t | c in spec.criteria && p in c.probes && t in p.requiredEvidence ::
      Backed(files, artifacts, report, c, p.id, t)
  }

  lemma EvidenceIsSound(h: Heuristics, files: Files, artifacts: seq<Artifact>, taskId: string, ev: Evidence) returns (a: Artifact)
    requires ResultEvidenceOk(h, artifacts, taskId, ev) && Mismatches(files, artifacts, |artifacts|) == []
    ensures a.id == ev.artifactId && Sound(files, artifacts, a, taskId, ev.typ)
  {
    hide Unchanged, CommandOk, NormalizeSha256;
    a := LastArtifact(artifacts, |artifacts|, ev.artifactId).value;
    assert artifacts[..|artifacts|] == artifacts;
    assert a !in Mismatches(files, artifacts, |artifacts|);
  }

  /** Where a passing report holds the evidence of the type for the probe. */
  lemma LinkedEvidence(report: Report, taskId: string, spec: Spec, c: Criterion, p: Probe, t: string) returns (i: nat, j: nat)
    requires ValidReport(Some(report), taskId, Some(spec)) && Passes(report)
    requires c in spec.criteria && p in c.probes && t in p.requiredEvidence
    ensures i < |report.results| && report.results[i].criterionId == c.id && j < |report.results[i].evidence|
    ensures report.results[i].evidence[j].probeId == p.id && report.results[i].evidence[j].typ == t
  {
    hide ValidReport, Passes;
    AnsweredCriterion(report, taskId, spec, c);
    var k :| 0 <= k < |report.results| && report.results[k].criterionId == c.id && Covers(c, report.results[k].evidence);
    assert ProbeCovered(p, report.results[k].evidence);
    assert HasLinkOfType(report.results[k].evidence, p.id, t);
    i := k;
    j :| 0 <= j < |report.results[k].evidence| && report.results[k].evidence[j].probeId == p.id && report.results[k].evidence[j].typ == t;
  }

  lemma ProbeIsBacked(h: Heuristics, files: Files, artifacts: seq<Artifact>, report: Report, taskId: string, spec: Spec, c: Criterion, p: Probe, t: string)
    requires ValidReport(Some(report), taskId, Some(spec)) && Passes(report) && ReferencesOk(h, report, artifacts)
    requires Mismatches(files, artifacts, |artifacts|) == []
    requires c in spec.criteria && p in c.probes && t in p.requiredEvidence
    ensures Backed(files, artifacts, report, c, p.id, t)
  {
    hide ValidReport, Passes, Mismatches, ResultEvidenceOk, Sound;
    var i, j := LinkedEvidence(report, taskId, spec, c, p, t);
    assert ResultRefsOk(h, artifacts, report.taskId, report.results[i]);
    var a := EvidenceIsSound(h, files, artifacts, report.taskId, report.results[i].evidence[j]);
  }

  /** A pass verdict rests on sound artifacts for everything the spec asks, none of the task's
      artifacts has changed on disk, and high risk had a satisfied adversarial review. */
  lemma PassMeansEvidence(h: Heuristics, files: Files, c: Case)
    requires Judge(h, files, c).Pass?
    ensures c.spec.Some? && c.report.Some? && c.report.value.taskId == c.spec.value.taskId == TaskIdOf(c)
    ensures FullyBacked(files, c.artifacts, c.report.value, c.spec.value)
    ensures forall a | a in c.artifacts :: Unchanged(files, a)
    ensures Passes(c.report.value) && ScoreOf(c) >= 0.825
    ensures c.risk == High ==> ReviewSatisfied(c.report.value) && ScoreOf(c) >= 0.85
  {
    hide CriterionOk, ResultOk, CriterionAnswered, ReferencesOk, ValidDoneBundle, Score, Unchanged, ReviewSatisfied;
    var spec, report := c.spec.value, c.report.value;
    forall k, p, t | k in spec.criteria && p in k.probes && t in p.requiredEvidence
      ensures Backed(files, c.artifacts, report, k, p.id, t)
    {
      ProbeIsBacked(h, files, c.artifacts, report, TaskIdOf(c), spec, k, p, t);
    }
    NoMismatches(files, c.artifacts);
    ConfidenceOfPassing(h, spec, report, TaskIdOf(c), c.risk, if c.task.Some? then c.task.value.retryCount else 0);
  }

  /** For a strong spec, a valid bundle and a valid report with good references and unchanged
      artifacts: the verdict is pass iff the report passes and, under high risk, the review is
      satisfied and the task is not on its last legs with one type of evidence. */
  lemma PassExactly(h: Heuristics, files: Files, c: Case)
    requires StrongSpec(h, c.spec, TaskIdOf(c), c.risk) && ValidDoneBundle(c.bundle, TaskIdOf(c), c.spec)
    requires ValidReport(c.report, TaskIdOf(c), c.spec)
    requires ReferencesOk(h, c.report.value, c.artifacts) && forall a | a in c.artifacts :: Unchanged(files, a)
    ensures Judge(h, files, c).Pass? <==>
              && Passes(c.report.value)
              && (c.risk == High ==>
                    && ReviewSatisfied(c.report.value)
                    && !(c.task.Some? && c.task.value.retryCount >= 3
                         && |Types(c.report.value.results, |c.report.value.results|)| == 1))
  {
    hide CriterionOk, ResultOk, CriterionAnswered, ReferencesOk, ValidDoneBundle, Score, Unchanged, ReviewSatisfied, Types;
    NoMismatches(files, c.artifacts);
    if Passes(c.report.value) {
      ConfidenceOfPassing(h, c.spec.value, c.report.value, TaskIdOf(c), c.risk, if c.task.Some? then c.task.value.retryCount else 0);
    }
  }

  // ---- The signal gate ---------------------------------------------------------------------------

  function Invalidated(artifacts: seq<Artifact>, ids: set<string>): seq<Artifact> {
    seq(|artifacts|, i requires 0 <= i < |artifacts| =>
      if artifacts[i].id in ids then artifacts[i].(status := "invalidated") else artifacts[i])
  }

  function ArtifactList(artifacts: seq<Artifact>, taskId: string, n: nat): (list: seq<Artifact>)
    requires n <= |artifacts|
    ensures forall a :: a in list <==> a in artifacts[..n] && a.taskId == taskId
  {
    if n == 0 then []
    else
      assert artifacts[..n] == artifacts[..n - 1] + [artifacts[n - 1]];
      ArtifactList(artifacts, taskId, n - 1) + (if artifacts[n - 1].taskId == taskId then [artifacts[n - 1]] else [])
  }

  datatype StoredReport = StoredReport(report: Report, score: real, passed: bool)

  /** The rows the acceptance branch of validateDoneSignal reads and writes. */
  class AcceptanceStore {
    var specs: map<string, Spec>
    var bundles: map<string, Bundle>
    var artifacts: seq<Artifact>
    var reports: map<string, StoredReport>

    /** What is judged for a task: its rows as they were read. */
    ghost function CaseOf(task: TaskInfo, report: Option<Report>, risk: Risk): Case
      reads this
    {
      Case(if task.id in specs then Some(specs[task.id]) else None,
           if task.id in bundles then Some(bundles[task.id]) else None,
           report, ArtifactList(artifacts, task.id, |artifacts|), Some(task), risk)
    }

    method Invalidate(changed: seq<Artifact>)
      modifies this`artifacts
      ensures artifacts == Invalidated(old(artifacts), set a | a in changed :: a.id)
    {
      var i := 0;
      assert Invalidated(artifacts, {}) == artifacts;
      while i < |changed|
        invariant 0 <= i <= |changed|
        invariant artifacts == Invalidated(old(artifacts), set k | 0 <= k < i :: changed[k].id)
      {
        artifacts := Invalidated(artifacts, {changed[i].id});
        i := i + 1;
      }
      assert (set k | 0 <= k < |changed| :: changed[k].id) == set a | a in changed :: a.id;
    }

    /** The acceptance step of validateDoneSignal: None is a rejection of the signal, Some the
        routing outcome. `append` stands for AppendAdversarialProbes. */
    method ValidateAcceptanceSignal(h: Heuristics, files: Files, task: TaskInfo, report: Option<Report>, risk: Risk,
                                    adversarialRequired: bool, append: (Spec, Review) -> Option<Spec>)
        returns (outcome: Option<bool>)
      requires task.id != ""
      modifies this
      ensures var c := old(CaseOf(task, report, risk)); var verdict := Judge(h, files, c);
              && (outcome == Some(true) <==>
                    verdict.Pass? && (adversarialRequired ==> ReviewSatisfied(report.value)))
              && (outcome == None <==> !ValidReport(report, task.id, c.spec) || verdict.Reject?)
              && artifacts == (if ValidReport(report, task.id, c.spec)
                               then Invalidated(old(artifacts), set a | a in c.artifacts && !Unchanged(files, a) :: a.id)
                               else old(artifacts))
              && reports == (if outcome == None then old(reports)
                             else old(reports)[task.id := StoredReport(report.value, ScoreOf(c), verdict.Pass?)])
      ensures outcome == Some(true) ==>
                var c := old(CaseOf(task, report, risk));
                report.Some? && c.spec.Some? && FullyBacked(files, c.artifacts, report.value, c.spec.value)
      ensures bundles == old(bundles) && specs - {task.id} == old(specs) - {task.id}
      ensures outcome != Some(false) || !adversarialRequired ==> specs == old(specs)
    {
      hide Judge, ValidReport, Passes, ScoreOf, ReviewSatisfied, Unchanged, FullyBacked, ArtifactList, Invalidated, Mismatches;
      hide ConfidenceLabel;
      ghost var c := CaseOf(task, report, risk);
      var spec := if task.id in specs then Some(specs[task.id]) else None;
      var pass := ValidateVerificationReport(report, task.id, spec);
      if pass.None? {
        JudgeInvalidReport(h, files, c);
        return None;
      }
      var bundle := if task.id in bundles then Some(bundles[task.id]) else None;
      var listed := ArtifactList(artifacts, task.id, |artifacts|);
      var changed := ArtifactHashMismatches(files, listed);
      Invalidate(changed);
      assert (set a | a in changed :: a.id) == set a | a in listed && !Unchanged(files, a) :: a.id;
      var verdict := ComputeVerdict(h, files, Case(spec, bundle, report, listed, Some(task), risk));
      JudgeFacts(h, files, c);
      if verdict.Reject? {
        return None;
      }
      reports := reports[report.value.taskId := StoredReport(report.value, verdict.score, verdict.Pass?)];
      if adversarialRequired && !ReviewSatisfied(report.value) {
        AppendProbes(task.id, report.value, append);
        return Some(false);
      }
      if ConfidenceLabel(verdict.score) == LowConfidence {
        return Some(false);
      }
      if verdict.RetryOrEscalate? && verdict.reason == "low_confidence" {
        return Some(false);
      }
      if verdict.Pass? {
        SuccessIsBacked(h, files, c);
      }
      return Some(verdict.Pass?);
    }

    method AppendProbes(taskId: string, report: Report, append: (Spec, Review) -> Option<Spec>)
      modifies this`specs
      ensures specs == if taskId in old(specs) && report.review.Some? && append(old(specs)[taskId], report.review.value).Some?
                       then old(specs)[taskId := append(old(specs)[taskId], report.review.value).value] else old(specs)
    {
      if taskId in specs && report.review.Some? {
        var extended := append(specs[taskId], report.review.value);
        if extended.Some? {
          specs := specs[taskId := extended.value];
        }
      }
    }
  }

  lemma SuccessIsBacked(h: Heuristics, files: Files, c: Case)
    requires Judge(h, files, c).Pass?
    ensures c.report.Some? && c.spec.Some? && FullyBacked(files, c.artifacts, c.report.value, c.spec.value)
  {
    hide Judge, FullyBacked;
    PassMeansEvidence(h, files, c);
  }

  lemma JudgeInvalidReport(h: Heuristics, files: Files, c: Case)
    requires !ValidReport(c.report, TaskIdOf(c), c.spec)
    ensures Judge(h, files, c).Reject?
  {
    hide ValidReport, StrongSpec, ValidDoneBundle;
  }

  lemma JudgeFacts(h: Heuristics, files: Files, c: Case)
    ensures var v := Judge(h, files, c);
            && (!v.Reject? ==> v.score == ScoreOf(c) && ValidReport(c.report, TaskIdOf(c), c.spec)
                               && c.report.Some? && c.report.value.taskId == TaskIdOf(c))
            && (v.Pass? ==> ConfidenceLabel(v.score) != LowConfidence)
  {
    hide StrongSpec, ValidDoneBundle, ResultOk, CriterionAnswered, ReferencesOk, Mismatches, Passes, Score;
  }

  lemma StillChanged(files: Files, a: Artifact)
    ensures Unchanged(files, a.(status := "invalidated")) <==> Unchanged(files, a)
  {}

  /** Spec, bundle, report and references are in order. */
  ghost predicate InOrder(h: Heuristics, c: Case) {
    && StrongSpec(h, c.spec, TaskIdOf(c), c.risk) && ValidDoneBundle(c.bundle, TaskIdOf(c), c.spec)
    && ValidReport(c.report, TaskIdOf(c), c.spec) && ReferencesOk(h, c.report.value, c.artifacts)
  }

  lemma JudgeRejects(h: Heuristics, files: Files, c: Case)
    ensures Judge(h, files, c).Reject? <==> !InOrder(h, c) || exists a :: a in c.artifacts && !Unchanged(files, a)
  {
    hide StrongSpec, ValidDoneBundle, ValidReport, ReferencesOk, Mismatches, Unchanged;
    NoMismatches(files, c.artifacts);
  }

  /** What a case that is not rejected gets: a fail iff the report does not pass; and if it does,
      another try iff, under high risk, the task was retried three times on one type of evidence
      or else the review is not satisfied; a pass in all other cases. */
  lemma VerdictExactly(h: Heuristics, files: Files, c: Case)
    requires InOrder(h, c) && forall a | a in c.artifacts :: Unchanged(files, a)
    ensures var v, report := Judge(h, files, c), c.report.value;
            var thin := c.risk == High && c.task.Some? && c.task.value.retryCount >= 3 && |Types(report.results, |report.results|)| == 1;
            var doubted := c.risk == High && !ReviewSatisfied(report);
            && (v == Fail(ScoreOf(c)) <==> !Passes(report))
            && (v == RetryOrEscalate("low_confidence", ScoreOf(c)) <==> Passes(report) && thin)
            && (v == RetryOrEscalate("adversarial_check_failed", ScoreOf(c)) <==> Passes(report) && !thin && doubted)
            && (v == Pass(ScoreOf(c)) <==> Passes(report) && !thin && !doubted)
  {
    hide CriterionOk, ResultOk, CriterionAnswered, ReferencesOk, ValidDoneBundle, Score, Unchanged, ReviewSatisfied, Types;
    NoMismatches(files, c.artifacts);
    assert "low_confidence"[0] != "adversarial_check_failed"[0];
    if Passes(c.report.value) {
      ConfidenceOfPassing(h, c.spec.value, c.report.value, TaskIdOf(c), c.risk, if c.task.Some? then c.task.value.retryCount else 0);
    }
  }

  /** The reason of a rejection is the first gate that is closed. */
  lemma RejectReasons(h: Heuristics, files: Files, c: Case)
    ensures var v := Judge(h, files, c);
            var strong, bundle := StrongSpec(h, c.spec, TaskIdOf(c), c.risk), ValidDoneBundle(c.bundle, TaskIdOf(c), c.spec);
            var valid := ValidReport(c.report, TaskIdOf(c), c.spec);
            && (v == Reject("weak_acceptance_spec") <==> !strong)
            && (v == Reject("invalid_done_bundle") <==> strong && !bundle)
            && (v == Reject("invalid_verification_report") <==> strong && bundle && !valid)
            && (v == Reject("invalid_artifact_provenance") <==>
                  strong && bundle && valid && !(InOrder(h, c) && forall a | a in c.artifacts :: Unchanged(files, a)))
  {
    hide StrongSpec, ValidDoneBundle, ValidReport, ReferencesOk, Mismatches, Unchanged;
    NoMismatches(files, c.artifacts);
    assert "weak_acceptance_spec"[0] != "invalid_done_bundle"[0];
    assert "invalid_done_bundle"[8] != "invalid_verification_report"[8] && "invalid_done_bundle"[8] != "invalid_artifact_provenance"[8];
    assert "invalid_verification_report"[8] != "invalid_artifact_provenance"[8];
  }

  lemma ChangedStaysChanged(files: Files, artifacts: seq<Artifact>, ids: set<string>)
    ensures (exists a :: a in Invalidated(artifacts, ids) && !Unchanged(files, a))
            <==> exists a :: a in artifacts && !Unchanged(files, a)
  {
    var later := Invalidated(artifacts, ids);
    if a :| a in artifacts && !Unchanged(files, a) {
      var i :| 0 <= i < |artifacts| && artifacts[i] == a;
      StillChanged(files, a);
      assert later[i] in later && !Unchanged(files, later[i]);
    }
    if a :| a in later && !Unchanged(files, a) {
      var i :| 0 <= i < |later| && later[i] == a;
      StillChanged(files, artifacts[i]);
      assert artifacts[i] in artifacts && !Unchanged(files, artifacts[i]);
    }
  }

  /** With the other inputs in order the signal is rejected iff some artifact of the task has
      changed, whether or not the report uses it; and since invalidated artifacts are hashed as
      well, the same change counts in every later attempt. */
  lemma ChangedArtifactRejects(h: Heuristics, files: Files, c: Case, ids: set<string>)
    ensures var changed := exists a :: a in c.artifacts && !Unchanged(files, a);
            var later := c.(artifacts := Invalidated(c.artifacts, ids));
            && (Judge(h, files, c).Reject? <==> !InOrder(h, c) || changed)
            && (Judge(h, files, later).Reject? <==> !InOrder(h, later) || changed)
  {
    hide Judge, InOrder, Unchanged;
    JudgeRejects(h, files, c);
    JudgeRejects(h, files, c.(artifacts := Invalidated(c.artifacts, ids)));
    ChangedStaysChanged(files, c.artifacts, ids);
  }
}
