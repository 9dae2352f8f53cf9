/** Validation of verification reports against an acceptance spec. */
module Reports {
  import opened Options
  import opened GoStrings
  import opened Acceptance

  // ---- Adversarial reviews ------------------------------------------------------------------

  predicate FindingOk(f: Finding) {
    !IsBlank(f.risk) && !IsBlank(f.suggestedProbe) && ToLower(TrimSpace(f.severity)) in {"low", "medium", "high"}
  }

  predicate FollowupOk(ev: Evidence) {
    !IsBlank(ev.artifactId) && !IsBlank(ev.probeId) && EvidenceProvenance(ev) && IsVerifierEvidenceProducer(ev.producerRole)
  }

  /** The appended probe was followed up, or the review dismissed. */
  ghost predicate AppendedOk(review: Review, probeId: string) {
    || IsBlank(probeId) || !IsBlank(review.dismissalReason)
    || exists k | 0 <= k < |review.followupEvidence| :: TrimSpace(review.followupEvidence[k].probeId) == TrimSpace(probeId)
  }

  ghost predicate ValidReview(review: Review, taskId: string) {
    && review.taskId == taskId
    && (forall i | 0 <= i < |review.findings| :: FindingOk(review.findings[i]))
    && (forall i | 0 <= i < |review.followupEvidence| :: FollowupOk(review.followupEvidence[i]))
    && (forall i | 0 <= i < |review.appendedProbeIds| :: AppendedOk(review, review.appendedProbeIds[i]))
  }

  method ValidateAdversarialReview(review: Review, taskId: string) returns (ok: bool)
    ensures ok <==> ValidReview(review, taskId)
  {
    hide TrimSpace, ToLower, EvidenceProvenance, IsVerifierEvidenceProducer;
    if review.taskId != taskId { return false; }
    for i := 0 to |review.findings|
      invariant forall k | 0 <= k < i :: FindingOk(review.findings[k])
    {
      if !FindingOk(review.findings[i]) { return false; }
    }
    var evidenceByProbe: set<string> := {};
    for i := 0 to |review.followupEvidence|
      invariant forall k | 0 <= k < i :: FollowupOk(review.followupEvidence[k])
      invariant evidenceByProbe == set k | 0 <= k < i :: TrimSpace(review.followupEvidence[k].probeId)
    {
      var evidence := review.followupEvidence[i];
      if !FollowupOk(evidence) { return false; }
      evidenceByProbe := evidenceByProbe + {TrimSpace(evidence.probeId)};
    }
    for i := 0 to |review.appendedProbeIds|
      invariant forall k | 0 <= k < i :: AppendedOk(review, review.appendedProbeIds[k])
    {
      var probeId := TrimSpace(review.appendedProbeIds[i]);
      if probeId != "" && probeId !in evidenceByProbe && IsBlank(review.dismissalReason) {
        assert !AppendedOk(review, review.appendedProbeIds[i]);
        return false;
      }
    }
    ok := true;
  }

  /** AdversarialReviewSatisfied: nothing serious is left open. */
  predicate ReviewSatisfied(report: Report) {
    && report.review.Some?
    && var review := report.review.value;
       (!IsBlank(review.dismissalReason) || review.followupEvidence != []
        || (!review.requiredFollowup && forall f | f in review.findings :: !EqualFold(f.severity, "high")))
  }

  // ---- Results --------------------------------------------------------------------------------

  /** Evidence that can be linked to a probe with this id. */
  predicate KnownProbe(spec: Option<Spec>, criterionId: string, probeId: string) {
    spec.None? ||
    var c := LastCriterion(spec.value.criteria, |spec.value.criteria|, criterionId);
    c.Some? && exists p | p in c.value.probes :: p.id == probeId
  }

  predicate EvidenceOk(spec: Option<Spec>, criterionId: string, ev: Evidence) {
    && !IsBlank(ev.artifactId) && ev.typ != "" && EvidenceProvenance(ev)
    && IsVerifierEvidenceProducer(ev.producerRole)
    && (ev.probeId != "" ==> KnownProbe(spec, criterionId, ev.probeId))
  }

  ghost predicate ResultOk(spec: Option<Spec>, r: Result) {
    && r.criterionId != "" && r.status in {"pass", "fail"}
    && (r.status == "pass" ==> r.evidence != [])
    && forall j | 0 <= j < |r.evidence| :: EvidenceOk(spec, r.criterionId, r.evidence[j])
  }

  ghost predicate HasType(evidence: seq<Evidence>, t: string) {
    exists j | 0 <= j < |evidence| :: evidence[j].typ == t
  }

  ghost predicate HasLink(evidence: seq<Evidence>, probeId: string) {
    probeId != "" && exists j | 0 <= j < |evidence| :: evidence[j].probeId == probeId
  }

  ghost predicate HasLinkOfType(evidence: seq<Evidence>, probeId: string, t: string) {
    probeId != "" && exists j | 0 <= j < |evidence| :: evidence[j].probeId == probeId && evidence[j].typ == t
  }

  ghost predicate ProbeCovered(p: Probe, evidence: seq<Evidence>) {
    HasLink(evidence, p.id) && forall t | t in p.requiredEvidence :: HasLinkOfType(evidence, p.id, t)
  }

  /** The evidence has every required type and, linked to each probe, every type the probe requires. */
  ghost predicate Covers(c: Criterion, evidence: seq<Evidence>) {
    && (forall t | t in c.requiredArtifacts :: HasType(evidence, t))
    && (forall p | p in c.probes :: ProbeCovered(p, evidence))
  }

  /** The criterion's last result, if it passed, covers the criterion. */
  ghost predicate CriterionAnswered(report: Report, c: Criterion) {
    var r := LastResult(report.results, |report.results|, c.id);
    r.Some? && (r.value.status == "pass" ==> Covers(c, r.value.evidence))
  }

  ghost predicate ValidReport(report: Option<Report>, taskId: string, spec: Option<Spec>) {
    && report.Some? && report.value.taskId == taskId && report.value.results != [] && report.value.confidence != ""
    && (report.value.review.Some? ==> ValidReview(report.value.review.value, taskId))
    && (forall i | 0 <= i < |report.value.results| :: ResultOk(spec, report.value.results[i]))
    && (spec.Some? ==> forall i | 0 <= i < |spec.value.criteria| :: CriterionAnswered(report.value, spec.value.criteria[i]))
  }

  predicate Passes(report: Report) {
    report.failures == [] && forall i | 0 <= i < |report.results| :: report.results[i].status == "pass"
  }

  // ---- The validator --------------------------------------------------------------------------

  method CheckResult(spec: Option<Spec>, r: Result, probes: map<string, set<string>>) returns (ok: bool)
    requires spec.Some? ==> ProbeTable(spec.value.criteria, |spec.value.criteria|, probes)
    ensures ok <==> ResultOk(spec, r)
  {
    hide TrimSpace, EvidenceProvenance, IsVerifierEvidenceProducer, LastCriterion;
    if r.criterionId == "" || (r.status != "pass" && r.status != "fail") { return false; }
    if r.status == "pass" && r.evidence == [] { return false; }
    for j := 0 to |r.evidence|
      invariant forall k | 0 <= k < j :: EvidenceOk(spec, r.criterionId, r.evidence[k])
    {
      var ev := r.evidence[j];
      if IsBlank(ev.artifactId) || ev.typ == "" || !EvidenceProvenance(ev) || !IsVerifierEvidenceProducer(ev.producerRole) {
        return false;
      }
      if spec.Some? && ev.probeId != "" {
        var known := r.criterionId in probes && ev.probeId in probes[r.criterionId];
        KnownFromTable(spec, probes, r.criterionId, ev.probeId);
        if !known { return false; }
      }
    }
    ok := true;
  }

  /** validProbeByCriterion after n criteria. */
  ghost predicate ProbeTable(criteria: seq<Criterion>, n: nat, probes: map<string, set<string>>)
    requires n <= |criteria|
  {
    forall id :: var c := LastCriterion(criteria, n, id);
      && (id in probes <==> c.Some?)
      && (c.Some? ==> probes[id] == set p | p in c.value.probes :: p.id)
  }

  lemma KnownFromTable(spec: Option<Spec>, probes: map<string, set<string>>, criterionId: string, probeId: string)
    requires spec.Some? && ProbeTable(spec.value.criteria, |spec.value.criteria|, probes)
    ensures KnownProbe(spec, criterionId, probeId) <==> criterionId in probes && probeId in probes[criterionId]
  {
    hide LastCriterion;
    assert LastCriterion(spec.value.criteria, |spec.value.criteria|, criterionId).Some? <==> criterionId in probes;
  }

  method BuildProbeTable(criteria: seq<Criterion>) returns (probes: map<string, set<string>>)
    ensures ProbeTable(criteria, |criteria|, probes)
  {
    probes := map[];
    for i := 0 to |criteria|
      invariant ProbeTable(criteria, i, probes)
    {
      var ids: set<string> := {};
      for j := 0 to |criteria[i].probes|
        invariant ids == set k | 0 <= k < j :: criteria[i].probes[k].id
      {
        ids := ids + {criteria[i].probes[j].id};
      }
      assert ids == set p | p in criteria[i].probes :: p.id;
      probes := probes[criteria[i].id := ids];
    }
  }

  method CheckCoverage(c: Criterion, evidence: seq<Evidence>) returns (ok: bool)
    ensures ok <==> Covers(c, evidence)
  {
    var types: set<string> := {};
    var links: set<(string, string)> := {};
    for j := 0 to |evidence|
      invariant types == set k | 0 <= k < j :: evidence[k].typ
      invariant links == set k | 0 <= k < j && evidence[k].probeId != "" :: (evidence[k].probeId, evidence[k].typ)
    {
      types := types + {evidence[j].typ};
      if evidence[j].probeId != "" {
        links := links + {(evidence[j].probeId, evidence[j].typ)};
      }
    }
    for i := 0 to |c.requiredArtifacts|
      invariant forall k | 0 <= k < i :: HasType(evidence, c.requiredArtifacts[k])
    {
      if c.requiredArtifacts[i] !in types {
        assert !HasType(evidence, c.requiredArtifacts[i]);
        return false;
      }
    }
    for i := 0 to |c.probes|
      invariant forall k | 0 <= k < i :: ProbeCovered(c.probes[k], evidence)
    {
      var covered := CheckProbeCoverage(c.probes[i], evidence, links);
      if !covered { return false; }
    }
    ok := true;
  }

  lemma LinkedProbes(id: string, evidence: seq<Evidence>, links: set<(string, string)>)
    requires links == set k | 0 <= k < |evidence| && evidence[k].probeId != "" :: (evidence[k].probeId, evidence[k].typ)
    ensures HasLink(evidence, id) <==> exists l | l in links :: l.0 == id
  {
    if HasLink(evidence, id) {
      var j :| 0 <= j < |evidence| && evidence[j].probeId == id;
      assert (evidence[j].probeId, evidence[j].typ) in links;
    }
  }

  method CheckProbeCoverage(p: Probe, evidence: seq<Evidence>, links: set<(string, string)>) returns (ok: bool)
    requires links == set k | 0 <= k < |evidence| && evidence[k].probeId != "" :: (evidence[k].probeId, evidence[k].typ)
    ensures ok <==> ProbeCovered(p, evidence)
  {
    LinkedProbes(p.id, evidence, links);
    if !exists l | l in links :: l.0 == p.id {
      return false;
    }
    for i := 0 to |p.requiredEvidence|
      invariant forall k | 0 <= k < i :: HasLinkOfType(evidence, p.id, p.requiredEvidence[k])
    {
      if (p.id, p.requiredEvidence[i]) !in links {
        assert !HasLinkOfType(evidence, p.id, p.requiredEvidence[i]);
        return false;
      }
    }
    ok := true;
  }

  /** resultByCriterion after n results. */
  ghost predicate ResultTable(results: seq<Result>, n: nat, table: map<string, Result>)
    requires n <= |results|
  {
    forall id :: var r := LastResult(results, n, id); (id in table <==> r.Some?) && (r.Some? ==> table[id] == r.value)
  }

  lemma NextResult(results: seq<Result>, n: nat, table: map<string, Result>)
    requires n < |results| && ResultTable(results, n, table)
    ensures ResultTable(results, n + 1, table[results[n].criterionId := results[n]])
  {}

  method CheckCriteria(r: Report, criteria: seq<Criterion>, table: map<string, Result>, soFar: bool)
      returns (ok: bool, passing: bool)
    requires ResultTable(r.results, |r.results|, table) && soFar == Passes(r)
    ensures ok <==> forall i | 0 <= i < |criteria| :: CriterionAnswered(r, criteria[i])
    ensures passing == soFar
  {
    hide Covers, LastResult;
    passing := soFar;
    for i := 0 to |criteria|
      invariant forall k | 0 <= k < i :: CriterionAnswered(r, criteria[k])
      invariant passing == soFar
    {
      assert criteria[i].id in table <==> LastResult(r.results, |r.results|, criteria[i].id).Some?;
      if criteria[i].id !in table { return false, soFar; }
      var result := table[criteria[i].id];
      if result.status != "pass" {
        assert result in r.results;
        passing := false;
      } else {
        var covered := CheckCoverage(criteria[i], result.evidence);
        if !covered { return false, soFar; }
      }
    }
    ok := true;
  }

  /** ValidateVerificationReport: None is an error, Some(pass) the acceptance result. */
  method ValidateVerificationReport(report: Option<Report>, taskId: string, spec: Option<Spec>) returns (pass: Option<bool>)
    ensures pass.Some? <==> ValidReport(report, taskId, spec)
    ensures pass.Some? ==> pass.value == Passes(report.value)
  {
    hide ResultOk, ValidReview, CriterionAnswered, ResultTable, ProbeTable;
    if report.None? || report.value.taskId != taskId || report.value.results == [] || report.value.confidence == "" {
      return None;
    }
    var r := report.value;
    if r.review.Some? {
      var reviewOk := ValidateAdversarialReview(r.review.value, taskId);
      if !reviewOk { return None; }
    }
    var passing := r.failures == [];
    var probes: map<string, set<string>> := map[];
    if spec.Some? {
      probes := BuildProbeTable(spec.value.criteria);
    }
    var resultByCriterion: map<string, Result> := map[];
    NoResults(r.results);
    for i := 0 to |r.results|
      invariant forall k | 0 <= k < i :: ResultOk(spec, r.results[k])
      invariant passing <==> r.failures == [] && forall k | 0 <= k < i :: r.results[k].status == "pass"
      invariant ResultTable(r.results, i, resultByCriterion)
    {
      var ok := CheckResult(spec, r.results[i], probes);
      if !ok { return None; }
      StatusIsTwoValued(spec, r.results[i]);
      if r.results[i].status == "fail" {
        passing := false;
      }
      NextResult(r.results, i, resultByCriterion);
      resultByCriterion := resultByCriterion[r.results[i].criterionId := r.results[i]];
    }
    if spec.Some? {
      var answered;
      answered, passing := CheckCriteria(r, spec.value.criteria, resultByCriterion, passing);
      if !answered { return None; }
    }
    pass := Some(passing);
  }

  lemma NoResults(results: seq<Result>)
    ensures ResultTable(results, 0, map[])
  {}

  lemma StatusIsTwoValued(spec: Option<Spec>, r: Result)
    requires ResultOk(spec, r)
    ensures r.status == "pass" <==> r.status != "fail"
  {}
}
