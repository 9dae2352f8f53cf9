/** The confidence score of a verification report, in exact arithmetic. */
module Confidence {
  import opened Options
  import opened Acceptance
  import opened AcceptanceSpecs
  import opened Reports
  import opened Sets

  datatype Label = LowConfidence | MediumConfidence | HighConfidence

  const THRESHOLD_HIGH := 0.85
  const THRESHOLD_MEDIUM := 0.65

  function ConfidenceLabel(score: real): Label {
    if score >= THRESHOLD_HIGH then HighConfidence
    else if score >= THRESHOLD_MEDIUM then MediumConfidence
    else LowConfidence
  }

  predicate MeetsRequiredConfidence(score: real, risk: Risk) {
    if risk == High then score >= THRESHOLD_HIGH else score >= THRESHOLD_MEDIUM
  }

  // ---- What the score measures ----------------------------------------------------------------

  /** The evidence types of the first n results. */
  function Types(results: seq<Result>, n: nat): set<string>
    requires n <= |results|
  {
    set i, j | 0 <= i < n && 0 <= j < |results[i].evidence| :: results[i].evidence[j].typ
  }

  function ProbeKey(criterionId: string, probeId: string): string {
    criterionId + "::" + probeId
  }

  /** The probes the evidence of the first n results is linked to. */
  function Links(results: seq<Result>, n: nat): set<string>
    requires n <= |results|
  {
    set i, j | 0 <= i < n && 0 <= j < |results[i].evidence| && results[i].evidence[j].probeId != ""
      :: ProbeKey(results[i].criterionId, results[i].evidence[j].probeId)
  }

  function CountLinked(c: Criterion, n: nat, links: set<string>): nat
    requires n <= |c.probes|
  {
    if n == 0 then 0 else CountLinked(c, n - 1, links) + (if ProbeKey(c.id, c.probes[n - 1].id) in links then 1 else 0)
  }

  function ProbesCovered(criteria: seq<Criterion>, n: nat, links: set<string>): nat
    requires n <= |criteria|
  {
    if n == 0 then 0
    else ProbesCovered(criteria, n - 1, links) + CountLinked(criteria[n - 1], |criteria[n - 1].probes|, links)
  }

  function ProbesTotal(criteria: seq<Criterion>, n: nat): nat
    requires n <= |criteria|
  {
    if n == 0 then 0 else ProbesTotal(criteria, n - 1) + |criteria[n - 1].probes|
  }

  function RequiredTypes(criteria: seq<Criterion>, n: nat): set<string>
    requires n <= |criteria|
  {
    set i, j | 0 <= i < n && 0 <= j < |criteria[i].requiredArtifacts| :: criteria[i].requiredArtifacts[j]
  }

  predicate CriterionFailed(report: Report, id: string) {
    || (exists r | r in report.results :: r.criterionId == id && r.status == "fail")
    || (exists f | f in report.failures :: f.criterionId == id)
  }

  function CriteriaPassed(criteria: seq<Criterion>, n: nat, report: Report): nat
    requires n <= |criteria|
  {
    if n == 0 then 0
    else CriteriaPassed(criteria, n - 1, report) + (if CriterionFailed(report, criteria[n - 1].id) then 0 else 1)
  }

  function Fraction(part: nat, whole: nat): real {
    if whole == 0 then 0.0 else part as real / whole as real
  }

  function RetryScore(retryCount: int): real {
    if retryCount <= 0 then 1.0
    else if retryCount >= 3 then 0.0
    else 1.0 - retryCount as real / 3.0
  }

  function Diversity(types: nat): real {
    (if types > 4 then 4.0 else types as real) / 4.0
  }

  function Clamp(score: real): real {
    if score < 0.0 then 0.0 else if score > 1.0 then 1.0 else score
  }

  function Score(spec: Option<Spec>, report: Option<Report>, retryCount: int): real {
    if spec.None? || report.None? || spec.value.criteria == [] || report.value.results == [] then 0.0
    else
      var criteria, results := spec.value.criteria, report.value.results;
      var types, required := Types(results, |results|), RequiredTypes(criteria, |criteria|);
      Clamp(0.35 * Fraction(ProbesCovered(criteria, |criteria|, Links(results, |results|)), ProbesTotal(criteria, |criteria|))
            + 0.30 * Fraction(|required * types|, |required|)
            + 0.15 * Fraction(CriteriaPassed(criteria, |criteria|, report.value), |criteria|)
            + 0.10 * RetryScore(retryCount)
            + 0.10 * Diversity(|types|))
  }

  // ---- The loops that compute it ----------------------------------------------------------------

  method CollectEvidence(results: seq<Result>) returns (types: set<string>, links: set<string>)
    ensures types == Types(results, |results|) && links == Links(results, |results|)
  {
    types, links := {}, {};
    for i := 0 to |results|
      invariant types == Types(results, i) && links == Links(results, i)
    {
      var evidence := results[i].evidence;
      for j := 0 to |evidence|
        invariant types == Types(results, i) + set k | 0 <= k < j :: evidence[k].typ
        invariant links == Links(results, i)
                           + set k | 0 <= k < j && evidence[k].probeId != "" :: ProbeKey(results[i].criterionId, evidence[k].probeId)
      {
        types := types + {evidence[j].typ};
        if evidence[j].probeId != "" {
          links := links + {ProbeKey(results[i].criterionId, evidence[j].probeId)};
        }
      }
    }
  }

  method CountProbes(criteria: seq<Criterion>, links: set<string>) returns (covered: nat, total: nat)
    ensures covered == ProbesCovered(criteria, |criteria|, links) && total == ProbesTotal(criteria, |criteria|)
  {
    covered, total := 0, 0;
    for i := 0 to |criteria|
      invariant covered == ProbesCovered(criteria, i, links) && total == ProbesTotal(criteria, i)
    {
      for j := 0 to |criteria[i].probes|
        invariant covered == ProbesCovered(criteria, i, links) + CountLinked(criteria[i], j, links)
        invariant total == ProbesTotal(criteria, i) + j
      {
        total := total + 1;
        if ProbeKey(criteria[i].id, criteria[i].probes[j].id) in links {
          covered := covered + 1;
        }
      }
    }
  }

  method CollectRequired(criteria: seq<Criterion>) returns (required: set<string>)
    ensures required == RequiredTypes(criteria, |criteria|)
  {
    required := {};
    for i := 0 to |criteria|
      invariant required == RequiredTypes(criteria, i)
    {
      for j := 0 to |criteria[i].requiredArtifacts|
        invariant required == RequiredTypes(criteria, i) + set k | 0 <= k < j :: criteria[i].requiredArtifacts[k]
      {
        required := required + {criteria[i].requiredArtifacts[j]};
      }
    }
  }

  method CountMatched(required: set<string>, types: set<string>) returns (matched: nat)
    ensures matched == |required * types|
  {
    matched := 0;
    var todo := required;
    while todo != {}
      invariant todo <= required && matched + |todo * types| == |required * types|
      decreases |todo|
    {
      var art :| art in todo;
      if art in types {
        matched := matched + 1;
        assert todo * types == ((todo - {art}) * types) + {art};
      } else {
        assert todo * types == (todo - {art}) * types;
      }
      todo := todo - {art};
    }
  }

  method CountPassed(criteria: seq<Criterion>, report: Report) returns (passed: nat)
    ensures passed == CriteriaPassed(criteria, |criteria|, report)
  {
    passed := 0;
    for i := 0 to |criteria|
      invariant passed == CriteriaPassed(criteria, i, report)
    {
      var failed := false;
      for j := 0 to |report.results|
        invariant failed <==> exists k | 0 <= k < j :: report.results[k].criterionId == criteria[i].id && report.results[k].status == "fail"
      {
        if report.results[j].criterionId == criteria[i].id && report.results[j].status == "fail" {
          failed := true;
        }
      }
      if !failed && |report.failures| > 0 {
        for j := 0 to |report.failures|
          invariant failed <==> exists k | 0 <= k < j :: report.failures[k].criterionId == criteria[i].id
        {
          if report.failures[j].criterionId == criteria[i].id {
            failed := true;
          }
        }
      }
      assert failed <==> CriterionFailed(report, criteria[i].id);
      if !failed {
        passed := passed + 1;
      }
    }
  }

  method ComputeVerificationConfidence(spec: Option<Spec>, report: Option<Report>, retryCount: int) returns (score: real)
    ensures score == Score(spec, report, retryCount)
  {
    hide Types, Links, RequiredTypes, ProbesCovered, ProbesTotal, CriteriaPassed;
    if spec.None? || report.None? || spec.value.criteria == [] || report.value.results == [] {
      return 0.0;
    }
    var types, links := CollectEvidence(report.value.results);
    var covered, total := CountProbes(spec.value.criteria, links);
    var evidenceCoverage := 0.0;
    if total > 0 {
      evidenceCoverage := covered as real / total as real;
    }
    var required := CollectRequired(spec.value.criteria);
    var artifactCoverage := 0.0;
    if |required| > 0 {
      var matched := CountMatched(required, types);
      artifactCoverage := matched as real / |required| as real;
    }
    var passed := CountPassed(spec.value.criteria, report.value);
    var failureScore := passed as real / |spec.value.criteria| as real;
    var retryScore := 1.0;
    if retryCount > 0 {
      retryScore := 1.0 - retryCount as real / 3.0;
      if retryScore < 0.0 {
        retryScore := 0.0;
      }
    }
    var distinctTypes := |types|;
    if distinctTypes > 4 {
      distinctTypes := 4;
    }
    score := 0.35 * evidenceCoverage + 0.30 * artifactCoverage + 0.15 * failureScore + 0.10 * retryScore
             + 0.10 * (distinctTypes as real / 4.0);
    if score < 0.0 {
      score := 0.0;
    }
    if score > 1.0 {
      score := 1.0;
    }
  }

  // ---- Reports that pass --------------------------------------------------------------------------

  lemma AnsweredCriterion(report: Report, taskId: string, spec: Spec, c: Criterion)
    requires ValidReport(Some(report), taskId, Some(spec)) && Passes(report) && c in spec.criteria
    ensures !CriterionFailed(report, c.id)
    ensures exists i | 0 <= i < |report.results| :: report.results[i].criterionId == c.id && Covers(c, report.results[i].evidence)
  {
    hide Covers, ResultOk, ValidReview;
    var i :| 0 <= i < |spec.criteria| && spec.criteria[i] == c;
    assert CriterionAnswered(report, spec.criteria[i]);
    var r := LastResult(report.results, |report.results|, c.id);
    assert r.value in report.results;
  }

  lemma AllLinked(report: Report, taskId: string, spec: Spec, c: Criterion)
    requires ValidReport(Some(report), taskId, Some(spec)) && Passes(report) && c in spec.criteria
    ensures forall p | p in c.probes :: ProbeKey(c.id, p.id) in Links(report.results, |report.results|)
    ensures forall t | t in c.requiredArtifacts :: t in Types(report.results, |report.results|)
  {
    hide ValidReport, ProbeKey, Passes;
    AnsweredCriterion(report, taskId, spec, c);
    var i :| 0 <= i < |report.results| && report.results[i].criterionId == c.id && Covers(c, report.results[i].evidence);
    forall p | p in c.probes ensures ProbeKey(c.id, p.id) in Links(report.results, |report.results|) {
      assert ProbeCovered(p, report.results[i].evidence);
      var j :| 0 <= j < |report.results[i].evidence| && report.results[i].evidence[j].probeId == p.id;
    }
    forall t | t in c.requiredArtifacts ensures t in Types(report.results, |report.results|) {
      assert HasType(report.results[i].evidence, t);
    }
  }

  lemma {:induction false} CountAll(c: Criterion, n: nat, links: set<string>)
    requires n <= |c.probes| && forall p | p in c.probes :: ProbeKey(c.id, p.id) in links
    ensures CountLinked(c, n, links) == n
  {
    if n > 0 {
      CountAll(c, n - 1, links);
      assert c.probes[n - 1] in c.probes;
    }
  }

  lemma {:induction false} FullCoverage(report: Report, taskId: string, spec: Spec, n: nat)
    requires ValidReport(Some(report), taskId, Some(spec)) && Passes(report) && n <= |spec.criteria|
    ensures ProbesCovered(spec.criteria, n, Links(report.results, |report.results|)) == ProbesTotal(spec.criteria, n)
    ensures RequiredTypes(spec.criteria, n) <= Types(report.results, |report.results|)
    ensures CriteriaPassed(spec.criteria, n, report) == n
  {
    hide ValidReport, Passes, Links, Types, CriterionFailed;
    if n > 0 {
      FullCoverage(report, taskId, spec, n - 1);
      var c := spec.criteria[n - 1];
      AnsweredCriterion(report, taskId, spec, c);
      AllLinked(report, taskId, spec, c);
      CountAll(c, |c.probes|, Links(report.results, |report.results|));
    }
  }

  lemma {:induction false} TotalAtLeast(criteria: seq<Criterion>, n: nat)
    requires n <= |criteria| && forall i | 0 <= i < n :: criteria[i].probes != []
    ensures ProbesTotal(criteria, n) >= n
  {
    if n > 0 {
      TotalAtLeast(criteria, n - 1);
    }
  }

  lemma Arithmetic(required: nat, types: nat, covered: nat, criteria: nat, retryCount: int)
    requires required > 0 && covered > 0 && criteria > 0 && types > 0
    ensures Clamp(0.35 * Fraction(covered, covered) + 0.30 * Fraction(required, required) + 0.15 * Fraction(criteria, criteria)
                  + 0.10 * RetryScore(retryCount) + 0.10 * Diversity(types))
         == 0.8 + 0.1 * RetryScore(retryCount) + 0.1 * Diversity(types)
  {
    assert Fraction(covered, covered) == 1.0 && Fraction(required, required) == 1.0 && Fraction(criteria, criteria) == 1.0;
  }

  lemma Populated(h: Heuristics, spec: Spec, taskId: string, risk: Risk)
    requires ValidSpec(h, Some(spec), taskId, risk)
    ensures spec.criteria != []
    ensures forall i | 0 <= i < |spec.criteria| :: spec.criteria[i].probes != [] && spec.criteria[i].requiredArtifacts != []
  {
    hide KnownRisk, ArtifactTypeOk, FailIfsOk, AnyTransition, AnySideEffect, AnyNegative;
    forall i | 0 <= i < |spec.criteria| ensures spec.criteria[i].probes != [] && spec.criteria[i].requiredArtifacts != [] {
      assert CriterionOk(h, spec.criteria[i], risk);
    }
  }

  lemma RequiredTypesMatched(report: Report, taskId: string, spec: Spec)
    requires ValidReport(Some(report), taskId, Some(spec)) && Passes(report)
    requires spec.criteria != [] && spec.criteria[0].requiredArtifacts != []
    ensures var types, required := Types(report.results, |report.results|), RequiredTypes(spec.criteria, |spec.criteria|);
            required * types == required && |required| > 0 && |types| > 0
  {
    hide ValidReport, Passes, Types, ProbesCovered, CriteriaPassed;
    var types, required := Types(report.results, |report.results|), RequiredTypes(spec.criteria, |spec.criteria|);
    FullCoverage(report, taskId, spec, |spec.criteria|);
    assert spec.criteria[0].requiredArtifacts[0] in required;
    assert required * types == required;
  }

  /** A report that validates and passes against a valid spec has full marks for coverage and
      outcome; only retries and few evidence types cost it anything. */
  lemma PassingScore(h: Heuristics, spec: Spec, report: Report, taskId: string, risk: Risk, retryCount: int)
    requires ValidSpec(h, Some(spec), taskId, risk)
    requires ValidReport(Some(report), taskId, Some(spec)) && Passes(report)
    ensures |Types(report.results, |report.results|)| > 0
    ensures Score(Some(spec), Some(report), retryCount)
         == 0.8 + 0.1 * RetryScore(retryCount) + 0.1 * Diversity(|Types(report.results, |report.results|)|)
  {
    hide ValidSpec, Passes, ResultOk, CriterionAnswered, ValidReview;
    hide Clamp, Fraction, RetryScore, Diversity, Links, Types, RequiredTypes, ProbesCovered, CriteriaPassed;
    var criteria := spec.criteria;
    Populated(h, spec, taskId, risk);
    FullCoverage(report, taskId, spec, |criteria|);
    RequiredTypesMatched(report, taskId, spec);
    TotalAtLeast(criteria, |criteria|);
    Arithmetic(|RequiredTypes(criteria, |criteria|)|, |Types(report.results, |report.results|)|,
               ProbesTotal(criteria, |criteria|), |criteria|, retryCount);
  }

  /** Such a report scores at least 0.825, is never labelled low and always meets normal risk;
      it misses the bar for high risk iff the task was retried three times and the report
      rests on a single type of evidence. */
  lemma ConfidenceOfPassing(h: Heuristics, spec: Spec, report: Report, taskId: string, risk: Risk, retryCount: int)
    requires ValidSpec(h, Some(spec), taskId, risk)
    requires ValidReport(Some(report), taskId, Some(spec)) && Passes(report)
    ensures var score := Score(Some(spec), Some(report), retryCount);
            && 0.825 <= score <= 1.0
            && ConfidenceLabel(score) != LowConfidence
            && MeetsRequiredConfidence(score, Normal)
            && (MeetsRequiredConfidence(score, High) <==> !(retryCount >= 3 && |Types(report.results, |report.results|)| == 1))
  {
    hide Score, ValidSpec, ValidReport, Types, Passes;
    PassingScore(h, spec, report, taskId, risk, retryCount);
    assert retryCount == 1 ==> RetryScore(retryCount) == 1.0 - 1.0 / 3.0;
    assert retryCount == 2 ==> RetryScore(retryCount) == 1.0 - 2.0 / 3.0;
  }

  // ---- What each signal is worth ------------------------------------------------------------------

  /** The evidence of some result is linked to the probe. */
  predicate IsLinked(report: Report, c: Criterion, p: Probe) {
    exists r | r in report.results :: exists e | e in r.evidence ::
      e.probeId != "" && ProbeKey(r.criterionId, e.probeId) == ProbeKey(c.id, p.id)
  }

  lemma LinkedIsInLinks(report: Report, c: Criterion, p: Probe)
    ensures IsLinked(report, c, p) <==> ProbeKey(c.id, p.id) in Links(report.results, |report.results|)
  {
    hide ProbeKey;
    if IsLinked(report, c, p) {
      var r :| r in report.results && exists e | e in r.evidence ::
        e.probeId != "" && ProbeKey(r.criterionId, e.probeId) == ProbeKey(c.id, p.id);
      var e :| e in r.evidence && e.probeId != "" && ProbeKey(r.criterionId, e.probeId) == ProbeKey(c.id, p.id);
      var i :| 0 <= i < |report.results| && report.results[i] == r;
      var j :| 0 <= j < |r.evidence| && r.evidence[j] == e;
    }
    if ProbeKey(c.id, p.id) in Links(report.results, |report.results|) {
      var i, j :| 0 <= i < |report.results| && 0 <= j < |report.results[i].evidence| && report.results[i].evidence[j].probeId != ""
                  && ProbeKey(report.results[i].criterionId, report.results[i].evidence[j].probeId) == ProbeKey(c.id, p.id);
      assert report.results[i] in report.results && report.results[i].evidence[j] in report.results[i].evidence;
    }
  }

  ghost function LinkedAt(c: Criterion, report: Report): nat -> bool {
    (j: nat) => j < |c.probes| && IsLinked(report, c, c.probes[j])
  }

  ghost function ProbeRows(criteria: seq<Criterion>): nat -> set<nat> {
    (i: nat) => if i < |criteria| then Numbers(|criteria[i].probes|) else {}
  }

  ghost function LinkedRows(criteria: seq<Criterion>, report: Report): nat -> set<nat> {
    (i: nat) => if i < |criteria| then Chosen(|criteria[i].probes|, LinkedAt(criteria[i], report)) else {}
  }

  ghost function UnfailedAt(criteria: seq<Criterion>, report: Report): nat -> bool {
    (i: nat) => i < |criteria| && !CriterionFailed(report, criteria[i].id)
  }

  ghost function FailedAt(criteria: seq<Criterion>, report: Report): nat -> bool {
    (i: nat) => i < |criteria| && CriterionFailed(report, criteria[i].id)
  }

  /** All probes of the criteria, by position, and those that are linked. */
  ghost function Probes(criteria: seq<Criterion>): set<(nat, nat)> {
    Pairs(|criteria|, ProbeRows(criteria))
  }

  ghost function LinkedProbes(criteria: seq<Criterion>, report: Report): set<(nat, nat)> {
    Pairs(|criteria|, LinkedRows(criteria, report))
  }

  /** The criteria, by position, that did not fail, and those that did. */
  ghost function Unfailed(criteria: seq<Criterion>, report: Report): set<nat> {
    Chosen(|criteria|, UnfailedAt(criteria, report))
  }

  ghost function FailedCriteria(criteria: seq<Criterion>, report: Report): set<nat> {
    Chosen(|criteria|, FailedAt(criteria, report))
  }

  lemma {:induction false} LinkedSize(c: Criterion, n: nat, report: Report)
    requires n <= |c.probes|
    ensures CountLinked(c, n, Links(report.results, |report.results|)) == |Chosen(n, LinkedAt(c, report))|
  {
    hide IsLinked, Links, Chosen;
    ChosenGrows(if n > 0 then n - 1 else 0, LinkedAt(c, report));
    if n > 0 {
      LinkedSize(c, n - 1, report);
      LinkedIsInLinks(report, c, c.probes[n - 1]);
    }
  }

  lemma {:induction false} UnfailedSize(criteria: seq<Criterion>, n: nat, report: Report)
    requires n <= |criteria|
    ensures CriteriaPassed(criteria, n, report) == |Chosen(n, UnfailedAt(criteria, report))|
  {
    hide CriterionFailed, Chosen;
    ChosenGrows(if n > 0 then n - 1 else 0, UnfailedAt(criteria, report));
    if n > 0 {
      UnfailedSize(criteria, n - 1, report);
    }
  }

  lemma {:induction false} ProbesSize(criteria: seq<Criterion>, n: nat)
    requires n <= |criteria|
    ensures ProbesTotal(criteria, n) == |Pairs(n, ProbeRows(criteria))|
  {
    hide Pairs;
    PairsGrow(if n > 0 then n - 1 else 0, ProbeRows(criteria));
    if n > 0 {
      ProbesSize(criteria, n - 1);
    }
  }

  lemma {:induction false} LinkedProbesSize(criteria: seq<Criterion>, n: nat, report: Report)
    requires n <= |criteria|
    ensures ProbesCovered(criteria, n, Links(report.results, |report.results|)) == |Pairs(n, LinkedRows(criteria, report))|
  {
    hide Pairs, Links, Chosen, LinkedAt;
    PairsGrow(if n > 0 then n - 1 else 0, LinkedRows(criteria, report));
    if n > 0 {
      LinkedProbesSize(criteria, n - 1, report);
      LinkedSize(criteria[n - 1], |criteria[n - 1].probes|, report);
    }
  }

  lemma LinkedAreProbes(criteria: seq<Criterion>, report: Report)
    ensures |LinkedProbes(criteria, report)| <= |Probes(criteria)|
  {
    hide LinkedAt, Pairs;
    PairsSubset(|criteria|, LinkedRows(criteria, report), ProbeRows(criteria));
    SubsetAtMost(LinkedProbes(criteria, report), Probes(criteria));
  }

  /** The five signals, each between nothing and full marks. */
  datatype Signals = Signals(probes: real, types: real, criteria: real, retries: real, diversity: real)

  function Share(part: nat, whole: nat): real {
    if whole == 0 then 0.0 else part as real / whole as real
  }

  ghost function SignalsOf(spec: Spec, report: Report, retryCount: int): Signals {
    var criteria, types := spec.criteria, Types(report.results, |report.results|);
    var required := RequiredTypes(criteria, |criteria|);
    Signals(Share(|LinkedProbes(criteria, report)|, |Probes(criteria)|),
            Share(|set t | t in required && t in types|, |required|),
            Share(|Unfailed(criteria, report)|, |criteria|),
            if retryCount <= 0 then 1.0 else if retryCount == 1 then 2.0 / 3.0 else if retryCount == 2 then 1.0 / 3.0 else 0.0,
            if |types| >= 4 then 1.0 else |types| as real * 0.25)
  }

  lemma ShareBounds(part: nat, whole: nat)
    requires part <= whole
    ensures 0.0 <= Share(part, whole) <= 1.0 && Share(part, whole) == Fraction(part, whole)
  {}

  lemma RetryMarks(retryCount: int)
    ensures RetryScore(retryCount)
         == if retryCount <= 0 then 1.0 else if retryCount == 1 then 2.0 / 3.0 else if retryCount == 2 then 1.0 / 3.0 else 0.0
  {
    assert retryCount == 1 ==> RetryScore(retryCount) == 1.0 - 1.0 / 3.0;
    assert retryCount == 2 ==> RetryScore(retryCount) == 1.0 - 2.0 / 3.0;
  }

  lemma WeightedSum(s: Signals)
    requires 0.0 <= s.probes <= 1.0 && 0.0 <= s.types <= 1.0 && 0.0 <= s.criteria <= 1.0
    requires 0.0 <= s.retries <= 1.0 && 0.0 <= s.diversity <= 1.0
    ensures Clamp(0.35 * s.probes + 0.30 * s.types + 0.15 * s.criteria + 0.10 * s.retries + 0.10 * s.diversity)
         == (7.0 * s.probes + 6.0 * s.types + 3.0 * s.criteria + 2.0 * s.retries + 2.0 * s.diversity) / 20.0
  {}

  /** The score of any report with results: seven twentieths for the linked share of the probes,
      six for the required types that are there, three for the criteria that did not fail, two
      for few retries and two for diverse evidence. It never has to be clamped. */
  lemma ScoreExactly(spec: Spec, report: Report, retryCount: int)
    requires spec.criteria != [] && report.results != []
    ensures var s := SignalsOf(spec, report, retryCount);
            Score(Some(spec), Some(report), retryCount)
              == (7.0 * s.probes + 6.0 * s.types + 3.0 * s.criteria + 2.0 * s.retries + 2.0 * s.diversity) / 20.0
    ensures 0.0 <= Score(Some(spec), Some(report), retryCount) <= 1.0
  {
    hide Types, Links, RequiredTypes, ProbesCovered, ProbesTotal, CriteriaPassed, Fraction, Share, Clamp, RetryScore;
    hide Pairs, LinkedRows, ProbeRows, Chosen, UnfailedAt;
    var criteria, n := spec.criteria, |spec.criteria|;
    var types, required := Types(report.results, |report.results|), RequiredTypes(criteria, n);
    ProbesSize(criteria, n);
    LinkedProbesSize(criteria, n, report);
    LinkedAreProbes(criteria, report);
    ShareBounds(|LinkedProbes(criteria, report)|, |Probes(criteria)|);
    assert required * types == set t | t in required && t in types;
    SubsetAtMost(required * types, required);
    ShareBounds(|required * types|, |required|);
    UnfailedSize(criteria, n, report);
    ChosenAtMost(n, UnfailedAt(criteria, report));
    ShareBounds(|Unfailed(criteria, report)|, n);
    RetryMarks(retryCount);
    WeightedSum(SignalsOf(spec, report, retryCount));
  }

  lemma AllLinkedRow(spec: Spec, report: Report, i: nat)
    requires i < |spec.criteria| && forall c, p | c in spec.criteria && p in c.probes :: IsLinked(report, c, p)
    ensures LinkedRows(spec.criteria, report)(i) == ProbeRows(spec.criteria)(i) == Numbers(|spec.criteria[i].probes|)
  {
    hide IsLinked, Chosen;
    var c := spec.criteria[i];
    assert c in spec.criteria;
    assert forall j: nat | j < |c.probes| :: c.probes[j] in c.probes;
    ChosenAll(|c.probes|, LinkedAt(c, report));
  }

  lemma AllLinkedShare(spec: Spec, report: Report)
    requires spec.criteria != [] && spec.criteria[0].probes != []
    requires forall c, p | c in spec.criteria && p in c.probes :: IsLinked(report, c, p)
    ensures LinkedProbes(spec.criteria, report) == Probes(spec.criteria) != {}
  {
    hide IsLinked, Chosen, LinkedRows, ProbeRows, Pairs;
    var linked, all := LinkedRows(spec.criteria, report), ProbeRows(spec.criteria);
    forall i: nat | i < |spec.criteria| ensures linked(i) == all(i) {
      AllLinkedRow(spec, report, i);
    }
    PairsSame(|spec.criteria|, all, linked);
    AllLinkedRow(spec, report, 0);
    assert (0, 0) in Pairs(|spec.criteria|, all);
  }

  lemma AllTypesShare(spec: Spec, report: Report)
    requires spec.criteria != [] && spec.criteria[0].requiredArtifacts != []
    requires RequiredTypes(spec.criteria, |spec.criteria|) <= Types(report.results, |report.results|)
    ensures var required := RequiredTypes(spec.criteria, |spec.criteria|);
            (set t | t in required && t in Types(report.results, |report.results|)) == required != {}
  {
    hide Types;
    assert spec.criteria[0].requiredArtifacts[0] in RequiredTypes(spec.criteria, |spec.criteria|);
  }

  lemma FailedShare(criteria: seq<Criterion>, report: Report)
    ensures |Unfailed(criteria, report)| + |FailedCriteria(criteria, report)| == |criteria|
  {
    hide CriterionFailed;
    ChosenOrNot(|criteria|, UnfailedAt(criteria, report), FailedAt(criteria, report));
  }

  /** A report with all probes linked and all required types present scores 0.65, 0.15 for the
      share of its criteria that did not fail, and a tenth each for retries and diversity. */
  lemma FailingScore(h: Heuristics, spec: Spec, report: Report, taskId: string, risk: Risk, retryCount: int)
    requires ValidSpec(h, Some(spec), taskId, risk) && report.results != []
    requires forall c, p | c in spec.criteria && p in c.probes :: IsLinked(report, c, p)
    requires RequiredTypes(spec.criteria, |spec.criteria|) <= Types(report.results, |report.results|)
    ensures var s, n, k := SignalsOf(spec, report, retryCount), |spec.criteria| as real, |FailedCriteria(spec.criteria, report)| as real;
            n > 0.0 && Score(Some(spec), Some(report), retryCount) == 0.65 + 0.15 * ((n - k) / n) + 0.1 * s.retries + 0.1 * s.diversity
  {
    hide ValidSpec, IsLinked, Types, RequiredTypes, CriterionFailed, Score, FailedCriteria, LinkedProbes, Probes, Unfailed;
    var n, k := |spec.criteria|, |FailedCriteria(spec.criteria, report)|;
    Populated(h, spec, taskId, risk);
    ScoreExactly(spec, report, retryCount);
    AllLinkedShare(spec, report);
    AllTypesShare(spec, report);
    FailedShare(spec.criteria, report);
    PartOf(n, k);
    PartOf(|Probes(spec.criteria)|, 0);
    PartOf(|RequiredTypes(spec.criteria, |spec.criteria|)|, 0);
  }

  lemma PartOf(n: nat, k: nat)
    requires k <= n && n > 0
    ensures Share(n - k, n) == (n as real - k as real) / n as real && Share(n, n) == 1.0
  {
    assert (n - k) as real == n as real - k as real;
    assert n as real / n as real == 1.0;
  }

  /** Such a report is never labelled low, however many of its criteria failed; it is labelled
      high iff what outcome, retries and diversity add to 0.65 is at least 0.2. */
  lemma FullyEvidencedLabel(h: Heuristics, spec: Spec, report: Report, taskId: string, risk: Risk, retryCount: int)
    requires ValidSpec(h, Some(spec), taskId, risk) && report.results != []
    requires forall c, p | c in spec.criteria && p in c.probes :: IsLinked(report, c, p)
    requires RequiredTypes(spec.criteria, |spec.criteria|) <= Types(report.results, |report.results|)
    ensures var verdict, s := ConfidenceLabel(Score(Some(spec), Some(report), retryCount)), SignalsOf(spec, report, retryCount);
            verdict != LowConfidence && (verdict == HighConfidence <==> 0.15 * s.criteria + 0.1 * s.retries + 0.1 * s.diversity >= 0.2)
  {
    hide ValidSpec, IsLinked, Types, RequiredTypes, CriterionFailed, Score, LinkedProbes, Probes, Unfailed;
    Populated(h, spec, taskId, risk);
    ScoreExactly(spec, report, retryCount);
    AllLinkedShare(spec, report);
    AllTypesShare(spec, report);
    PartOf(|Probes(spec.criteria)|, 0);
    PartOf(|RequiredTypes(spec.criteria, |spec.criteria|)|, 0);
    SomeEvidence(spec, report);
    UnfailedShare(spec.criteria, report);
  }

  lemma SomeEvidence(spec: Spec, report: Report)
    requires spec.criteria != [] && spec.criteria[0].requiredArtifacts != []
    requires RequiredTypes(spec.criteria, |spec.criteria|) <= Types(report.results, |report.results|)
    ensures |Types(report.results, |report.results|)| > 0
  {
    hide Types;
    assert spec.criteria[0].requiredArtifacts[0] in RequiredTypes(spec.criteria, |spec.criteria|);
  }

  lemma UnfailedShare(criteria: seq<Criterion>, report: Report)
    ensures 0.0 <= Share(|Unfailed(criteria, report)|, |criteria|) <= 1.0
  {
    hide CriterionFailed, Chosen, Share;
    ChosenAtMost(|criteria|, UnfailedAt(criteria, report));
    ShareBounds(|Unfailed(criteria, report)|, |criteria|);
  }
}
