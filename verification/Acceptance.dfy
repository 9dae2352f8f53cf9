/** Acceptance specs, verification reports and artifacts, and the checks they share. */
module Acceptance {
  import opened Options
  import opened GoStrings

  datatype Probe = Probe(
    id: string,
    description: string,
    typ: string,
    command: string,
    requiredEvidence: seq<string>,
    before: string,
    after: string,
    observableSideEffect: string,
    negativeAssertion: string)

  datatype Criterion = Criterion(
    id: string,
    description: string,
    probes: seq<Probe>,
    requiredArtifacts: seq<string>,
    failIf: seq<string>,
    riskLevel: string,
    requiresStateTransition: bool,
    requiresNegativeAssertion: bool)

  datatype Spec = Spec(taskId: string, riskLevel: string, criteria: seq<Criterion>)

  datatype Evidence = Evidence(
    artifactId: string,
    typ: string,
    path: string,
    probeId: string,
    command: string,
    producerStep: string,
    producerRole: string,
    timestamp: string,
    contentHash: string,
    authoritative: bool)

  datatype Result = Result(criterionId: string, status: string, evidence: seq<Evidence>, reason: string)

  datatype Failure = Failure(criterionId: string, reason: string)

  datatype Finding = Finding(risk: string, suggestedProbe: string, severity: string)

  datatype Review = Review(
    taskId: string,
    findings: seq<Finding>,
    requiredFollowup: bool,
    appendedProbeIds: seq<string>,
    followupEvidence: seq<Evidence>,
    dismissalReason: string)

  datatype Report = Report(
    taskId: string,
    results: seq<Result>,
    failures: seq<Failure>,
    confidence: string,
    review: Option<Review>)

  datatype Artifact = Artifact(
    id: string,
    taskId: string,
    path: string,
    artifactType: string,
    sha256: string,
    command: string,
    workingDirectory: string,
    status: string)

  /** The effective risk, which is always one of these two. */
  datatype Risk = Normal | High

  /** normalizeRiskLevel. */
  function NormalizeRisk(level: string): string {
    var s := ToLower(TrimSpace(level));
    if s == "" then "normal" else s
  }

  predicate KnownRisk(level: string) {
    level == "" || NormalizeRisk(level) == "normal" || NormalizeRisk(level) == "high"
  }

  // ---- Artifact types and hashes ------------------------------------------------------------

  predicate IsLower(c: char) { 'a' <= c <= 'z' }

  predicate IsDigit(c: char) { '0' <= c <= '9' }

  /** validArtifactTypeRE: lower-case words separated by single underscores. */
  predicate ValidArtifactType(s: string) {
    && s != "" && IsLower(s[0]) && s[|s| - 1] != '_'
    && forall i | 0 <= i < |s| ::
         IsLower(s[i]) || IsDigit(s[i]) || (s[i] == '_' && s[i - 1] != '_')
  }

  function NormalizeSha256(value: string): string {
    TrimPrefix(ToLower(TrimSpace(value)), "sha256:")
  }

  predicate IsHex(c: char) { IsDigit(c) || 'a' <= c <= 'f' || 'A' <= c <= 'F' }

  /** isPlaceholderHash: a known dummy, one repeated character, or not hexadecimal. */
  predicate IsPlaceholderHash(contentHash: string) {
    var h := NormalizeSha256(contentHash);
    h != ""
    && (h in {"test", "todo", "placeholder", "example", "abc"}
        || (|h| >= 16 && forall i | 0 <= i < |h| :: h[i] == h[0])
        || exists i | 0 <= i < |h| :: !IsHex(h[i]))
  }

  // ---- Provenance ---------------------------------------------------------------------------

  /** validateArtifactProvenance. */
  predicate ValidProvenance(probeId: string, command: string, producerStep: string, producerRole: string,
                            timestamp: string, contentHash: string, path: string, authoritative: bool) {
    && !IsBlank(producerStep) && !IsBlank(producerRole) && !IsBlank(timestamp)
    && (!IsBlank(probeId) || !IsBlank(command))
    && (!IsBlank(path) ==> !IsBlank(contentHash))
    && authoritative
    && !IsPlaceholderHash(contentHash)
  }

  predicate EvidenceProvenance(ev: Evidence) {
    ValidProvenance(ev.probeId, ev.command, ev.producerStep, ev.producerRole, ev.timestamp, ev.contentHash, ev.path,
                    ev.authoritative)
  }

  predicate IsVerifierEvidenceProducer(role: string) {
    ToLower(TrimSpace(role)) in {"verifier", "acceptance-verifier", "acceptance_verifier", "control-plane", "control_plane"}
  }

  // ---- Lookups by id: a later entry replaces an earlier one -----------------------------------

  function LastCriterion(criteria: seq<Criterion>, n: nat, id: string): (c: Option<Criterion>)
    requires n <= |criteria|
    ensures c.Some? ==> c.value.id == id && c.value in criteria[..n]
  {
    if n == 0 then None
    else if criteria[n - 1].id == id then Some(criteria[n - 1])
    else LastCriterion(criteria, n - 1, id)
  }

  function LastResult(results: seq<Result>, n: nat, id: string): (r: Option<Result>)
    requires n <= |results|
    ensures r.Some? ==> r.value.criterionId == id && r.value in results[..n]
  {
    if n == 0 then None
    else if results[n - 1].criterionId == id then Some(results[n - 1])
    else LastResult(results, n - 1, id)
  }

  function LastArtifact(artifacts: seq<Artifact>, n: nat, id: string): (a: Option<Artifact>)
    requires n <= |artifacts|
    ensures a.Some? ==> a.value.id == id && a.value in artifacts[..n]
  {
    if n == 0 then None
    else if artifacts[n - 1].id == id then Some(artifacts[n - 1])
    else LastArtifact(artifacts, n - 1, id)
  }

  predicate DistinctCriteria(criteria: seq<Criterion>) {
    forall i, j | 0 <= i < j < |criteria| :: criteria[i].id != criteria[j].id
  }

  lemma {:induction false} OnlyCriterion(criteria: seq<Criterion>, n: nat, i: nat)
    requires i < n <= |criteria| && DistinctCriteria(criteria)
    ensures LastCriterion(criteria, n, criteria[i].id) == Some(criteria[i])
  {
    if i < n - 1 {
      OnlyCriterion(criteria, n - 1, i);
    }
  }
}
