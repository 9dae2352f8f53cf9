/** Validation of acceptance specs. The text heuristics, which are lists of words, are parameters. */
module AcceptanceSpecs {
  import opened Options
  import opened GoStrings
  import opened Acceptance

  datatype Heuristics = Heuristics(
    placeholder: string -> bool,        // firstUnboundPlaceholder finds one
    probePlaceholder: Probe -> bool,    // ... in the probe's text
    unsupported: string -> bool,        // unsupportedProbeCommand
    weak: Probe -> bool,                // weakStateTransition
    shallow: Probe -> bool,             // isShallowProbe
    negative: string -> bool,           // containsNegativeAssertion
    narrative: string -> bool,          // isNarrativeOnlyNegativeAssertion
    observable: seq<string> -> bool,    // hasObservableArtifact
    strength: (Spec, Risk) -> int,      // AcceptanceSpecStrengthScore
    commandMatches: (string, string) -> bool)

  // ---- What a valid spec is -------------------------------------------------------------------

  predicate ArtifactTypeOk(h: Heuristics, t: string) {
    !IsBlank(t) && !h.placeholder(TrimSpace(t)) && ValidArtifactType(TrimSpace(t))
  }

  predicate ProbeOk(h: Heuristics, c: Criterion, p: Probe) {
    && !IsBlank(p.id) && !IsBlank(p.description) && !IsBlank(p.command)
    && (!IsBlank(p.typ) ==> ValidArtifactType(p.typ))
    && p.requiredEvidence != []
    && (forall t | t in p.requiredEvidence :: ArtifactTypeOk(h, t) && TrimSpace(t) in c.requiredArtifacts)
    && !h.probePlaceholder(p) && !h.unsupported(p.command) && !h.weak(p) && !h.shallow(p)
  }

  predicate FailIfOk(h: Heuristics, f: string) {
    !h.placeholder(f) && !h.narrative(f) && !h.unsupported(f)
  }

  /** Conditions after the first negative one are not looked at. */
  ghost predicate IsRead(h: Heuristics, failIf: seq<string>, i: nat)
    requires i <= |failIf|
  {
    forall j | 0 <= j < i :: !h.negative(failIf[j])
  }

  predicate ShowsTransition(p: Probe) { !IsBlank(p.before) && !IsBlank(p.after) }

  predicate ShowsSideEffect(h: Heuristics, c: Criterion, p: Probe) {
    !IsBlank(p.observableSideEffect) || h.observable(c.requiredArtifacts)
  }

  predicate AssertsNegative(h: Heuristics, p: Probe) {
    !IsBlank(p.negativeAssertion) || h.negative(p.description + " " + p.command)
  }

  /** One of the first n probes has the property. */
  ghost predicate SomeProbe(probes: seq<Probe>, n: nat, has: Probe -> bool)
    requires n <= |probes|
  {
    exists k | 0 <= k < n :: has(probes[k])
  }

  predicate DistinctProbes(probes: seq<Probe>) {
    forall i, j | 0 <= i < j < |probes| :: probes[i].id != probes[j].id
  }

  ghost predicate AnyTransition(c: Criterion, n: nat)
    requires n <= |c.probes|
  {
    SomeProbe(c.probes, n, ShowsTransition)
  }

  ghost predicate AnySideEffect(h: Heuristics, c: Criterion, n: nat)
    requires n <= |c.probes|
  {
    SomeProbe(c.probes, n, p => ShowsSideEffect(h, c, p))
  }

  ghost predicate AnyNegative(h: Heuristics, c: Criterion, n: nat)
    requires n <= |c.probes|
  {
    SomeProbe(c.probes, n, p => AssertsNegative(h, p))
  }

  ghost predicate ProbesOk(h: Heuristics, c: Criterion) {
    && c.probes != [] && DistinctProbes(c.probes)
    && forall i | 0 <= i < |c.probes| :: ProbeOk(h, c, c.probes[i])
  }

  ghost predicate FailIfsOk(h: Heuristics, c: Criterion) {
    c.failIf != [] && forall i | 0 <= i < |c.failIf| :: IsRead(h, c.failIf, i) ==> FailIfOk(h, c.failIf[i])
  }

  ghost predicate CriterionOk(h: Heuristics, c: Criterion, risk: Risk) {
    && c.id != "" && c.description != "" && KnownRisk(c.riskLevel)
    && ProbesOk(h, c)
    && c.requiredArtifacts != [] && (forall i | 0 <= i < |c.requiredArtifacts| :: ArtifactTypeOk(h, c.requiredArtifacts[i]))
    && FailIfsOk(h, c)
    && (AnyNegative(h, c, |c.probes|) || exists f | f in c.failIf :: h.negative(f))
    && (c.requiresStateTransition || risk == High ==> AnyTransition(c, |c.probes|))
    && AnySideEffect(h, c, |c.probes|)
  }

  ghost predicate ValidSpec(h: Heuristics, spec: Option<Spec>, taskId: string, risk: Risk) {
    && spec.Some? && spec.value.taskId == taskId && KnownRisk(spec.value.riskLevel)
    && spec.value.criteria != [] && DistinctCriteria(spec.value.criteria)
    && forall i | 0 <= i < |spec.value.criteria| :: CriterionOk(h, spec.value.criteria[i], risk)
  }

  /** validateAcceptanceSpecDetailedForRisk. */
  ghost predicate StrongSpec(h: Heuristics, spec: Option<Spec>, taskId: string, risk: Risk) {
    ValidSpec(h, spec, taskId, risk) && h.strength(spec.value, risk) >= (if risk == High then 5 else 3)
  }

  // ---- The validator ----------------------------------------------------------------------------

  method CheckProbe(h: Heuristics, c: Criterion, p: Probe, required: set<string>) returns (ok: bool)
    requires required == set t | t in c.requiredArtifacts
    ensures ok <==> ProbeOk(h, c, p)
  {
    hide TrimSpace, ValidArtifactType;
    if IsBlank(p.id) || IsBlank(p.description) { return false; }
    if !IsBlank(p.typ) && !ValidArtifactType(p.typ) { return false; }
    if IsBlank(p.command) || p.requiredEvidence == [] { return false; }
    for i := 0 to |p.requiredEvidence|
      invariant forall k | 0 <= k < i ::
                  ArtifactTypeOk(h, p.requiredEvidence[k]) && TrimSpace(p.requiredEvidence[k]) in c.requiredArtifacts
    {
      var t := TrimSpace(p.requiredEvidence[i]);
      if t == "" || h.placeholder(t) || !ValidArtifactType(t) || t !in required {
        assert p.requiredEvidence[i] in p.requiredEvidence;
        return false;
      }
    }
    ok := !h.probePlaceholder(p) && !h.unsupported(p.command) && !h.weak(p) && !h.shallow(p);
  }

  method CheckFailIf(h: Heuristics, c: Criterion) returns (ok: bool, negative: bool)
    ensures ok <==> FailIfsOk(h, c)
    ensures ok ==> (negative <==> exists f | f in c.failIf :: h.negative(f))
  {
    if c.failIf == [] { return false, false; }
    negative := false;
    var i := 0;
    while i < |c.failIf| && !negative
      invariant 0 <= i <= |c.failIf|
      invariant negative ==> i > 0 && h.negative(c.failIf[i - 1])
      invariant IsRead(h, c.failIf, if negative then i - 1 else i)
      invariant forall k | 0 <= k < i :: FailIfOk(h, c.failIf[k])
    {
      var f := c.failIf[i];
      if h.placeholder(f) || h.narrative(f) || h.unsupported(f) {
        assert IsRead(h, c.failIf, i) && !FailIfOk(h, c.failIf[i]);
        return false, false;
      }
      negative := h.negative(f);
      i := i + 1;
    }
    ok := true;
    forall k | 0 <= k < |c.failIf| && IsRead(h, c.failIf, k) ensures FailIfOk(h, c.failIf[k]) {
      assert negative ==> k < i;
    }
  }

  lemma NextProbe(probes: seq<Probe>, n: nat, has: Probe -> bool)
    requires n < |probes|
    ensures !SomeProbe(probes, 0, has)
    ensures SomeProbe(probes, n + 1, has) <==> SomeProbe(probes, n, has) || has(probes[n])
  {
    if SomeProbe(probes, n, has) {
      var k :| 0 <= k < n && has(probes[k]);
      assert has(probes[k]);
    } else if has(probes[n]) {
      assert SomeProbe(probes, n + 1, has);
    }
  }

  lemma NextFlags(h: Heuristics, c: Criterion, n: nat)
    requires n < |c.probes|
    ensures !AnyTransition(c, 0) && !AnySideEffect(h, c, 0) && !AnyNegative(h, c, 0)
    ensures AnyTransition(c, n + 1) <==> AnyTransition(c, n) || ShowsTransition(c.probes[n])
    ensures AnySideEffect(h, c, n + 1) <==> AnySideEffect(h, c, n) || ShowsSideEffect(h, c, c.probes[n])
    ensures AnyNegative(h, c, n + 1) <==> AnyNegative(h, c, n) || AssertsNegative(h, c.probes[n])
  {
    hide SomeProbe, ShowsTransition, ShowsSideEffect, AssertsNegative;
    NextProbe(c.probes, n, ShowsTransition);
    NextProbe(c.probes, n, p => ShowsSideEffect(h, c, p));
    NextProbe(c.probes, n, p => AssertsNegative(h, p));
  }

  method CheckProbes(h: Heuristics, c: Criterion) returns (ok: bool, transition: bool, sideEffect: bool, negative: bool)
    ensures ok <==> ProbesOk(h, c)
    ensures ok ==> transition == AnyTransition(c, |c.probes|)
    ensures ok ==> sideEffect == AnySideEffect(h, c, |c.probes|)
    ensures ok ==> negative == AnyNegative(h, c, |c.probes|)
  {
    hide ProbeOk, ShowsTransition, ShowsSideEffect, AssertsNegative, AnyTransition, AnySideEffect, AnyNegative, SomeProbe;
    transition, sideEffect, negative := false, false, false;
    if c.probes == [] { return false, false, false, false; }
    NextFlags(h, c, 0);
    var required := set t | t in c.requiredArtifacts;
    var seen: set<string> := {};
    for j := 0 to |c.probes|
      invariant seen == set k | 0 <= k < j :: c.probes[k].id
      invariant DistinctProbes(c.probes[..j])
      invariant forall k | 0 <= k < j :: ProbeOk(h, c, c.probes[k])
      invariant transition == AnyTransition(c, j)
      invariant sideEffect == AnySideEffect(h, c, j)
      invariant negative == AnyNegative(h, c, j)
    {
      var p := c.probes[j];
      var probeOk := CheckProbe(h, c, p, required);
      if !probeOk || p.id in seen { return false, false, false, false; }
      seen := seen + {p.id};
      NextFlags(h, c, j);
      transition := transition || ShowsTransition(p);
      sideEffect := sideEffect || ShowsSideEffect(h, c, p);
      negative := negative || AssertsNegative(h, p);
    }
    assert c.probes[..|c.probes|] == c.probes;
    ok := true;
  }

  method CheckCriterion(h: Heuristics, c: Criterion, risk: Risk) returns (ok: bool)
    ensures ok <==> CriterionOk(h, c, risk)
  {
    hide ProbesOk, FailIfsOk, ArtifactTypeOk, AnyTransition, AnySideEffect, AnyNegative, KnownRisk;
    if c.id == "" || c.description == "" || !KnownRisk(c.riskLevel) { return false; }
    var probesOk, transition, sideEffect, negative := CheckProbes(h, c);
    if !probesOk || c.requiredArtifacts == [] { return false; }
    for i := 0 to |c.requiredArtifacts|
      invariant forall k | 0 <= k < i :: ArtifactTypeOk(h, c.requiredArtifacts[k])
    {
      if !ArtifactTypeOk(h, c.requiredArtifacts[i]) { return false; }
    }
    var failIfOk, negativeFailIf := CheckFailIf(h, c);
    if !failIfOk { return false; }
    negative := negative || negativeFailIf;
    ok := negative && ((c.requiresStateTransition || risk == High) ==> transition) && sideEffect;
  }

  /** validateAcceptanceSpec accepts exactly the valid specs. */
  method ValidateAcceptanceSpec(h: Heuristics, spec: Option<Spec>, taskId: string, risk: Risk) returns (ok: bool)
    ensures ok <==> ValidSpec(h, spec, taskId, risk)
  {
    hide CriterionOk, KnownRisk;
    if spec.None? || spec.value.taskId != taskId || !KnownRisk(spec.value.riskLevel) || spec.value.criteria == [] {
      return false;
    }
    var criteria := spec.value.criteria;
    var seen: set<string> := {};
    for i := 0 to |criteria|
      invariant seen == set k | 0 <= k < i :: criteria[k].id
      invariant DistinctCriteria(criteria[..i])
      invariant forall k | 0 <= k < i :: CriterionOk(h, criteria[k], risk)
    {
      var criterionOk := CheckCriterion(h, criteria[i], risk);
      if !criterionOk || criteria[i].id in seen { return false; }
      seen := seen + {criteria[i].id};
    }
    assert criteria[..|criteria|] == criteria;
    ok := true;
  }
}
