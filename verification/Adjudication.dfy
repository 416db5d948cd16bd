/** The adjudication of a whole study: strata, pooled gates and the decision ladder. */
module Adjudication {
  import opened Wrappers
  import opened Filters
  import opened Analysis

  type Fisher = seq<real> -> real

  datatype Decision = Better | Worse | TradeOff | Inconclusive

  datatype Classification = NoFailure | HarnessFailure | Infrastructure | StudyStop | SharedExternal

  // ----- strata ----------------------------------------------------------

  function InStratum(s: Stratum): Pair -> Option<Pair> { (p: Pair) => if p.stratum == s then Some(p) else None }

  function OfStratum(pairs: seq<Pair>, s: Stratum): (r: seq<Pair>) { FilterMap(pairs, InStratum(s)) }

  predicate Attrition(leg: Leg) {
    leg.status != Completed || !leg.inputTokens.Reported? || !leg.outputTokens.Reported? || !leg.totalTokens.Reported?
  }

  predicate Fails(leg: Leg) { leg.status == Completed && leg.outcome == Failure }

  function NativeInvalid(p: Pair): (r: Option<string>) { if Attrition(p.native) then Some(p.pairId) else None }
  function RuntimeInvalid(p: Pair): (r: Option<string>) { if Attrition(p.runtime) then Some(p.pairId) else None }
  function NativeFails(p: Pair): (r: Option<string>) { if Fails(p.native) then Some(p.pairId) else None }
  function RuntimeFails(p: Pair): (r: Option<string>) { if Fails(p.runtime) then Some(p.pairId) else None }

  datatype Counts = Counts(nativeInvalid: nat, runtimeInvalid: nat, nativeFailures: nat, runtimeFailures: nat)

  function CountsOf(ps: seq<Pair>): (r: Counts) {
    Counts(|FilterMap(ps, NativeInvalid)|, |FilterMap(ps, RuntimeInvalid)|,
           |FilterMap(ps, NativeFails)|, |FilterMap(ps, RuntimeFails)|)
  }

  datatype Secondaries = Secondaries(total: Secondary, tools: Secondary, wall: Secondary)

  function SecondariesOf(ps: seq<Pair>): (r: Secondaries) {
    Secondaries(SecondaryOf(TotalTokens, ps), SecondaryOf(ToolCalls, ps), SecondaryOf(WallClock, ps))
  }

  datatype StratumAnalysis = StratumAnalysis(
    primary: Primary, secondary: Secondaries, lifecycle: Lifecycle, counts: Counts)

  function StratumOf(ps: seq<Pair>): (r: Option<StratumAnalysis>) {
    var primary :- PrimaryOf(ps);
    Some(StratumAnalysis(primary, SecondariesOf(ps), LifecycleOf(ps), CountsOf(ps)))
  }

  datatype Strata = Strata(
    localized: StratumAnalysis, multiFile: StratumAnalysis, diagnosis: StratumAnalysis, delayed: StratumAnalysis)

  function StrataOf(pairs: seq<Pair>): (r: Option<Strata>) {
    var localized :- StratumOf(OfStratum(pairs, Localized));
    var multiFile :- StratumOf(OfStratum(pairs, MultiFile));
    var diagnosis :- StratumOf(OfStratum(pairs, Diagnosis));
    var delayed :- StratumOf(OfStratum(pairs, Delayed));
    Some(Strata(localized, multiFile, diagnosis, delayed))
  }

  // ----- pooled gates ----------------------------------------------------

  datatype PooledPrimary = PooledPrimary(
    eligible: nat, medianReduction: Option<real>, fisher: Option<real>, minimumCoverage: bool, betterCoverage: bool,
    qualifies: bool)

  function PooledEligible(s: Strata): (n: nat) {
    s.localized.primary.eligible + s.multiFile.primary.eligible
    + s.diagnosis.primary.eligible + s.delayed.primary.eligible
  }

  predicate MinimumCoverage(s: Strata) {
    && s.localized.primary.minimumCoverage && s.multiFile.primary.minimumCoverage
    && s.diagnosis.primary.minimumCoverage && s.delayed.primary.minimumCoverage
    && PooledEligible(s) >= 24
  }

  predicate BetterCoverage(s: Strata) {
    && s.localized.primary.betterCoverage && s.multiFile.primary.betterCoverage
    && s.diagnosis.primary.betterCoverage && s.delayed.primary.betterCoverage
    && PooledEligible(s) >= 30
  }

  function CombinedPValue(fisher: Fisher, s: Strata): (r: Option<real>) {
    var a, b := s.localized.primary.pValue, s.multiFile.primary.pValue;
    var c, d := s.diagnosis.primary.pValue, s.delayed.primary.pValue;
    if a.None? || b.None? || c.None? || d.None? then None else Some(fisher([a.value, b.value, c.value, d.value]))
  }

  predicate NotNegative(p: Primary) { p.medianDelta.Some? && p.medianDelta.value >= 0.0 && p.pValue.Some? }

  function PoolPrimary(fisher: Fisher, s: Strata, median: Option<real>): (r: PooledPrimary) {
    var combined := CombinedPValue(fisher, s);
    PooledPrimary(PooledEligible(s), median, combined, MinimumCoverage(s), BetterCoverage(s),
                  && MinimumCoverage(s)
                  && NotNegative(s.localized.primary) && NotNegative(s.multiFile.primary)
                  && NotNegative(s.diagnosis.primary) && NotNegative(s.delayed.primary)
                  && median.Some? && median.value >= 0.1 && combined.Some? && combined.value <= 0.05)
  }

  datatype Outcomes = Outcomes(nativeFailures: nat, runtimeFailures: nat, perStratumPass: bool)

  function Additional(o: Outcomes): (n: nat) {
    if o.runtimeFailures > o.nativeFailures then o.runtimeFailures - o.nativeFailures else 0
  }

  predicate NonInferior(o: Outcomes) { o.perStratumPass && Additional(o) < 3 }

  predicate StratumPass(c: Counts) { c.runtimeFailures < c.nativeFailures + 2 }

  function OutcomesOf(s: Strata): (r: Outcomes) {
    Outcomes(
      s.localized.counts.nativeFailures + s.multiFile.counts.nativeFailures
        + s.diagnosis.counts.nativeFailures + s.delayed.counts.nativeFailures,
      s.localized.counts.runtimeFailures + s.multiFile.counts.runtimeFailures
        + s.diagnosis.counts.runtimeFailures + s.delayed.counts.runtimeFailures,
      StratumPass(s.localized.counts) && StratumPass(s.multiFile.counts)
        && StratumPass(s.diagnosis.counts) && StratumPass(s.delayed.counts))
  }

  datatype Reliability = Reliability(nativeInvalid: nat, runtimeInvalid: nat)

  function ReliabilityOf(s: Strata): (r: Reliability) {
    Reliability(
      s.localized.counts.nativeInvalid + s.multiFile.counts.nativeInvalid
        + s.diagnosis.counts.nativeInvalid + s.delayed.counts.nativeInvalid,
      s.localized.counts.runtimeInvalid + s.multiFile.counts.runtimeInvalid
        + s.diagnosis.counts.runtimeInvalid + s.delayed.counts.runtimeInvalid)
  }

  predicate EightEach(s: Strata) {
    && s.localized.primary.observed == 8 && s.multiFile.primary.observed == 8
    && s.diagnosis.primary.observed == 8 && s.delayed.primary.observed == 8
  }

  predicate Covered(x: Secondaries) { x.total.minimumCoverage && x.tools.minimumCoverage && x.wall.minimumCoverage }

  predicate SecondaryCoverage(s: Strata) {
    && Covered(s.localized.secondary) && Covered(s.multiFile.secondary)
    && Covered(s.diagnosis.secondary) && Covered(s.delayed.secondary)
  }

  predicate ProtectedRegression(x: Secondaries) { x.total.regression || x.tools.regression || x.wall.regression }

  // ----- the decision ladder ---------------------------------------------

  /** What the ladder reads, except for the task outcomes. */
  datatype Gates = Gates(
    attributable: bool, frozenSize: bool, treatmentActive: bool, nativeInvalid: nat, runtimeInvalid: nat,
    covered: bool, regression: bool, qualifies: bool, betterCoverage: bool)

  /** `chooseDecision` */
  function Choose(g: Gates, o: Outcomes): (r: Decision) {
    if !g.attributable || !g.frozenSize || !g.treatmentActive then Inconclusive
    else if g.runtimeInvalid >= 3 then Worse
    else if g.runtimeInvalid == 2 then Inconclusive
    else if !g.covered then Inconclusive
    else if !NonInferior(o) then Worse
    else if !g.qualifies then if g.regression then Worse else Inconclusive
    else if g.betterCoverage && g.nativeInvalid <= 1 && g.runtimeInvalid <= 1 && Additional(o) == 0 && !g.regression
    then Better
    else if !g.regression && Additional(o) == 0 then Inconclusive
    else TradeOff
  }

  // ----- the study -------------------------------------------------------

  datatype Report = Report(
    decision: Decision, classification: Classification, treatmentActive: bool, primary: PooledPrimary,
    secondary: Secondaries, outcomes: Outcomes, reliability: Reliability, lifecycle: Lifecycle, strata: Strata)

  predicate Idle(p: Pair) { p.runtime.treatment == Some(Inactive) && p.runtime.status == Completed }

  predicate TreatmentActive(pairs: seq<Pair>) { forall p | p in pairs :: !Idle(p) }

  predicate EvidenceIssue(pairs: seq<Pair>) { exists p | p in pairs :: p.evidenceIssue }

  predicate HasStatus(p: Pair, s: LegStatus) { p.native.status == s || p.runtime.status == s }

  predicate AnyStatus(pairs: seq<Pair>, s: LegStatus) { exists p | p in pairs :: HasStatus(p, s) }

  function Classify(study: Study): (r: Classification) {
    if study.sharedExternalFailure then SharedExternal
    else if study.status == StudyHarnessFailure then HarnessFailure
    else if study.status == StudyInfrastructureFailure then Infrastructure
    else if study.status == StudyStopped then StudyStop
    else if AnyStatus(study.pairs, HarnessContractFailure) then HarnessFailure
    else if AnyStatus(study.pairs, InfrastructureFailure) || AnyStatus(study.pairs, Aborted) then Infrastructure
    else if AnyStatus(study.pairs, Stopped) then StudyStop
    else NoFailure
  }

  function GatesOf(study: Study, s: Strata, primary: PooledPrimary, secondary: Secondaries): (g: Gates) {
    Gates(!study.sharedExternalFailure && study.status == StudyCompleted, EightEach(s), TreatmentActive(study.pairs),
          ReliabilityOf(s).nativeInvalid, ReliabilityOf(s).runtimeInvalid,
          primary.minimumCoverage && SecondaryCoverage(s), ProtectedRegression(secondary), primary.qualifies,
          primary.betterCoverage)
  }

  function DecisionOf(study: Study, fisher: Fisher, s: Strata, median: Option<real>,
      secondary: Secondaries): (r: Decision) {
    if EvidenceIssue(study.pairs) then Inconclusive
    else Choose(GatesOf(study, s, PoolPrimary(fisher, s, median), secondary), OutcomesOf(s))
  }

  function ClassificationOf(study: Study): (r: Classification) {
    if EvidenceIssue(study.pairs) && Classify(study) == NoFailure then HarnessFailure else Classify(study)
  }

  function Assemble(study: Study, fisher: Fisher, s: Strata, median: Option<real>, secondary: Secondaries,
      lifecycle: Lifecycle): (r: Report) {
    Report(DecisionOf(study, fisher, s, median, secondary), ClassificationOf(study), TreatmentActive(study.pairs),
           PoolPrimary(fisher, s, median), secondary, OutcomesOf(s), ReliabilityOf(s), lifecycle, s)
  }

  /** `adjudicateC1Study`; `None` is a thrown input error. */
  function Adjudicate(fisher: Fisher, study: Study): (r: Option<Report>) {
    if !ValidPairs(study.pairs) then None
    else
      var s :- StrataOf(study.pairs);
      Some(Assemble(study, fisher, s, Median(FilterMap(study.pairs, Reduction)), SecondariesOf(study.pairs),
                    LifecycleOf(study.pairs)))
  }

  // ----- the methods -----------------------------------------------------

  /** The partition loop. */
  method PairsByStratum(pairs: seq<Pair>) returns (a: seq<Pair>, b: seq<Pair>, c: seq<Pair>, d: seq<Pair>)
    requires AllValid(pairs)
    ensures a == OfStratum(pairs, Localized) && b == OfStratum(pairs, MultiFile)
    ensures c == OfStratum(pairs, Diagnosis) && d == OfStratum(pairs, Delayed)
  {
    a, b, c, d := [], [], [], [];
    for i := 0 to |pairs|
      invariant a == OfStratum(pairs[..i], Localized) && b == OfStratum(pairs[..i], MultiFile)
      invariant c == OfStratum(pairs[..i], Diagnosis) && d == OfStratum(pairs[..i], Delayed)
    {
      FilterMapStep(pairs, InStratum(Localized), i);
      FilterMapStep(pairs, InStratum(MultiFile), i);
      FilterMapStep(pairs, InStratum(Diagnosis), i);
      FilterMapStep(pairs, InStratum(Delayed), i);
      assert ValidPair(pairs[i]);
      match pairs[i].stratum {
        case Localized => a := a + [pairs[i]];
        case MultiFile => b := b + [pairs[i]];
        case Diagnosis => c := c + [pairs[i]];
        case Delayed => d := d + [pairs[i]];
      }
    }
    assert pairs[..|pairs|] == pairs;
  }

  method SecondariesFor(ps: seq<Pair>) returns (r: Secondaries)
    ensures r == SecondariesOf(ps)
  {
    var total := SecondaryForMetric(TotalTokens, ps);
    var tools := SecondaryForMetric(ToolCalls, ps);
    var wall := SecondaryForMetric(WallClock, ps);
    return Secondaries(total, tools, wall);
  }

  /** `buildStratumAnalysis` */
  method BuildStratum(ps: seq<Pair>) returns (r: Option<StratumAnalysis>)
    ensures r == StratumOf(ps)
  {
    var primary := PrimaryForStratum(ps);
    if primary.None? { return None; }
    var secondary := SecondariesFor(ps);
    return Some(StratumAnalysis(primary.value, secondary, LifecycleOf(ps), CountsOf(ps)));
  }

  /** `pairPrimaryReductions` */
  method PairReductions(pairs: seq<Pair>) returns (r: seq<real>)
    ensures r == FilterMap(pairs, Reduction)
  {
    r := [];
    for i := 0 to |pairs|
      invariant r == FilterMap(pairs[..i], Reduction)
    {
      FilterMapStep(pairs, Reduction, i);
      if BothCompleted(pairs[i]) && pairs[i].native.inputTokens.Reported? && pairs[i].runtime.inputTokens.Reported?
         && pairs[i].native.inputTokens.value > 0 {
        var native := pairs[i].native.inputTokens.value;
        r := r + [(native - pairs[i].runtime.inputTokens.value) as real / native as real];
      }
    }
    assert pairs[..|pairs|] == pairs;
  }

  method AdjudicateStudy(fisher: Fisher, study: Study) returns (r: Option<Report>)
    ensures r == Adjudicate(fisher, study)
  {
    var ok := ValidateStudy(study.pairs);
    if !ok { return None; }
    var a, b, c, d := PairsByStratum(study.pairs);
    var localized := BuildStratum(a);
    var multiFile := BuildStratum(b);
    var diagnosis := BuildStratum(c);
    var delayed := BuildStratum(d);
    if localized.None? || multiFile.None? || diagnosis.None? || delayed.None? { return None; }
    var s := Strata(localized.value, multiFile.value, diagnosis.value, delayed.value);
    var reductions := PairReductions(study.pairs);
    var secondary := SecondariesFor(study.pairs);
    return Some(Assemble(study, fisher, s, Median(reductions), secondary, LifecycleOf(study.pairs)));
  }
}
