/**
 The offline adjudicator of a paired study: medians, sign-flip p-values, coverage
 gates, outcome counts and the decision ladder. Numbers are exact; Fisher's
 combination is a parameter.
 */
module Analysis {
  import opened Wrappers
  import opened Filters
  import opened SignFlip
  import Sorting

  datatype Metric = Reported(value: int) | Unavailable(knownReason: bool)

  datatype LegStatus = Completed | InfrastructureFailure | HarnessContractFailure | Aborted | Stopped

  datatype TaskOutcome = Success | Failure | NotObserved

  datatype Arm = Native | Runtime

  datatype Treatment = Active | Inactive | NoOpportunity

  datatype Leg = Leg(
    arm: Arm, status: LegStatus, outcome: TaskOutcome,
    inputTokens: Metric, outputTokens: Metric, totalTokens: Metric, toolCalls: Metric, wallClockMs: Metric,
    treatment: Option<Treatment>)

  datatype Measurement = Estimable(numerator: int, denominator: int) | NotEstimable | NotApplicable

  datatype Interval = Interval(inputTokens: int, toolCalls: int, wallClockMs: int)

  /** `anchored`: all four anchor and transition ids are non-empty. */
  datatype ColdPenalty =
    | Penalty(native: Interval, runtime: Interval, anchored: bool, lineageValid: bool)
    | PenaltyNotEstimable
    | PenaltyNotApplicable

  datatype Stratum = Localized | MultiFile | Diagnosis | Delayed | UnknownStratum

  datatype Pair = Pair(
    pairId: string, stratum: Stratum, native: Leg, runtime: Leg,
    removalPrecision: Measurement, rehydrationRecovery: Measurement, coldPenalty: ColdPenalty,
    evidenceIssue: bool)

  datatype StudyStatus = StudyCompleted | StudyStopped | StudyHarnessFailure | StudyInfrastructureFailure

  datatype Study = Study(status: StudyStatus, pairs: seq<Pair>, sharedExternalFailure: bool)

  // ----- validation ------------------------------------------------------

  const MAX_SAFE := 9007199254740991

  predicate Count(n: int) { 0 <= n <= MAX_SAFE }

  predicate ValidMetric(m: Metric) { if m.Reported? then Count(m.value) else m.knownReason }

  predicate ValidLeg(leg: Leg, arm: Arm) {
    && leg.arm == arm
    && (leg.status == Completed <==> leg.outcome != NotObserved)
    && (leg.treatment.Some? <==> arm == Runtime)
    && ValidMetric(leg.inputTokens) && ValidMetric(leg.outputTokens) && ValidMetric(leg.totalTokens)
    && ValidMetric(leg.toolCalls) && ValidMetric(leg.wallClockMs)
  }

  predicate ValidMeasurement(m: Measurement) {
    m.Estimable? ==> Count(m.numerator) && Count(m.denominator) && 0 < m.denominator && m.numerator <= m.denominator
  }

  predicate ValidInterval(i: Interval) { Count(i.inputTokens) && Count(i.toolCalls) && Count(i.wallClockMs) }

  predicate ValidPenalty(c: ColdPenalty) {
    c.Penalty? ==> ValidInterval(c.native) && ValidInterval(c.runtime) && c.anchored && c.lineageValid
  }

  predicate ValidPair(p: Pair) {
    && !p.stratum.UnknownStratum? && ValidLeg(p.native, Native) && ValidLeg(p.runtime, Runtime)
    && ValidMeasurement(p.removalPrecision) && ValidMeasurement(p.rehydrationRecovery) && ValidPenalty(p.coldPenalty)
  }

  function Ids(pairs: seq<Pair>): (r: set<string>) { set p | p in pairs :: p.pairId }

  /** No id twice, every pair well formed. */
  predicate ValidPairs(pairs: seq<Pair>) {
    |Ids(pairs)| == |pairs| && AllValid(pairs)
  }

  lemma IdsAppend(pairs: seq<Pair>, p: Pair)
    ensures Ids(pairs + [p]) == Ids(pairs) + {p.pairId}
  {
    assert forall q :: q in pairs + [p] <==> q in pairs || q == p;
  }

  lemma IdsStep(pairs: seq<Pair>, i: nat)
    requires i < |pairs|
    ensures Ids(pairs[..i + 1]) == Ids(pairs[..i]) + {pairs[i].pairId}
  {
    assert pairs[..i + 1] == pairs[..i] + [pairs[i]];
    IdsAppend(pairs[..i], pairs[i]);
  }

  /** From `i` on each pair adds at most one id. */
  lemma {:induction false} IdsBound(pairs: seq<Pair>, i: nat, n: nat)
    requires i <= n <= |pairs|
    ensures |Ids(pairs[..n])| <= |Ids(pairs[..i])| + n - i
  {
    if i < n {
      IdsBound(pairs, i, n - 1);
      IdsStep(pairs, n - 1);
    }
  }

  lemma DuplicateFound(pairs: seq<Pair>, i: nat)
    requires i < |pairs| && |Ids(pairs[..i])| == i && pairs[i].pairId in Ids(pairs[..i])
    ensures !ValidPairs(pairs)
  {
    IdsStep(pairs, i);
    assert Ids(pairs[..i + 1]) == Ids(pairs[..i]);
    IdsBound(pairs, i + 1, |pairs|);
    assert pairs[..|pairs|] == pairs;
  }

  predicate AllValid(pairs: seq<Pair>) { forall p | p in pairs :: ValidPair(p) }

  lemma AllValidStep(pairs: seq<Pair>, i: nat)
    requires i < |pairs|
    ensures AllValid(pairs[..i + 1]) <==> AllValid(pairs[..i]) && ValidPair(pairs[i])
    ensures !ValidPair(pairs[i]) ==> !ValidPairs(pairs)
  {
    assert pairs[..i + 1] == pairs[..i] + [pairs[i]];
    assert forall p :: p in pairs[..i] + [pairs[i]] <==> p in pairs[..i] || p == pairs[i];
    assert pairs[i] in pairs;
  }

  /** `validateStudyInput`; false is its error. */
  method ValidateStudy(pairs: seq<Pair>) returns (ok: bool)
    ensures ok <==> ValidPairs(pairs)
  {
    var ids: set<string> := {};
    for i := 0 to |pairs|
      invariant ids == Ids(pairs[..i]) && |ids| == i
      invariant AllValid(pairs[..i])
    {
      IdsStep(pairs, i);
      AllValidStep(pairs, i);
      if pairs[i].pairId in ids {
        DuplicateFound(pairs, i);
        return false;
      }
      ids := ids + {pairs[i].pairId};
      if !ValidPair(pairs[i]) { return false; }
    }
    assert pairs[..|pairs|] == pairs;
    return true;
  }

  // ----- median ----------------------------------------------------------

  predicate RealLe(a: real, b: real) { a <= b }

  function Median(values: seq<real>): (r: Option<real>) {
    if values == [] then None
    else
      var sorted := Sorting.Sort(values, RealLe);
      SortLength(values);
      var middle := |sorted| / 2;
      Some(if |sorted| % 2 == 0 then (sorted[middle - 1] + sorted[middle]) / 2.0 else sorted[middle])
  }

  lemma RealOrder()
    ensures Sorting.TotalPreorder(RealLe)
  {}

  lemma SortLength(values: seq<real>)
    ensures |Sorting.Sort(values, RealLe)| == |values|
  {
    RealOrder();
    Sorting.SortSorts(values, RealLe);
  }

  lemma MedianPermutes(a: seq<real>, b: seq<real>)
    requires multiset(a) == multiset(b)
    ensures Median(a) == Median(b)
  {
    RealOrder();
    assert |multiset(a)| == |multiset(b)|;
    Sorting.SortPermutationInvariant(a, b, RealLe);
  }

  // ----- primary endpoint ------------------------------------------------

  datatype ExclusionReason = LegNotCompleted | InputUsageUnavailable | NativeDenominatorZero

  datatype Exclusion = Exclusion(pairId: string, reason: ExclusionReason)

  predicate BothCompleted(p: Pair) { p.native.status == Completed && p.runtime.status == Completed }

  function WhyExcluded(p: Pair): (r: Option<Exclusion>) {
    if !BothCompleted(p) then Some(Exclusion(p.pairId, LegNotCompleted))
    else if !p.native.inputTokens.Reported? || !p.runtime.inputTokens.Reported?
    then Some(Exclusion(p.pairId, InputUsageUnavailable))
    else if p.native.inputTokens.value <= 0 then Some(Exclusion(p.pairId, NativeDenominatorZero))
    else None
  }

  function Delta(p: Pair): (r: Option<int>) {
    if WhyExcluded(p).Some? then None else Some(p.native.inputTokens.value - p.runtime.inputTokens.value)
  }

  function RealDelta(p: Pair): (r: Option<real>) {
    if Delta(p).None? then None else Some(Delta(p).value as real)
  }

  function Reduction(p: Pair): (r: Option<real>) {
    if Delta(p).None? then None else Some(Delta(p).value as real / p.native.inputTokens.value as real)
  }

  function UsageMissing(p: Pair): (r: Option<string>) {
    if WhyExcluded(p) == Some(Exclusion(p.pairId, InputUsageUnavailable)) then Some(p.pairId) else None
  }

  datatype Primary = Primary(
    observed: nat, eligible: nat, missingUsage: nat, exclusions: multiset<Exclusion>,
    medianDelta: Option<real>, medianReduction: Option<real>, pValue: Option<real>,
    minimumCoverage: bool, betterCoverage: bool)

  function PValueOf(v: PValue): (r: Option<real>) {
    match v
    case Value(count, assignments) => if assignments > 0 then Some(count as real / assignments as real) else None
    case _ => None
  }

  /** The primary endpoint of a stratum; `None` when the sign-flip enumeration refuses. */
  function PrimaryOf(ps: seq<Pair>): (r: Option<Primary>) {
    var deltas := FilterMap(ps, Delta);
    if FlipTest(deltas).TooMany? then None
    else Some(Primary(|ps|, |deltas|, |FilterMap(ps, UsageMissing)|, multiset(FilterMap(ps, WhyExcluded)),
                      Median(FilterMap(ps, RealDelta)), Median(FilterMap(ps, Reduction)), PValueOf(FlipTest(deltas)),
                      |deltas| >= 6, |deltas| >= 7))
  }

  /** The loop of `primaryForStratum`. */
  method CollectPrimary(ps: seq<Pair>)
    returns (deltas: seq<int>, reals: seq<real>, reductions: seq<real>, exclusions: seq<Exclusion>,
             missing: seq<string>)
    ensures deltas == FilterMap(ps, Delta) && reals == FilterMap(ps, RealDelta)
    ensures reductions == FilterMap(ps, Reduction)
    ensures exclusions == FilterMap(ps, WhyExcluded) && missing == FilterMap(ps, UsageMissing)
  {
    deltas, reals, reductions, exclusions, missing := [], [], [], [], [];
    for i := 0 to |ps|
      invariant deltas == FilterMap(ps[..i], Delta) && reals == FilterMap(ps[..i], RealDelta)
      invariant reductions == FilterMap(ps[..i], Reduction)
      invariant exclusions == FilterMap(ps[..i], WhyExcluded) && missing == FilterMap(ps[..i], UsageMissing)
    {
      FilterMapStep(ps, Delta, i);
      FilterMapStep(ps, RealDelta, i);
      FilterMapStep(ps, Reduction, i);
      FilterMapStep(ps, WhyExcluded, i);
      FilterMapStep(ps, UsageMissing, i);
      var pair := ps[i];
      if !BothCompleted(pair) {
        exclusions := exclusions + [Exclusion(pair.pairId, LegNotCompleted)];
      } else if !pair.native.inputTokens.Reported? || !pair.runtime.inputTokens.Reported? {
        exclusions := exclusions + [Exclusion(pair.pairId, InputUsageUnavailable)];
        missing := missing + [pair.pairId];
      } else if pair.native.inputTokens.value <= 0 {
        exclusions := exclusions + [Exclusion(pair.pairId, NativeDenominatorZero)];
      } else {
        var delta := pair.native.inputTokens.value - pair.runtime.inputTokens.value;
        deltas := deltas + [delta];
        reals := reals + [delta as real];
        reductions := reductions + [delta as real / pair.native.inputTokens.value as real];
      }
    }
    assert ps[..|ps|] == ps;
  }

  method PrimaryForStratum(ps: seq<Pair>) returns (r: Option<Primary>)
    ensures r == PrimaryOf(ps)
  {
    var deltas, reals, reductions, exclusions, missing := CollectPrimary(ps);
    var p := SignFlipPValue(deltas);
    if p.TooMany? { return None; }
    return Some(Primary(|ps|, |deltas|, |missing|, multiset(exclusions), Median(reals), Median(reductions), PValueOf(p),
                        |deltas| >= 6, |deltas| >= 7));
  }

  /** Eligible and excluded pairs are the observed ones, without overlap. */
  lemma PrimaryPartition(ps: seq<Pair>)
    requires PrimaryOf(ps).Some?
    ensures PrimaryOf(ps).value.eligible + |PrimaryOf(ps).value.exclusions| == PrimaryOf(ps).value.observed == |ps|
  {
    Complementary(ps, Delta, WhyExcluded);
  }

  /** A reported p-value lies in (0, 1]. */
  lemma PrimaryPValue(ps: seq<Pair>)
    requires PrimaryOf(ps).Some?
    ensures PrimaryOf(ps).value.pValue.Some? <==> PrimaryOf(ps).value.eligible > 0
    ensures PrimaryOf(ps).value.pValue.Some? ==> 0.0 < PrimaryOf(ps).value.pValue.value <= 1.0
  {
    var deltas := FilterMap(ps, Delta);
    if deltas != [] {
      PValueRange(deltas);
      var v := FlipTest(deltas);
      RatioBounds(v.count, v.assignments);
    }
  }

  lemma RatioBounds(a: nat, b: nat)
    requires 1 <= a <= b
    ensures 0.0 < a as real / b as real <= 1.0
  {}

  // ----- protected secondary endpoints -----------------------------------

  datatype Endpoint = TotalTokens | ToolCalls | WallClock

  function MetricOf(e: Endpoint, leg: Leg): (m: Metric) {
    match e
    case TotalTokens => leg.totalTokens
    case ToolCalls => leg.toolCalls
    case WallClock => leg.wallClockMs
  }

  predicate SecondaryEligible(e: Endpoint, p: Pair) {
    && BothCompleted(p) && MetricOf(e, p.native).Reported? && MetricOf(e, p.runtime).Reported?
    && (e == TotalTokens ==> MetricOf(e, p.native).value > 0)
  }

  function NativeValue(e: Endpoint): Pair -> Option<real> {
    (p: Pair) => if SecondaryEligible(e, p) then Some(MetricOf(e, p.native).value as real) else None
  }

  function RuntimeValue(e: Endpoint): Pair -> Option<real> {
    (p: Pair) => if SecondaryEligible(e, p) then Some(MetricOf(e, p.runtime).value as real) else None
  }

  function Difference(e: Endpoint): Pair -> Option<real> {
    (p: Pair) => if SecondaryEligible(e, p)
      then Some((MetricOf(e, p.runtime).value - MetricOf(e, p.native).value) as real) else None
  }

  datatype Secondary = Secondary(
    eligible: nat, minimumCoverage: bool, nativeMedian: Option<real>, runtimeMedian: Option<real>,
    difference: Option<real>, relative: Option<real>, regression: bool)

  function Relative(e: Endpoint, native: Option<real>, difference: Option<real>): (r: Option<real>) {
    if native.None? || difference.None? then None
    else
      var denominator := if e == TotalTokens || native.value >= 1.0 then native.value else 1.0;
      if denominator <= 0.0 then None else Some(difference.value / denominator)
  }

  predicate Regression(e: Endpoint, difference: Option<real>, relative: Option<real>) {
    && difference.Some? && relative.Some?
    && match e
       case TotalTokens => relative.value >= 0.1
       case ToolCalls => difference.value >= 2.0 && relative.value >= 0.2
       case WallClock => difference.value >= 5000.0 && relative.value >= 0.2
  }

  function Summarize(e: Endpoint, natives: seq<real>, runtimes: seq<real>, differences: seq<real>): (r: Secondary) {
    var difference := Median(differences);
    var relative := Relative(e, Median(natives), difference);
    Secondary(|differences|, |differences| >= 6, Median(natives), Median(runtimes), difference, relative,
              Regression(e, difference, relative))
  }

  function SecondaryOf(e: Endpoint, ps: seq<Pair>): (r: Secondary) {
    Summarize(e, FilterMap(ps, NativeValue(e)), FilterMap(ps, RuntimeValue(e)), FilterMap(ps, Difference(e)))
  }

  /** `secondaryForMetric` */
  method SecondaryForMetric(e: Endpoint, ps: seq<Pair>) returns (r: Secondary)
    ensures r == SecondaryOf(e, ps)
  {
    var natives: seq<real>, runtimes: seq<real>, differences: seq<real> := [], [], [];
    for i := 0 to |ps|
      invariant natives == FilterMap(ps[..i], NativeValue(e)) && runtimes == FilterMap(ps[..i], RuntimeValue(e))
      invariant differences == FilterMap(ps[..i], Difference(e))
    {
      FilterMapStep(ps, NativeValue(e), i);
      FilterMapStep(ps, RuntimeValue(e), i);
      FilterMapStep(ps, Difference(e), i);
      if SecondaryEligible(e, ps[i]) {
        var native, runtime := MetricOf(e, ps[i].native).value, MetricOf(e, ps[i].runtime).value;
        natives := natives + [native as real];
        runtimes := runtimes + [runtime as real];
        differences := differences + [(runtime - native) as real];
      }
    }
    assert ps[..|ps|] == ps;
    return Summarize(e, natives, runtimes, differences);
  }

  // ----- lifecycle endpoints ---------------------------------------------

  function Numerator(which: bool): Pair -> Option<int> {
    (p: Pair) => if Rate(which, p).Estimable? then Some(Rate(which, p).numerator) else None
  }

  function Denominator(which: bool): Pair -> Option<int> {
    (p: Pair) => if Rate(which, p).Estimable? then Some(Rate(which, p).denominator) else None
  }

  function Inapplicable(which: bool): Pair -> Option<string> {
    (p: Pair) => if Rate(which, p).NotApplicable? then Some(p.pairId) else None
  }

  /** Removal precision or rehydration recovery. */
  function Rate(removal: bool, p: Pair): (m: Measurement) {
    if removal then p.removalPrecision else p.rehydrationRecovery
  }

  datatype RateSummary = RateSummary(
    estimable: nat, numerator: int, denominator: int, notApplicable: nat, observed: nat)

  function RateOf(which: bool, ps: seq<Pair>): (r: RateSummary) {
    RateSummary(|FilterMap(ps, Numerator(which))|, Total(FilterMap(ps, Numerator(which))),
                Total(FilterMap(ps, Denominator(which))), |FilterMap(ps, Inapplicable(which))|, |ps|)
  }

  function PenaltyInput(p: Pair): (r: Option<real>) {
    if !p.coldPenalty.Penalty? then None
    else Some((p.coldPenalty.runtime.inputTokens - p.coldPenalty.native.inputTokens) as real)
  }

  function PenaltyTools(p: Pair): (r: Option<real>) {
    if !p.coldPenalty.Penalty? then None
    else Some((p.coldPenalty.runtime.toolCalls - p.coldPenalty.native.toolCalls) as real)
  }

  function PenaltyClock(p: Pair): (r: Option<real>) {
    if !p.coldPenalty.Penalty? then None
    else Some((p.coldPenalty.runtime.wallClockMs - p.coldPenalty.native.wallClockMs) as real)
  }

  datatype PenaltySummary = PenaltySummary(eligible: nat, input: Option<real>, tools: Option<real>, clock: Option<real>)

  function PenaltyOf(ps: seq<Pair>): (r: PenaltySummary) {
    PenaltySummary(|FilterMap(ps, PenaltyInput)|, Median(FilterMap(ps, PenaltyInput)),
                   Median(FilterMap(ps, PenaltyTools)), Median(FilterMap(ps, PenaltyClock)))
  }

  datatype Lifecycle = Lifecycle(removal: RateSummary, recovery: RateSummary, penalty: PenaltySummary)

  function LifecycleOf(ps: seq<Pair>): (r: Lifecycle) { Lifecycle(RateOf(true, ps), RateOf(false, ps), PenaltyOf(ps)) }
}
