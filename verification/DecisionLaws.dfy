/**
 When the adjudicator says BETTER, WORSE or TRADE_OFF, stated on the pairs of the
 study: how many legs were lost, how many tasks failed, what the medians of the
 savings and of the protected metrics are. Every condition is necessary and, with
 the others, sufficient.
 */
module DecisionLaws {
  import opened Wrappers
  import opened Filters
  import opened SignFlip
  import opened Analysis
  import opened Adjudication
  import opened AdjudicationLaws
  import opened Medians

  // ----- what is read off one pair ---------------------------------------

  function Tokens(m: Metric): (n: int) { if m.Reported? then m.value else 0 }

  predicate BothDone(p: Pair) { p.native.status == Completed && p.runtime.status == Completed }

  /** Both legs completed and reported their input, and the Native leg used some. */
  predicate Comparable(p: Pair) {
    && BothDone(p) && p.native.inputTokens.Reported? && p.runtime.inputTokens.Reported?
    && p.native.inputTokens.value > 0
  }

  /** The input tokens that Runtime saved. */
  function Saving(p: Pair): (n: int) { Tokens(p.native.inputTokens) - Tokens(p.runtime.inputTokens) }

  /** The same as a share of the Native input. */
  function SavedShare(p: Pair): (r: real) {
    if Tokens(p.native.inputTokens) > 0 then Saving(p) as real / Tokens(p.native.inputTokens) as real else 0.0
  }

  lemma FewerTokensSave(p: Pair)
    requires Comparable(p)
    ensures p.runtime.inputTokens.value < p.native.inputTokens.value <==> SavedShare(p) > 0.0
    ensures p.runtime.inputTokens.value == p.native.inputTokens.value <==> SavedShare(p) == 0.0
  {
    var s, n := Saving(p) as real, p.native.inputTokens.value as real;
    assert SavedShare(p) * n == s;
  }

  /** The leg did not complete or did not report all its usage. */
  predicate Lost(leg: Leg) {
    !(leg.status == Completed && leg.inputTokens.Reported? && leg.outputTokens.Reported? && leg.totalTokens.Reported?)
  }

  predicate TaskFailed(leg: Leg) { leg.status == Completed && leg.outcome == Failure }

  function MetricIn(e: Endpoint, leg: Leg): (m: Metric) {
    match e
    case TotalTokens => leg.totalTokens
    case ToolCalls => leg.toolCalls
    case WallClock => leg.wallClockMs
  }

  /** Both legs completed and reported the metric; for tokens the Native leg used some. */
  predicate Measured(e: Endpoint, p: Pair) {
    && BothDone(p) && MetricIn(e, p.native).Reported? && MetricIn(e, p.runtime).Reported?
    && (e == TotalTokens ==> MetricIn(e, p.native).value > 0)
  }

  function NativeMetric(e: Endpoint, p: Pair): (r: real) { Tokens(MetricIn(e, p.native)) as real }

  /** How much more of it Runtime used. */
  function Increase(e: Endpoint, p: Pair): (r: real) {
    (Tokens(MetricIn(e, p.runtime)) - Tokens(MetricIn(e, p.native))) as real
  }

  // ----- what is read off the pairs --------------------------------------

  /** The values of the pairs that satisfy `f`, in order. */
  function Values<T>(ps: seq<Pair>, f: Pair -> bool, g: Pair -> T): (r: seq<T>) {
    if ps == [] then []
    else Values(ps[..|ps| - 1], f, g) + (if f(ps[|ps| - 1]) then [g(ps[|ps| - 1])] else [])
  }

  function In(s: Stratum, f: Pair -> bool): Pair -> bool { (p: Pair) => p.stratum == s && f(p) }

  function Any(): Pair -> bool { (p: Pair) => true }

  function RuntimeLost(): Pair -> bool { (p: Pair) => Lost(p.runtime) }

  function NativeLost(): Pair -> bool { (p: Pair) => Lost(p.native) }

  function RuntimeFailed(): Pair -> bool { (p: Pair) => TaskFailed(p.runtime) }

  function NativeFailed(): Pair -> bool { (p: Pair) => TaskFailed(p.native) }

  function MeasuredIn(e: Endpoint): Pair -> bool { (p: Pair) => Measured(e, p) }

  function NativeOf(e: Endpoint): Pair -> real { (p: Pair) => NativeMetric(e, p) }

  function IncreaseOf(e: Endpoint): Pair -> real { (p: Pair) => Increase(e, p) }

  function SavingReal(p: Pair): (r: real) { Saving(p) as real }

  /** The median of the values is at least the bound. */
  ghost predicate MedianFrom(values: seq<real>, bound: real) { exists m :: IsMedian(values, m) && m >= bound }

  predicate Named(s: Stratum) { !s.UnknownStratum? }

  /** Completed as planned, with eight pairs in each stratum and the treatment at work. */
  ghost predicate Attributable(study: Study) {
    && !study.sharedExternalFailure && study.status == StudyCompleted
    && (forall p | p in study.pairs :: !p.evidenceIssue)
    && (forall s | Named(s) :: Tally(study.pairs, In(s, Any())) == 8)
    && (forall p | p in study.pairs :: !(p.runtime.treatment == Some(Inactive) && p.runtime.status == Completed))
  }

  /** At least six pairs of each stratum are comparable, and measured in each protected metric. */
  ghost predicate EnoughPairs(pairs: seq<Pair>) {
    forall s | Named(s) ::
      && Tally(pairs, In(s, Comparable)) >= 6
      && forall e :: Tally(pairs, In(s, MeasuredIn(e))) >= 6
  }

  /** Fewer than two additional Runtime failures in each stratum, fewer than three in all. */
  ghost predicate NotInferior(pairs: seq<Pair>) {
    && (forall s | Named(s) :: Tally(pairs, In(s, RuntimeFailed())) < Tally(pairs, In(s, NativeFailed())) + 2)
    && Tally(pairs, RuntimeFailed()) < Tally(pairs, NativeFailed()) + 3
  }

  predicate MoreTasksFailed(pairs: seq<Pair>) { Tally(pairs, RuntimeFailed()) > Tally(pairs, NativeFailed()) }

  /** The one-sided sign-flip p-value of a stratum's savings. */
  function StratumPValue(pairs: seq<Pair>, s: Stratum): (r: real) {
    var savings := Values(pairs, In(s, Comparable), Saving);
    AtLeast(Magnitudes(savings), Total(savings)) as real / Pow2(|savings|) as real
  }

  /** No stratum loses on the median, a tenth is saved on the median of all, and the savings are significant. */
  ghost predicate Gains(fisher: Fisher, pairs: seq<Pair>) {
    && (forall s | Named(s) :: MedianFrom(Values(pairs, In(s, Comparable), SavingReal), 0.0))
    && MedianFrom(Values(pairs, Comparable, SavedShare), 0.1)
    && fisher([StratumPValue(pairs, Localized), StratumPValue(pairs, MultiFile),
               StratumPValue(pairs, Diagnosis), StratumPValue(pairs, Delayed)]) <= 0.05
  }

  /** The median increase of a metric is material: by share of the Native median, and by an absolute amount. */
  ghost predicate Regressed(e: Endpoint, pairs: seq<Pair>) {
    exists native, increase ::
      && IsMedian(Values(pairs, MeasuredIn(e), NativeOf(e)), native)
      && IsMedian(Values(pairs, MeasuredIn(e), IncreaseOf(e)), increase)
      && Material(e, native, increase)
  }

  predicate Material(e: Endpoint, native: real, increase: real) {
    match e
    case TotalTokens => increase >= 0.1 * native
    case ToolCalls => increase >= 2.0 && increase >= 0.2 * native
    case WallClock => increase >= 5000.0 && increase >= 0.2 * native
  }

  ghost predicate AnyRegressed(pairs: seq<Pair>) { exists e :: Regressed(e, pairs) }

  /** At least seven comparable pairs in each stratum and thirty in all. */
  ghost predicate AmplePairs(pairs: seq<Pair>) {
    (forall s | Named(s) :: Tally(pairs, In(s, Comparable)) >= 7) && Tally(pairs, Comparable) >= 30
  }

  // ----- the decisions ---------------------------------------------------

  ghost predicate IsBetter(fisher: Fisher, study: Study) {
    var ps := study.pairs;
    && Attributable(study) && Tally(ps, RuntimeLost()) <= 1 && Tally(ps, NativeLost()) <= 1
    && EnoughPairs(ps) && AmplePairs(ps) && NotInferior(ps) && !MoreTasksFailed(ps)
    && Gains(fisher, ps) && !AnyRegressed(ps)
  }

  ghost predicate IsWorse(fisher: Fisher, study: Study) {
    var ps := study.pairs;
    && Attributable(study)
    && (|| Tally(ps, RuntimeLost()) >= 3
        || (&& Tally(ps, RuntimeLost()) <= 1 && EnoughPairs(ps)
            && (!NotInferior(ps) || (!Gains(fisher, ps) && AnyRegressed(ps)))))
  }

  ghost predicate IsTradeOff(fisher: Fisher, study: Study) {
    var ps := study.pairs;
    && Attributable(study) && Tally(ps, RuntimeLost()) <= 1 && EnoughPairs(ps) && NotInferior(ps)
    && Gains(fisher, ps) && (AnyRegressed(ps) || MoreTasksFailed(ps))
  }

  // ----- the filters of the analysis -------------------------------------

  lemma {:induction false} TallyIs<T>(ps: seq<Pair>, h: Pair -> Option<T>, f: Pair -> bool)
    requires forall p: Pair :: h(p).Some? <==> f(p)
    ensures |FilterMap(ps, h)| == Tally(ps, f)
  {
    if ps != [] { TallyIs(ps[..|ps| - 1], h, f); }
  }

  lemma {:induction false} ValuesAre<T>(ps: seq<Pair>, h: Pair -> Option<T>, f: Pair -> bool, g: Pair -> T)
    requires forall p: Pair :: h(p) == if f(p) then Some(g(p)) else None
    ensures FilterMap(ps, h) == Values(ps, f, g)
  {
    if ps != [] { ValuesAre(ps[..|ps| - 1], h, f, g); }
  }

  lemma StratumTally<T>(pairs: seq<Pair>, s: Stratum, h: Pair -> Option<T>, f: Pair -> bool)
    requires forall p: Pair :: h(p).Some? <==> f(p)
    ensures |FilterMap(OfStratum(pairs, s), h)| == Tally(pairs, In(s, f))
  {
    StratumFilter(pairs, s, h);
    TallyIs(pairs, Within(s, h), In(s, f));
  }

  lemma StratumValues<T>(pairs: seq<Pair>, s: Stratum, h: Pair -> Option<T>, f: Pair -> bool, g: Pair -> T)
    requires forall p: Pair :: h(p) == if f(p) then Some(g(p)) else None
    ensures FilterMap(OfStratum(pairs, s), h) == Values(pairs, In(s, f), g)
  {
    StratumFilter(pairs, s, h);
    ValuesAre(pairs, Within(s, h), In(s, f), g);
  }

  lemma StratumSize(pairs: seq<Pair>, s: Stratum)
    ensures |OfStratum(pairs, s)| == Tally(pairs, In(s, Any()))
  {
    TallyIs(pairs, InStratum(s), In(s, Any()));
  }

  lemma MedianFromIs(values: seq<real>, bound: real)
    ensures MedianFrom(values, bound) <==> Median(values).Some? && Median(values).value >= bound
  {
    if values == [] {
      forall m ensures !IsMedian(values, m) {}
    } else {
      MedianExact(values, Median(values).value);
      if MedianFrom(values, bound) {
        var m :| IsMedian(values, m) && m >= bound;
        MedianExact(values, m);
      }
    }
  }

  // ----- one stratum -----------------------------------------------------

  lemma DeltaIs(p: Pair)
    ensures Delta(p) == (if Comparable(p) then Some(Saving(p)) else None)
    ensures RealDelta(p) == (if Comparable(p) then Some(SavingReal(p)) else None)
    ensures Reduction(p) == (if Comparable(p) then Some(SavedShare(p)) else None)
  {}

  lemma DeltasAre()
    ensures forall p: Pair :: Delta(p) == if Comparable(p) then Some(Saving(p)) else None
    ensures forall p: Pair :: RealDelta(p) == if Comparable(p) then Some(SavingReal(p)) else None
    ensures forall p: Pair :: Reduction(p) == if Comparable(p) then Some(SavedShare(p)) else None
  {
    forall p: Pair
      ensures Delta(p) == if Comparable(p) then Some(Saving(p)) else None
      ensures RealDelta(p) == if Comparable(p) then Some(SavingReal(p)) else None
      ensures Reduction(p) == if Comparable(p) then Some(SavedShare(p)) else None
    {
      DeltaIs(p);
    }
  }

  /** The primary endpoint of a stratum, on the pairs of the study. */
  ghost predicate PrimaryTells(pairs: seq<Pair>, s: Stratum, a: Primary) {
    && a.observed == Tally(pairs, In(s, Any())) && a.eligible == Tally(pairs, In(s, Comparable))
    && (a.minimumCoverage <==> Tally(pairs, In(s, Comparable)) >= 6)
    && (a.betterCoverage <==> Tally(pairs, In(s, Comparable)) >= 7)
    && a.medianDelta == Median(Values(pairs, In(s, Comparable), SavingReal))
    && a.medianReduction == Median(Values(pairs, In(s, Comparable), SavedShare))
    && a.pValue == (if Tally(pairs, In(s, Comparable)) == 0 then None else Some(StratumPValue(pairs, s)))
  }

  lemma PrimaryTold(pairs: seq<Pair>, s: Stratum)
    requires PrimaryOf(OfStratum(pairs, s)).Some?
    ensures PrimaryTells(pairs, s, PrimaryOf(OfStratum(pairs, s)).value)
  {
    DeltasAre();
    StratumSize(pairs, s);
    StratumTally(pairs, s, Delta, Comparable);
    StratumValues(pairs, s, Delta, Comparable, Saving);
    StratumValues(pairs, s, RealDelta, Comparable, SavingReal);
    StratumValues(pairs, s, Reduction, Comparable, SavedShare);
    PValueTold(Values(pairs, In(s, Comparable), Saving));
  }

  lemma PValueTold(savings: seq<int>)
    requires |savings| <= 8
    ensures PValueOf(FlipTest(savings)) ==
            (if |savings| == 0 then None
             else Some(AtLeast(Magnitudes(savings), Total(savings)) as real / Pow2(|savings|) as real))
  {}

  /** The counts of a stratum, on the pairs of the study. */
  ghost predicate CountsTell(pairs: seq<Pair>, s: Stratum, c: Counts) {
    && c.nativeInvalid == Tally(pairs, In(s, NativeLost())) && c.runtimeInvalid == Tally(pairs, In(s, RuntimeLost()))
    && c.nativeFailures == Tally(pairs, In(s, NativeFailed()))
    && c.runtimeFailures == Tally(pairs, In(s, RuntimeFailed()))
  }

  lemma CountsTold(pairs: seq<Pair>, s: Stratum)
    ensures CountsTell(pairs, s, CountsOf(OfStratum(pairs, s)))
  {
    StratumTally(pairs, s, NativeInvalid, NativeLost());
    StratumTally(pairs, s, RuntimeInvalid, RuntimeLost());
    StratumTally(pairs, s, NativeFails, NativeFailed());
    StratumTally(pairs, s, RuntimeFails, RuntimeFailed());
  }

  lemma MeasuredAre(e: Endpoint)
    ensures forall p: Pair :: Difference(e)(p) == if MeasuredIn(e)(p) then Some(IncreaseOf(e)(p)) else None
    ensures forall p: Pair :: NativeValue(e)(p) == if MeasuredIn(e)(p) then Some(NativeOf(e)(p)) else None
  {}

  lemma CoverageTold(pairs: seq<Pair>, s: Stratum, e: Endpoint)
    ensures SecondaryOf(e, OfStratum(pairs, s)).minimumCoverage <==> Tally(pairs, In(s, MeasuredIn(e))) >= 6
  {
    MeasuredAre(e);
    StratumTally(pairs, s, Difference(e), MeasuredIn(e));
  }

  lemma CoveredTold(pairs: seq<Pair>, s: Stratum)
    ensures Covered(SecondariesOf(OfStratum(pairs, s))) <==> forall e :: Tally(pairs, In(s, MeasuredIn(e))) >= 6
  {
    CoverageTold(pairs, s, TotalTokens);
    CoverageTold(pairs, s, ToolCalls);
    CoverageTold(pairs, s, WallClock);
    if Covered(SecondariesOf(OfStratum(pairs, s))) {
      forall e ensures Tally(pairs, In(s, MeasuredIn(e))) >= 6 {
        match e
        case TotalTokens =>
        case ToolCalls =>
        case WallClock =>
      }
    }
  }

  // ----- protected metrics -----------------------------------------------

  lemma {:induction false} ValuesPositive(ps: seq<Pair>, f: Pair -> bool, g: Pair -> real)
    requires forall p: Pair :: f(p) ==> g(p) > 0.0
    ensures forall v | v in Values(ps, f, g) :: v > 0.0
  {
    if ps != [] { ValuesPositive(ps[..|ps| - 1], f, g); }
  }

  lemma MedianPositive(values: seq<real>, m: real)
    requires IsMedian(values, m) && forall v | v in values :: v > 0.0
    ensures m > 0.0
  {
    if |values| % 2 == 0 {
      var lo, hi :| InMiddle(values, lo, hi) && m == (lo + hi) / 2.0;
    }
  }

  /** Dividing by the Native median, or by one if that is larger, and comparing is comparing with a share of it. */
  lemma MaterialIs(e: Endpoint, native: real, increase: real)
    requires e == TotalTokens ==> native > 0.0
    ensures Regression(e, Some(increase), Relative(e, Some(native), Some(increase))) <==> Material(e, native, increase)
  {
    var denominator := if e == TotalTokens || native >= 1.0 then native else 1.0;
    ShareIs(increase, denominator, if e == TotalTokens then 0.1 else 0.2);
  }

  lemma ShareIs(a: real, b: real, share: real)
    requires b > 0.0
    ensures a / b >= share <==> a >= share * b
  {
    assert (a / b) * b == a;
    if a / b >= share { assert (a / b) * b >= share * b; }
    if a >= share * b { assert (a / b - share) * b >= 0.0; }
  }

  lemma RegressedIs(e: Endpoint, pairs: seq<Pair>)
    ensures Regressed(e, pairs) <==> SecondaryOf(e, pairs).regression
  {
    MeasuredAre(e);
    var natives, increases := Values(pairs, MeasuredIn(e), NativeOf(e)), Values(pairs, MeasuredIn(e), IncreaseOf(e));
    ValuesAre(pairs, NativeValue(e), MeasuredIn(e), NativeOf(e));
    ValuesAre(pairs, Difference(e), MeasuredIn(e), IncreaseOf(e));
    if e == TotalTokens { ValuesPositive(pairs, MeasuredIn(e), NativeOf(e)); }
    RegressedMedians(e, natives, increases);
  }

  lemma RegressedMedians(e: Endpoint, natives: seq<real>, increases: seq<real>)
    requires e == TotalTokens ==> forall v | v in natives :: v > 0.0
    ensures (exists native, increase ::
               IsMedian(natives, native) && IsMedian(increases, increase) && Material(e, native, increase)) <==>
            Regression(e, Median(increases), Relative(e, Median(natives), Median(increases)))
  {
    if natives != [] && increases != [] {
      var n, i := Median(natives).value, Median(increases).value;
      MedianExact(natives, n);
      MedianExact(increases, i);
      if e == TotalTokens { MedianPositive(natives, n); }
      MaterialIs(e, n, i);
      forall native, increase | IsMedian(natives, native) && IsMedian(increases, increase)
        ensures native == n && increase == i
      {
        MedianExact(natives, native);
        MedianExact(increases, increase);
      }
    } else {
      forall m ensures !IsMedian([], m) {}
    }
  }

  lemma AnyRegressedIs(pairs: seq<Pair>)
    ensures AnyRegressed(pairs) <==> ProtectedRegression(SecondariesOf(pairs))
  {
    RegressedIs(TotalTokens, pairs);
    RegressedIs(ToolCalls, pairs);
    RegressedIs(WallClock, pairs);
    if e :| Regressed(e, pairs) {
      match e
      case TotalTokens =>
      case ToolCalls =>
      case WallClock =>
    }
  }

  // ----- all strata ------------------------------------------------------

  /** The four strata, each told by the pairs. */
  ghost predicate StratumTells(pairs: seq<Pair>, s: Stratum, a: StratumAnalysis) {
    && PrimaryTells(pairs, s, a.primary) && CountsTell(pairs, s, a.counts)
    && (Covered(a.secondary) <==> forall e :: Tally(pairs, In(s, MeasuredIn(e))) >= 6)
  }

  ghost predicate StrataTell(pairs: seq<Pair>, t: Strata) {
    && StratumTells(pairs, Localized, t.localized) && StratumTells(pairs, MultiFile, t.multiFile)
    && StratumTells(pairs, Diagnosis, t.diagnosis) && StratumTells(pairs, Delayed, t.delayed)
  }

  lemma StratumTold(pairs: seq<Pair>, s: Stratum)
    requires StratumOf(OfStratum(pairs, s)).Some?
    ensures StratumTells(pairs, s, StratumOf(OfStratum(pairs, s)).value)
  {
    PrimaryTold(pairs, s);
    CountsTold(pairs, s);
    CoveredTold(pairs, s);
  }

  lemma StrataTold(pairs: seq<Pair>)
    requires StrataOf(pairs).Some?
    ensures StrataTell(pairs, StrataOf(pairs).value)
  {
    StratumTold(pairs, Localized);
    StratumTold(pairs, MultiFile);
    StratumTold(pairs, Diagnosis);
    StratumTold(pairs, Delayed);
  }

  /** Every pair of a valid study counts in one stratum. */
  lemma {:induction false} TallySplits(pairs: seq<Pair>, f: Pair -> bool)
    requires AllValid(pairs)
    ensures Tally(pairs, f) == Tally(pairs, In(Localized, f)) + Tally(pairs, In(MultiFile, f))
                               + Tally(pairs, In(Diagnosis, f)) + Tally(pairs, In(Delayed, f))
  {
    if pairs != [] {
      var n := |pairs| - 1;
      assert ValidPair(pairs[n]);
      TallySplits(pairs[..n], f);
    }
  }

  // ----- the gates -------------------------------------------------------

  /** What the four strata have in common holds of every named stratum. */
  lemma EachStratum(p: Stratum -> bool)
    ensures (forall s | Named(s) :: p(s)) <==> p(Localized) && p(MultiFile) && p(Diagnosis) && p(Delayed)
  {
    if p(Localized) && p(MultiFile) && p(Diagnosis) && p(Delayed) {
      forall s | Named(s) ensures p(s) {
        match s
        case Localized =>
        case MultiFile =>
        case Diagnosis =>
        case Delayed =>
      }
    }
  }

  function EightIn(pairs: seq<Pair>): Stratum -> bool { (s: Stratum) => Tally(pairs, In(s, Any())) == 8 }

  function ComparableIn(pairs: seq<Pair>, n: nat): Stratum -> bool {
    (s: Stratum) => Tally(pairs, In(s, Comparable)) >= n
  }

  predicate FewFailures(pairs: seq<Pair>, s: Stratum) {
    Tally(pairs, In(s, RuntimeFailed())) < Tally(pairs, In(s, NativeFailed())) + 2
  }

  ghost predicate EnoughIn(pairs: seq<Pair>, s: Stratum) {
    Tally(pairs, In(s, Comparable)) >= 6 && forall e :: Tally(pairs, In(s, MeasuredIn(e))) >= 6
  }

  lemma EightIs(pairs: seq<Pair>, t: Strata)
    requires StrataTell(pairs, t)
    ensures EightEach(t) <==> forall s | Named(s) :: Tally(pairs, In(s, Any())) == 8
  {
    EachStratum(EightIn(pairs));
    assert (forall s | Named(s) :: EightIn(pairs)(s)) <==> forall s | Named(s) :: Tally(pairs, In(s, Any())) == 8;
  }

  lemma EnoughIs(pairs: seq<Pair>, t: Strata)
    requires StrataTell(pairs, t)
    ensures MinimumCoverage(t) && SecondaryCoverage(t) <==> EnoughPairs(pairs)
  {
    assert Named(Localized) && Named(MultiFile) && Named(Diagnosis) && Named(Delayed);
    if MinimumCoverage(t) && SecondaryCoverage(t) {
      forall s | Named(s) ensures EnoughIn(pairs, s) {
        match s
        case Localized =>
        case MultiFile =>
        case Diagnosis =>
        case Delayed =>
      }
      assert forall s | Named(s) :: EnoughIn(pairs, s);
    }
  }

  lemma AmpleIs(pairs: seq<Pair>, t: Strata)
    requires StrataTell(pairs, t) && AllValid(pairs)
    ensures BetterCoverage(t) <==> AmplePairs(pairs)
  {
    TallySplits(pairs, Comparable);
    EachStratum(ComparableIn(pairs, 7));
    assert (forall s | Named(s) :: ComparableIn(pairs, 7)(s)) <==>
           forall s | Named(s) :: Tally(pairs, In(s, Comparable)) >= 7;
  }

  lemma OutcomesAre(pairs: seq<Pair>, t: Strata)
    requires StrataTell(pairs, t) && AllValid(pairs)
    ensures var o := OutcomesOf(t);
            && o.nativeFailures == Tally(pairs, NativeFailed()) && o.runtimeFailures == Tally(pairs, RuntimeFailed())
            && (o.perStratumPass <==> forall s | Named(s) :: FewFailures(pairs, s))
  {
    TallySplits(pairs, NativeFailed());
    TallySplits(pairs, RuntimeFailed());
    assert Named(Localized) && Named(MultiFile) && Named(Diagnosis) && Named(Delayed);
    if OutcomesOf(t).perStratumPass {
      forall s | Named(s) ensures FewFailures(pairs, s) {
        match s
        case Localized =>
        case MultiFile =>
        case Diagnosis =>
        case Delayed =>
      }
    }
  }

  lemma NonInferiorIs(pairs: seq<Pair>, t: Strata)
    requires StrataTell(pairs, t) && AllValid(pairs)
    ensures NonInferior(OutcomesOf(t)) <==> NotInferior(pairs)
    ensures Additional(OutcomesOf(t)) == 0 <==> !MoreTasksFailed(pairs)
  {
    OutcomesAre(pairs, t);
    assert (forall s | Named(s) :: FewFailures(pairs, s)) <==>
           forall s | Named(s) :: Tally(pairs, In(s, RuntimeFailed())) < Tally(pairs, In(s, NativeFailed())) + 2;
  }

  lemma ReliabilityIs(pairs: seq<Pair>, t: Strata)
    requires StrataTell(pairs, t) && AllValid(pairs)
    ensures ReliabilityOf(t) == Reliability(Tally(pairs, NativeLost()), Tally(pairs, RuntimeLost()))
  {
    TallySplits(pairs, NativeLost());
    TallySplits(pairs, RuntimeLost());
  }

  ghost predicate SavesIn(pairs: seq<Pair>, s: Stratum) {
    MedianFrom(Values(pairs, In(s, Comparable), SavingReal), 0.0)
  }

  lemma NotNegativeIs(pairs: seq<Pair>, s: Stratum, a: Primary)
    requires PrimaryTells(pairs, s, a) && a.minimumCoverage
    ensures NotNegative(a) <==> SavesIn(pairs, s)
    ensures a.pValue == Some(StratumPValue(pairs, s))
  {
    MedianFromIs(Values(pairs, In(s, Comparable), SavingReal), 0.0);
  }

  lemma QualifiesIs(fisher: Fisher, pairs: seq<Pair>, t: Strata)
    requires StrataTell(pairs, t) && MinimumCoverage(t)
    ensures PoolPrimary(fisher, t, Median(FilterMap(pairs, Reduction))).qualifies <==> Gains(fisher, pairs)
  {
    DeltasAre();
    ValuesAre(pairs, Reduction, Comparable, SavedShare);
    MedianFromIs(Values(pairs, Comparable, SavedShare), 0.1);
    NotNegativeIs(pairs, Localized, t.localized.primary);
    NotNegativeIs(pairs, MultiFile, t.multiFile.primary);
    NotNegativeIs(pairs, Diagnosis, t.diagnosis.primary);
    NotNegativeIs(pairs, Delayed, t.delayed.primary);
    SavesEverywhere(pairs);
  }

  lemma SavesEverywhere(pairs: seq<Pair>)
    ensures (forall s | Named(s) :: MedianFrom(Values(pairs, In(s, Comparable), SavingReal), 0.0)) <==>
            SavesIn(pairs, Localized) && SavesIn(pairs, MultiFile)
            && SavesIn(pairs, Diagnosis) && SavesIn(pairs, Delayed)
  {
    assert Named(Localized) && Named(MultiFile) && Named(Diagnosis) && Named(Delayed);
    if SavesIn(pairs, Localized) && SavesIn(pairs, MultiFile)
       && SavesIn(pairs, Diagnosis) && SavesIn(pairs, Delayed) {
      forall s | Named(s) ensures MedianFrom(Values(pairs, In(s, Comparable), SavingReal), 0.0) {
        match s
        case Localized =>
        case MultiFile =>
        case Diagnosis =>
        case Delayed =>
      }
    }
  }

  /** What the ladder reads, on the pairs. */
  ghost predicate GatesTell(fisher: Fisher, study: Study, g: Gates, o: Outcomes) {
    var ps := study.pairs;
    && (g.attributable <==> !study.sharedExternalFailure && study.status == StudyCompleted)
    && (g.frozenSize <==> forall s | Named(s) :: Tally(ps, In(s, Any())) == 8)
    && (g.treatmentActive <==>
          forall p | p in ps :: !(p.runtime.treatment == Some(Inactive) && p.runtime.status == Completed))
    && g.nativeInvalid == Tally(ps, NativeLost()) && g.runtimeInvalid == Tally(ps, RuntimeLost())
    && (g.covered <==> EnoughPairs(ps)) && (g.regression <==> AnyRegressed(ps))
    && (g.covered ==> (g.qualifies <==> Gains(fisher, ps)))
    && (g.betterCoverage <==> AmplePairs(ps))
    && (NonInferior(o) <==> NotInferior(ps)) && (Additional(o) == 0 <==> !MoreTasksFailed(ps))
  }

  lemma GatesTold(fisher: Fisher, study: Study, t: Strata)
    requires AllValid(study.pairs) && StrataTell(study.pairs, t)
    ensures var median := Median(FilterMap(study.pairs, Reduction));
            GatesTell(fisher, study,
                      GatesOf(study, t, PoolPrimary(fisher, t, median), SecondariesOf(study.pairs)), OutcomesOf(t))
  {
    EightIs(study.pairs, t);
    EnoughIs(study.pairs, t);
    AmpleIs(study.pairs, t);
    NonInferiorIs(study.pairs, t);
    ReliabilityIs(study.pairs, t);
    AnyRegressedIs(study.pairs);
    if MinimumCoverage(t) { QualifiesIs(fisher, study.pairs, t); }
  }

  lemma LadderIs(fisher: Fisher, study: Study, g: Gates, o: Outcomes)
    requires GatesTell(fisher, study, g, o) && forall p | p in study.pairs :: !p.evidenceIssue
    ensures Choose(g, o) == Better <==> IsBetter(fisher, study)
    ensures Choose(g, o) == Worse <==> IsWorse(fisher, study)
    ensures Choose(g, o) == TradeOff <==> IsTradeOff(fisher, study)
  {}

  /**
   The decision of every adjudicated study: BETTER, WORSE and TRADE_OFF exactly
   under their conditions on the pairs, INCONCLUSIVE otherwise.
   */
  lemma DecisionExact(fisher: Fisher, study: Study)
    requires Adjudicate(fisher, study).Some?
    ensures var d := Adjudicate(fisher, study).value.decision;
            && (d == Better <==> IsBetter(fisher, study))
            && (d == Worse <==> IsWorse(fisher, study))
            && (d == TradeOff <==> IsTradeOff(fisher, study))
  {
    var t, median := StrataOf(study.pairs).value, Median(FilterMap(study.pairs, Reduction));
    DecisionIs(fisher, study, t, median, SecondariesOf(study.pairs));
    DecisionTold(fisher, study, t);
  }

  lemma DecisionTold(fisher: Fisher, study: Study, t: Strata)
    requires AllValid(study.pairs) && StrataOf(study.pairs) == Some(t)
    ensures var median, x := Median(FilterMap(study.pairs, Reduction)), SecondariesOf(study.pairs);
            var d := DecisionOf(study, fisher, t, median, x);
            && (d == Better <==> IsBetter(fisher, study))
            && (d == Worse <==> IsWorse(fisher, study))
            && (d == TradeOff <==> IsTradeOff(fisher, study))
  {
    var median, x := Median(FilterMap(study.pairs, Reduction)), SecondariesOf(study.pairs);
    StrataTold(study.pairs);
    GatesTold(fisher, study, t);
    if !EvidenceIssue(study.pairs) {
      LadderIs(fisher, study, GatesOf(study, t, PoolPrimary(fisher, t, median), x), OutcomesOf(t));
    }
  }

  /** A study is adjudicated exactly when its pairs are valid and no stratum has more than eight comparable ones. */
  lemma AdjudicatedExactly(fisher: Fisher, study: Study)
    ensures Adjudicate(fisher, study).Some? <==>
            ValidPairs(study.pairs) && forall s | Named(s) :: Tally(study.pairs, In(s, Comparable)) <= 8
  {
    var pairs := study.pairs;
    assert Named(Localized) && Named(MultiFile) && Named(Diagnosis) && Named(Delayed);
    StratumAccepted(pairs, Localized);
    StratumAccepted(pairs, MultiFile);
    StratumAccepted(pairs, Diagnosis);
    StratumAccepted(pairs, Delayed);
    if StrataOf(pairs).Some? {
      forall s | Named(s) ensures Tally(pairs, In(s, Comparable)) <= 8 {
        match s
        case Localized =>
        case MultiFile =>
        case Diagnosis =>
        case Delayed =>
      }
    }
  }

  lemma StratumAccepted(pairs: seq<Pair>, s: Stratum)
    ensures StratumOf(OfStratum(pairs, s)).Some? <==> Tally(pairs, In(s, Comparable)) <= 8
  {
    DeltasAre();
    StratumTally(pairs, s, Delta, Comparable);
  }

  /** The counts, medians, p-values and coverage flags of a report are those of the pairs. */
  lemma ReportTold(fisher: Fisher, study: Study)
    requires Adjudicate(fisher, study).Some?
    ensures var r, ps := Adjudicate(fisher, study).value, study.pairs;
            && StrataTell(ps, r.strata)
            && r.outcomes.nativeFailures == Tally(ps, NativeFailed())
            && r.outcomes.runtimeFailures == Tally(ps, RuntimeFailed())
            && r.reliability == Reliability(Tally(ps, NativeLost()), Tally(ps, RuntimeLost()))
            && r.primary.medianReduction == Median(Values(ps, Comparable, SavedShare))
  {
    StrataTold(study.pairs);
    OutcomesAre(study.pairs, StrataOf(study.pairs).value);
    ReliabilityIs(study.pairs, StrataOf(study.pairs).value);
    DeltasAre();
    ValuesAre(study.pairs, Reduction, Comparable, SavedShare);
  }

  /** A leg of the study has this status. */
  predicate SomeLeg(pairs: seq<Pair>, status: LegStatus) {
    exists p | p in pairs :: p.native.status == status || p.runtime.status == status
  }

  /** All legs completed and no lifecycle evidence is missing. */
  predicate NothingAmiss(pairs: seq<Pair>) { forall p | p in pairs :: BothDone(p) && !p.evidenceIssue }

  /** How a failed study is classified; a shared external failure hides every other one. */
  ghost predicate ClassifiedAs(study: Study, c: Classification) {
    var ps := study.pairs;
    var legs := !study.sharedExternalFailure && study.status == StudyCompleted && !SomeLeg(ps, HarnessContractFailure);
    match c
    case SharedExternal => study.sharedExternalFailure
    case NoFailure => !study.sharedExternalFailure && study.status == StudyCompleted && NothingAmiss(ps)
    case Infrastructure =>
      || (!study.sharedExternalFailure && study.status == StudyInfrastructureFailure)
      || (legs && (SomeLeg(ps, InfrastructureFailure) || SomeLeg(ps, Aborted)))
    case StudyStop =>
      || (!study.sharedExternalFailure && study.status == StudyStopped)
      || (legs && !SomeLeg(ps, InfrastructureFailure) && !SomeLeg(ps, Aborted) && SomeLeg(ps, Stopped))
    case HarnessFailure =>
      || (!study.sharedExternalFailure && study.status == StudyHarnessFailure)
      || (!study.sharedExternalFailure && study.status == StudyCompleted && SomeLeg(ps, HarnessContractFailure))
      || (legs && (forall p | p in ps :: BothDone(p)) && exists p | p in ps :: p.evidenceIssue)
  }

  lemma ClassificationExact(fisher: Fisher, study: Study)
    requires Adjudicate(fisher, study).Some?
    ensures ClassifiedAs(study, Adjudicate(fisher, study).value.classification)
  {
    assert Adjudicate(fisher, study).value.classification == ClassificationOf(study);
    ClassificationIs(study);
  }

  lemma ClassificationIs(study: Study)
    ensures ClassifiedAs(study, ClassificationOf(study))
  {
    var ps := study.pairs;
    StatusIs(ps, HarnessContractFailure);
    StatusIs(ps, InfrastructureFailure);
    StatusIs(ps, Aborted);
    StatusIs(ps, Stopped);
    AllDone(ps);
  }

  lemma StatusIs(ps: seq<Pair>, status: LegStatus)
    ensures AnyStatus(ps, status) <==> SomeLeg(ps, status)
  {
    if p :| p in ps && HasStatus(p, status) {}
  }

  lemma AllDone(ps: seq<Pair>)
    ensures (forall p | p in ps :: BothDone(p)) <==>
            !SomeLeg(ps, HarnessContractFailure) && !SomeLeg(ps, InfrastructureFailure) && !SomeLeg(ps, Aborted)
            && !SomeLeg(ps, Stopped)
  {
    forall p | p in ps && !BothDone(p)
      ensures SomeLeg(ps, HarnessContractFailure) || SomeLeg(ps, InfrastructureFailure) || SomeLeg(ps, Aborted)
              || SomeLeg(ps, Stopped)
    {
      LegStatusNamed(p.native.status);
      LegStatusNamed(p.runtime.status);
    }
  }

  lemma LegStatusNamed(s: LegStatus)
    ensures s == Completed || s == HarnessContractFailure || s == InfrastructureFailure || s == Aborted || s == Stopped
  {}
}
