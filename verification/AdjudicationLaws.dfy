/**
 What the adjudication guarantees for every study: it does not depend on the order
 of the pairs, its pooled counts are the counts of the pairs, and a Runtime failure
 can only make the decision worse.
 */
module AdjudicationLaws {
  import opened Wrappers
  import opened Filters
  import opened SignFlip
  import opened Analysis
  import opened Adjudication

  // ----- order of the pairs ----------------------------------------------

  lemma LengthPermutes<T>(ps: seq<Pair>, qs: seq<Pair>, f: Pair -> Option<T>)
    requires multiset(ps) == multiset(qs)
    ensures |FilterMap(ps, f)| == |FilterMap(qs, f)|
  {
    FilterMapPermutes(ps, qs, f);
    assert |multiset(FilterMap(ps, f))| == |multiset(FilterMap(qs, f))|;
  }

  lemma MedianFilterPermutes(ps: seq<Pair>, qs: seq<Pair>, f: Pair -> Option<real>)
    requires multiset(ps) == multiset(qs)
    ensures Median(FilterMap(ps, f)) == Median(FilterMap(qs, f))
  {
    FilterMapPermutes(ps, qs, f);
    MedianPermutes(FilterMap(ps, f), FilterMap(qs, f));
  }

  lemma TotalFilterPermutes(ps: seq<Pair>, qs: seq<Pair>, f: Pair -> Option<int>)
    requires multiset(ps) == multiset(qs)
    ensures Total(FilterMap(ps, f)) == Total(FilterMap(qs, f))
    ensures FlipTest(FilterMap(ps, f)) == FlipTest(FilterMap(qs, f))
  {
    FilterMapPermutes(ps, qs, f);
    DeltasPermute(FilterMap(ps, f), FilterMap(qs, f));
    SignFlipPermutes(FilterMap(ps, f), FilterMap(qs, f));
  }

  lemma SameSize(ps: seq<Pair>, qs: seq<Pair>)
    requires multiset(ps) == multiset(qs)
    ensures |ps| == |qs|
  {
    assert |multiset(ps)| == |multiset(qs)|;
  }

  lemma PrimaryPermutes(ps: seq<Pair>, qs: seq<Pair>)
    requires multiset(ps) == multiset(qs)
    ensures PrimaryOf(ps) == PrimaryOf(qs)
  {
    SameSize(ps, qs);
    LengthPermutes(ps, qs, Delta);
    TotalFilterPermutes(ps, qs, Delta);
    LengthPermutes(ps, qs, UsageMissing);
    FilterMapPermutes(ps, qs, WhyExcluded);
    MedianFilterPermutes(ps, qs, RealDelta);
    MedianFilterPermutes(ps, qs, Reduction);
  }

  lemma SecondaryPermutes(e: Endpoint, ps: seq<Pair>, qs: seq<Pair>)
    requires multiset(ps) == multiset(qs)
    ensures SecondaryOf(e, ps) == SecondaryOf(e, qs)
  {
    MedianFilterPermutes(ps, qs, NativeValue(e));
    MedianFilterPermutes(ps, qs, RuntimeValue(e));
    MedianFilterPermutes(ps, qs, Difference(e));
    LengthPermutes(ps, qs, Difference(e));
  }

  lemma SecondariesPermute(ps: seq<Pair>, qs: seq<Pair>)
    requires multiset(ps) == multiset(qs)
    ensures SecondariesOf(ps) == SecondariesOf(qs)
  {
    SecondaryPermutes(TotalTokens, ps, qs);
    SecondaryPermutes(ToolCalls, ps, qs);
    SecondaryPermutes(WallClock, ps, qs);
  }

  lemma RatePermutes(which: bool, ps: seq<Pair>, qs: seq<Pair>)
    requires multiset(ps) == multiset(qs)
    ensures RateOf(which, ps) == RateOf(which, qs)
  {
    SameSize(ps, qs);
    LengthPermutes(ps, qs, Numerator(which));
    TotalFilterPermutes(ps, qs, Numerator(which));
    TotalFilterPermutes(ps, qs, Denominator(which));
    LengthPermutes(ps, qs, Inapplicable(which));
  }

  lemma LifecyclePermutes(ps: seq<Pair>, qs: seq<Pair>)
    requires multiset(ps) == multiset(qs)
    ensures LifecycleOf(ps) == LifecycleOf(qs)
  {
    RatePermutes(true, ps, qs);
    RatePermutes(false, ps, qs);
    LengthPermutes(ps, qs, PenaltyInput);
    MedianFilterPermutes(ps, qs, PenaltyInput);
    MedianFilterPermutes(ps, qs, PenaltyTools);
    MedianFilterPermutes(ps, qs, PenaltyClock);
  }

  lemma CountsPermute(ps: seq<Pair>, qs: seq<Pair>)
    requires multiset(ps) == multiset(qs)
    ensures CountsOf(ps) == CountsOf(qs)
  {
    LengthPermutes(ps, qs, NativeInvalid);
    LengthPermutes(ps, qs, RuntimeInvalid);
    LengthPermutes(ps, qs, NativeFails);
    LengthPermutes(ps, qs, RuntimeFails);
  }

  lemma StratumPermutes(pairs: seq<Pair>, others: seq<Pair>, s: Stratum)
    requires multiset(pairs) == multiset(others)
    ensures StratumOf(OfStratum(pairs, s)) == StratumOf(OfStratum(others, s))
  {
    var ps, qs := OfStratum(pairs, s), OfStratum(others, s);
    FilterMapPermutes(pairs, others, InStratum(s));
    PrimaryPermutes(ps, qs);
    SecondariesPermute(ps, qs);
    LifecyclePermutes(ps, qs);
    CountsPermute(ps, qs);
  }

  lemma StrataPermute(pairs: seq<Pair>, others: seq<Pair>)
    requires multiset(pairs) == multiset(others)
    ensures StrataOf(pairs) == StrataOf(others)
  {
    StratumPermutes(pairs, others, Localized);
    StratumPermutes(pairs, others, MultiFile);
    StratumPermutes(pairs, others, Diagnosis);
    StratumPermutes(pairs, others, Delayed);
  }

  lemma SameMembers(pairs: seq<Pair>, others: seq<Pair>)
    requires multiset(pairs) == multiset(others)
    ensures forall p :: p in pairs <==> p in others
  {
    forall p ensures p in pairs <==> p in others {
      assert p in pairs <==> p in multiset(pairs);
      assert p in others <==> p in multiset(others);
    }
  }

  lemma MembersDecide(study: Study, others: seq<Pair>)
    requires multiset(study.pairs) == multiset(others)
    ensures var study' := study.(pairs := others);
            && (ValidPairs(others) <==> ValidPairs(study.pairs))
            && (TreatmentActive(others) <==> TreatmentActive(study.pairs))
            && (EvidenceIssue(others) <==> EvidenceIssue(study.pairs))
            && Classify(study') == Classify(study)
  {
    SameMembers(study.pairs, others);
    SameSize(study.pairs, others);
    assert Ids(study.pairs) == Ids(others);
    forall s ensures AnyStatus(study.pairs, s) <==> AnyStatus(others, s) {}
  }

  lemma AssembleSame(study: Study, others: seq<Pair>, fisher: Fisher, s: Strata, median: Option<real>,
      secondary: Secondaries, lifecycle: Lifecycle)
    requires TreatmentActive(others) <==> TreatmentActive(study.pairs)
    requires EvidenceIssue(others) <==> EvidenceIssue(study.pairs)
    requires Classify(study.(pairs := others)) == Classify(study)
    ensures Assemble(study.(pairs := others), fisher, s, median, secondary, lifecycle)
            == Assemble(study, fisher, s, median, secondary, lifecycle)
  {}

  /**
   Permuting the pairs of a study either makes both adjudications throw or leaves
   every decision, median, p-value, count and flag unchanged.
   */
  lemma PermutationInvariant(fisher: Fisher, study: Study, others: seq<Pair>)
    requires multiset(study.pairs) == multiset(others)
    ensures Adjudicate(fisher, study.(pairs := others)) == Adjudicate(fisher, study)
  {
    MembersDecide(study, others);
    StrataPermute(study.pairs, others);
    MedianFilterPermutes(study.pairs, others, Reduction);
    SecondariesPermute(study.pairs, others);
    LifecyclePermutes(study.pairs, others);
    if Adjudicate(fisher, study).Some? {
      AssembleSame(study, others, fisher, StrataOf(study.pairs).value, Median(FilterMap(study.pairs, Reduction)),
                   SecondariesOf(study.pairs), LifecycleOf(study.pairs));
    }
  }

  // ----- pooled counts ---------------------------------------------------

  function Within<T>(s: Stratum, f: Pair -> Option<T>): Pair -> Option<T> {
    (p: Pair) => if p.stratum == s then f(p) else None
  }

  lemma StratumFilter<T>(pairs: seq<Pair>, s: Stratum, f: Pair -> Option<T>)
    ensures FilterMap(OfStratum(pairs, s), f) == FilterMap(pairs, Within(s, f))
  {
    Fuse(pairs, InStratum(s), f, Within(s, f));
  }

  lemma {:induction false} StrataCover<T>(pairs: seq<Pair>, f: Pair -> Option<T>)
    requires AllValid(pairs)
    ensures |FilterMap(pairs, f)| ==
            |FilterMap(pairs, Within(Localized, f))| + |FilterMap(pairs, Within(MultiFile, f))|
            + |FilterMap(pairs, Within(Diagnosis, f))| + |FilterMap(pairs, Within(Delayed, f))|
  {
    if pairs != [] {
      var n := |pairs| - 1;
      assert ValidPair(pairs[n]);
      StrataCover(pairs[..n], f);
    }
  }

  /** Every pair of a valid study is in exactly one stratum. */
  lemma StrataPartition<T>(pairs: seq<Pair>, f: Pair -> Option<T>)
    requires AllValid(pairs)
    ensures |FilterMap(pairs, f)| ==
            |FilterMap(OfStratum(pairs, Localized), f)| + |FilterMap(OfStratum(pairs, MultiFile), f)|
            + |FilterMap(OfStratum(pairs, Diagnosis), f)| + |FilterMap(OfStratum(pairs, Delayed), f)|
  {
    StratumFilter(pairs, Localized, f);
    StratumFilter(pairs, MultiFile, f);
    StratumFilter(pairs, Diagnosis, f);
    StratumFilter(pairs, Delayed, f);
    StrataCover(pairs, f);
  }

  /** The pooled eligible count is the number of pooled reductions; each stratum loses nothing. */
  lemma PooledCounts(fisher: Fisher, study: Study)
    requires Adjudicate(fisher, study).Some?
    ensures var r := Adjudicate(fisher, study).value;
            && r.primary.eligible == |FilterMap(study.pairs, Reduction)|
            && Balanced(r.strata.localized.primary) && Balanced(r.strata.multiFile.primary)
            && Balanced(r.strata.diagnosis.primary) && Balanced(r.strata.delayed.primary)
  {
    var pairs := study.pairs;
    StrataPartition(pairs, Delta);
    SameLength(pairs, Delta, Reduction);
    StratumBalanced(OfStratum(pairs, Localized));
    StratumBalanced(OfStratum(pairs, MultiFile));
    StratumBalanced(OfStratum(pairs, Diagnosis));
    StratumBalanced(OfStratum(pairs, Delayed));
    ReportStrata(fisher, study, StrataOf(pairs).value);
  }

  lemma StratumBalanced(ps: seq<Pair>)
    requires StratumOf(ps).Some?
    ensures Balanced(StratumOf(ps).value.primary) && StratumOf(ps).value.primary.eligible == |FilterMap(ps, Delta)|
  {
    PrimaryPartition(ps);
  }

  lemma ReportStrata(fisher: Fisher, study: Study, s: Strata)
    requires Adjudicate(fisher, study).Some? && StrataOf(study.pairs) == Some(s)
    ensures Adjudicate(fisher, study).value.strata == s
    ensures Adjudicate(fisher, study).value.primary.eligible == PooledEligible(s)
  {}

  predicate Balanced(p: Primary) { p.eligible + |p.exclusions| == p.observed }

  // ----- the decision ----------------------------------------------------

  /** At least as many Runtime failures, everywhere it counts. */
  predicate MoreFailures(o: Outcomes, o': Outcomes) {
    && o'.nativeFailures == o.nativeFailures && o.runtimeFailures <= o'.runtimeFailures
    && (o'.perStratumPass ==> o.perStratumPass)
  }

  lemma ChooseMonotone(g: Gates, o: Outcomes, o': Outcomes)
    requires MoreFailures(o, o')
    ensures Choose(g, o') == Better ==> Choose(g, o) == Better
    ensures Choose(g, o) == Worse ==> Choose(g, o') == Worse
  {}

  function Failed(p: Pair): (r: Pair) { p.(runtime := p.runtime.(outcome := Failure)) }

  /** A completed Runtime leg turned from success to failure. */
  function FailRuntime(pairs: seq<Pair>, i: nat): (r: seq<Pair>)
    requires i < |pairs|
  {
    pairs[i := Failed(pairs[i])]
  }

  predicate Flippable(p: Pair) { p.runtime.status == Completed && p.runtime.outcome == Success }

  /** A filter that gives the pair the same value with either outcome gives the stratum the same values. */
  lemma BlindFilter<T>(pairs: seq<Pair>, i: nat, s: Stratum, f: Pair -> Option<T>)
    requires i < |pairs| && f(Failed(pairs[i])) == f(pairs[i])
    ensures FilterMap(OfStratum(FailRuntime(pairs, i), s), f) == FilterMap(OfStratum(pairs, s), f)
    ensures FilterMap(FailRuntime(pairs, i), f) == FilterMap(pairs, f)
  {
    StratumFilter(pairs, s, f);
    StratumFilter(FailRuntime(pairs, i), s, f);
    FilterMapUpdate(pairs, Within(s, f), i, Failed(pairs[i]));
    FilterMapUpdate(pairs, f, i, Failed(pairs[i]));
  }

  lemma SameStratumSize(pairs: seq<Pair>, i: nat, s: Stratum)
    requires i < |pairs|
    ensures |OfStratum(FailRuntime(pairs, i), s)| == |OfStratum(pairs, s)|
  {
    LengthUpdate(pairs, InStratum(s), i, Failed(pairs[i]));
  }

  lemma PrimaryFrom(ps: seq<Pair>, qs: seq<Pair>)
    requires |ps| == |qs| && FilterMap(ps, Delta) == FilterMap(qs, Delta)
    requires FilterMap(ps, UsageMissing) == FilterMap(qs, UsageMissing)
    requires FilterMap(ps, WhyExcluded) == FilterMap(qs, WhyExcluded)
    requires FilterMap(ps, RealDelta) == FilterMap(qs, RealDelta)
    requires FilterMap(ps, Reduction) == FilterMap(qs, Reduction)
    ensures PrimaryOf(ps) == PrimaryOf(qs)
  {}

  lemma PrimaryBlind(p: Pair)
    ensures Delta(Failed(p)) == Delta(p) && UsageMissing(Failed(p)) == UsageMissing(p)
    ensures WhyExcluded(Failed(p)) == WhyExcluded(p) && RealDelta(Failed(p)) == RealDelta(p)
    ensures Reduction(Failed(p)) == Reduction(p)
  {}

  lemma FailPrimary(pairs: seq<Pair>, i: nat, s: Stratum)
    requires i < |pairs|
    ensures PrimaryOf(OfStratum(FailRuntime(pairs, i), s)) == PrimaryOf(OfStratum(pairs, s))
  {
    PrimaryBlind(pairs[i]);
    SameStratumSize(pairs, i, s);
    BlindFilter(pairs, i, s, Delta);
    BlindFilter(pairs, i, s, UsageMissing);
    BlindFilter(pairs, i, s, WhyExcluded);
    BlindFilter(pairs, i, s, RealDelta);
    BlindFilter(pairs, i, s, Reduction);
    PrimaryFrom(OfStratum(FailRuntime(pairs, i), s), OfStratum(pairs, s));
  }

  lemma SecondaryFrom(e: Endpoint, ps: seq<Pair>, qs: seq<Pair>)
    requires FilterMap(ps, NativeValue(e)) == FilterMap(qs, NativeValue(e))
    requires FilterMap(ps, RuntimeValue(e)) == FilterMap(qs, RuntimeValue(e))
    requires FilterMap(ps, Difference(e)) == FilterMap(qs, Difference(e))
    ensures SecondaryOf(e, ps) == SecondaryOf(e, qs)
  {}

  lemma SecondaryBlind(e: Endpoint, p: Pair)
    ensures NativeValue(e)(Failed(p)) == NativeValue(e)(p) && RuntimeValue(e)(Failed(p)) == RuntimeValue(e)(p)
    ensures Difference(e)(Failed(p)) == Difference(e)(p)
  {}

  lemma FailSecondary(e: Endpoint, pairs: seq<Pair>, i: nat, s: Stratum)
    requires i < |pairs|
    ensures SecondaryOf(e, OfStratum(FailRuntime(pairs, i), s)) == SecondaryOf(e, OfStratum(pairs, s))
    ensures SecondaryOf(e, FailRuntime(pairs, i)) == SecondaryOf(e, pairs)
  {
    SecondaryBlind(e, pairs[i]);
    BlindFilter(pairs, i, s, NativeValue(e));
    BlindFilter(pairs, i, s, RuntimeValue(e));
    BlindFilter(pairs, i, s, Difference(e));
    SecondaryFrom(e, OfStratum(FailRuntime(pairs, i), s), OfStratum(pairs, s));
    SecondaryFrom(e, FailRuntime(pairs, i), pairs);
  }

  lemma FailSecondaries(pairs: seq<Pair>, i: nat, s: Stratum)
    requires i < |pairs|
    ensures SecondariesOf(OfStratum(FailRuntime(pairs, i), s)) == SecondariesOf(OfStratum(pairs, s))
    ensures SecondariesOf(FailRuntime(pairs, i)) == SecondariesOf(pairs)
  {
    FailSecondary(TotalTokens, pairs, i, s);
    FailSecondary(ToolCalls, pairs, i, s);
    FailSecondary(WallClock, pairs, i, s);
  }

  lemma StratumCount<T>(pairs: seq<Pair>, i: nat, s: Stratum, f: Pair -> Option<T>)
    requires i < |pairs|
    requires f(pairs[i]).Some? ==> f(Failed(pairs[i])).Some?
    ensures |FilterMap(OfStratum(pairs, s), f)| <= |FilterMap(OfStratum(FailRuntime(pairs, i), s), f)|
  {
    StratumFilter(pairs, s, f);
    StratumFilter(FailRuntime(pairs, i), s, f);
    LengthUpdate(pairs, Within(s, f), i, Failed(pairs[i]));
  }

  /** All counts but the Runtime failures are the same, and those do not go down. */
  predicate CountsWorse(c: Counts, c': Counts) {
    && c'.nativeInvalid == c.nativeInvalid && c'.runtimeInvalid == c.runtimeInvalid
    && c'.nativeFailures == c.nativeFailures && c.runtimeFailures <= c'.runtimeFailures
  }

  lemma FailCounts(pairs: seq<Pair>, i: nat, s: Stratum)
    requires i < |pairs|
    ensures CountsWorse(CountsOf(OfStratum(pairs, s)), CountsOf(OfStratum(FailRuntime(pairs, i), s)))
  {
    BlindFilter(pairs, i, s, NativeInvalid);
    BlindFilter(pairs, i, s, RuntimeInvalid);
    BlindFilter(pairs, i, s, NativeFails);
    StratumCount(pairs, i, s, RuntimeFails);
  }

  /** The same stratum, with no fewer Runtime failures; the lifecycle endpoints are not compared. */
  ghost predicate StratumWorse(a: Option<StratumAnalysis>, b: Option<StratumAnalysis>) {
    && (a.Some? <==> b.Some?)
    && (a.Some? ==>
          b.value.primary == a.value.primary && b.value.secondary == a.value.secondary
          && CountsWorse(a.value.counts, b.value.counts))
  }

  lemma FailStratum(pairs: seq<Pair>, i: nat, s: Stratum)
    requires i < |pairs|
    ensures StratumWorse(StratumOf(OfStratum(pairs, s)), StratumOf(OfStratum(FailRuntime(pairs, i), s)))
  {
    FailPrimary(pairs, i, s);
    FailSecondaries(pairs, i, s);
    FailCounts(pairs, i, s);
  }

  ghost predicate SameButFailures(a: StratumAnalysis, b: StratumAnalysis) { StratumWorse(Some(a), Some(b)) }

  ghost predicate StrataWorse(s: Strata, s': Strata) {
    && SameButFailures(s.localized, s'.localized) && SameButFailures(s.multiFile, s'.multiFile)
    && SameButFailures(s.diagnosis, s'.diagnosis) && SameButFailures(s.delayed, s'.delayed)
  }

  lemma FailStrata(pairs: seq<Pair>, i: nat)
    requires i < |pairs|
    ensures StrataOf(FailRuntime(pairs, i)).Some? <==> StrataOf(pairs).Some?
    ensures StrataOf(pairs).Some? ==> StrataWorse(StrataOf(pairs).value, StrataOf(FailRuntime(pairs, i)).value)
  {
    FailStratum(pairs, i, Localized);
    FailStratum(pairs, i, MultiFile);
    FailStratum(pairs, i, Diagnosis);
    FailStratum(pairs, i, Delayed);
  }

  lemma WorseOutcomes(s: Strata, s': Strata)
    requires StrataWorse(s, s')
    ensures MoreFailures(OutcomesOf(s), OutcomesOf(s'))
  {}

  lemma WorsePrimary(fisher: Fisher, s: Strata, s': Strata, median: Option<real>)
    requires StrataWorse(s, s')
    ensures PoolPrimary(fisher, s', median) == PoolPrimary(fisher, s, median)
    ensures ReliabilityOf(s') == ReliabilityOf(s) && EightEach(s') == EightEach(s)
    ensures SecondaryCoverage(s') == SecondaryCoverage(s)
  {}

  lemma MembersAfter(pairs: seq<Pair>, i: nat)
    requires i < |pairs| && Flippable(pairs[i])
    ensures ValidPairs(FailRuntime(pairs, i)) <==> ValidPairs(pairs)
    ensures TreatmentActive(FailRuntime(pairs, i)) <==> TreatmentActive(pairs)
    ensures EvidenceIssue(FailRuntime(pairs, i)) <==> EvidenceIssue(pairs)
  {
    var others := FailRuntime(pairs, i);
    forall j | 0 <= j < |pairs|
      ensures others[j] in others && pairs[j] in pairs
      ensures others[j].pairId == pairs[j].pairId && ValidPair(others[j]) == ValidPair(pairs[j])
      ensures Idle(others[j]) == Idle(pairs[j]) && others[j].evidenceIssue == pairs[j].evidenceIssue
    {}
    assert Ids(others) == Ids(pairs) by {
      forall p | p in pairs ensures p.pairId in Ids(others) {
        var j :| 0 <= j < |pairs| && pairs[j] == p;
        assert others[j].pairId == p.pairId;
      }
      forall p | p in others ensures p.pairId in Ids(pairs) {
        var j :| 0 <= j < |pairs| && others[j] == p;
        assert pairs[j].pairId == p.pairId;
      }
    }
  }

  lemma FailGates(study: Study, i: nat, fisher: Fisher, s: Strata, s': Strata, median: Option<real>, x: Secondaries)
    requires i < |study.pairs| && Flippable(study.pairs[i]) && StrataWorse(s, s')
    ensures GatesOf(study.(pairs := FailRuntime(study.pairs, i)), s', PoolPrimary(fisher, s', median), x)
            == GatesOf(study, s, PoolPrimary(fisher, s, median), x)
  {
    MembersAfter(study.pairs, i);
    WorsePrimary(fisher, s, s', median);
  }

  lemma FailDecision(study: Study, i: nat, fisher: Fisher, s: Strata, s': Strata, median: Option<real>, x: Secondaries)
    requires i < |study.pairs| && Flippable(study.pairs[i]) && StrataWorse(s, s')
    ensures var d := DecisionOf(study, fisher, s, median, x);
            var d' := DecisionOf(study.(pairs := FailRuntime(study.pairs, i)), fisher, s', median, x);
            (d' == Better ==> d == Better) && (d == Worse ==> d' == Worse)
  {
    FailGates(study, i, fisher, s, s', median, x);
    MembersAfter(study.pairs, i);
    WorseOutcomes(s, s');
    ChooseMonotone(GatesOf(study, s, PoolPrimary(fisher, s, median), x), OutcomesOf(s), OutcomesOf(s'));
  }

  lemma DecisionIs(fisher: Fisher, study: Study, s: Strata, median: Option<real>, x: Secondaries)
    requires ValidPairs(study.pairs) && StrataOf(study.pairs) == Some(s)
    requires median == Median(FilterMap(study.pairs, Reduction)) && x == SecondariesOf(study.pairs)
    ensures Adjudicate(fisher, study).Some?
    ensures Adjudicate(fisher, study).value.decision == DecisionOf(study, fisher, s, median, x)
  {}

  /** Neither creates BETTER nor leaves WORSE. */
  predicate NoBetter(d: Decision, d': Decision) { (d' == Better ==> d == Better) && (d == Worse ==> d' == Worse) }

  /**
   Turning one completed Runtime leg from success to failure never creates BETTER
   and never leaves WORSE, and neither study throws unless the other does.
   */
  lemma RuntimeFailureNeverHelps(fisher: Fisher, study: Study, i: nat)
    requires i < |study.pairs| && Flippable(study.pairs[i])
    ensures var r := Adjudicate(fisher, study);
            var r' := Adjudicate(fisher, study.(pairs := FailRuntime(study.pairs, i)));
            (r'.Some? <==> r.Some?) && (r.Some? ==> NoBetter(r.value.decision, r'.value.decision))
  {
    var pairs := study.pairs;
    var others := FailRuntime(pairs, i);
    MembersAfter(pairs, i);
    FailStrata(pairs, i);
    if ValidPairs(pairs) && StrataOf(pairs).Some? {
      var s, s' := StrataOf(pairs).value, StrataOf(others).value;
      var median, x := Median(FilterMap(pairs, Reduction)), SecondariesOf(pairs);
      PrimaryBlind(pairs[i]);
      BlindFilter(pairs, i, Localized, Reduction);
      FailSecondaries(pairs, i, Localized);
      DecisionIs(fisher, study, s, median, x);
      DecisionIs(fisher, study.(pairs := others), s', median, x);
      FailDecision(study, i, fisher, s, s', median, x);
    }
  }

  lemma TradeOffGates(g: Gates, o: Outcomes)
    requires Choose(g, o) == TradeOff
    ensures g.qualifies && (g.regression || Additional(o) > 0) && NonInferior(o) && g.runtimeInvalid <= 1
  {}

  /** A trade-off needs a qualifying primary gain and a price paid for it. */
  lemma TradeOffHasBothSides(fisher: Fisher, study: Study)
    requires Adjudicate(fisher, study).Some? && Adjudicate(fisher, study).value.decision == TradeOff
    ensures var r := Adjudicate(fisher, study).value;
            && r.primary.qualifies
            && (ProtectedRegression(r.secondary) || Additional(r.outcomes) > 0)
            && NonInferior(r.outcomes) && r.reliability.runtimeInvalid <= 1
  {
    var s, x := StrataOf(study.pairs).value, SecondariesOf(study.pairs);
    var median := Median(FilterMap(study.pairs, Reduction));
    DecisionIs(fisher, study, s, median, x);
    TradeOffGates(GatesOf(study, s, PoolPrimary(fisher, s, median), x), OutcomesOf(s));
  }
}
