/**
 The exact one-sided sign-flip test: of all 2^n ways to sign the magnitudes, how
 many give a sum at least as large as the observed one. The source enumerates bit
 patterns; the reference here counts sign vectors recursively.
 */
module SignFlip {
  import opened Sequences

  function Pow2(n: nat): (r: nat)
    ensures r >= 1
  {
    if n == 0 then 1 else 2 * Pow2(n - 1)
  }

  function Abs(d: int): (r: nat) { if d < 0 then -d else d }

  function Magnitudes(ds: seq<int>): (r: seq<nat>)
    ensures |r| == |ds| && forall i | 0 <= i < |ds| :: r[i] == Abs(ds[i])
  {
    seq(|ds|, i requires 0 <= i < |ds| => Abs(ds[i]))
  }

  function Total(ds: seq<int>): (r: int) {
    if ds == [] then 0 else Total(ds[..|ds| - 1]) + ds[|ds| - 1]
  }

  // ----- the reference count ---------------------------------------------

  /** Sign vectors whose signed sum is at least `t`. */
  function AtLeast(ms: seq<nat>, t: int): (r: nat) {
    if ms == [] then if 0 >= t then 1 else 0
    else
      var n := |ms| - 1;
      AtLeast(ms[..n], t + ms[n]) + AtLeast(ms[..n], t - ms[n])
  }

  function AtMost(ms: seq<nat>, t: int): (r: nat) {
    if ms == [] then if 0 <= t then 1 else 0
    else
      var n := |ms| - 1;
      AtMost(ms[..n], t + ms[n]) + AtMost(ms[..n], t - ms[n])
  }

  function Exactly(ms: seq<nat>, t: int): (r: nat) {
    if ms == [] then if t == 0 then 1 else 0
    else
      var n := |ms| - 1;
      Exactly(ms[..n], t + ms[n]) + Exactly(ms[..n], t - ms[n])
  }

  // ----- the bit enumeration ---------------------------------------------

  /** `(a & (1 << i)) !== 0` for a non-negative `a`. */
  predicate Bit(a: nat, i: nat) { if i == 0 then a % 2 == 1 else Bit(a / 2, i - 1) }

  /** The statistic of one assignment. */
  function Statistic(ms: seq<nat>, a: nat): (r: int) {
    if ms == [] then 0
    else
      var n := |ms| - 1;
      if Bit(a, n) then Statistic(ms[..n], a) + ms[n] else Statistic(ms[..n], a) - ms[n]
  }

  /** Assignments below `k` whose statistic is at least `t`. */
  function Extremes(ms: seq<nat>, t: int, k: nat): (r: nat) {
    if k == 0 then 0 else Extremes(ms, t, k - 1) + (if Statistic(ms, k - 1) >= t then 1 else 0)
  }

  /** The top bit of `2^n + a` is set and the lower bits are those of `a`. */
  lemma {:induction false} BitsOfHigh(a: nat, n: nat, i: nat)
    requires a < Pow2(n) && i <= n
    ensures Bit(Pow2(n) + a, i) <==> (if i == n then true else Bit(a, i))
  {
    if n > 0 {
      assert (2 * Pow2(n - 1) + a) / 2 == Pow2(n - 1) + a / 2 && (2 * Pow2(n - 1) + a) % 2 == a % 2;
      if i > 0 { BitsOfHigh(a / 2, n - 1, i - 1); }
    }
  }

  lemma {:induction false} TopBitClear(a: nat, n: nat)
    requires a < Pow2(n)
    ensures !Bit(a, n)
  {
    if n > 0 { TopBitClear(a / 2, n - 1); }
  }

  lemma {:induction false} StatisticOfHigh(ms: seq<nat>, a: nat, n: nat)
    requires |ms| <= n && a < Pow2(n)
    ensures Statistic(ms, Pow2(n) + a) == Statistic(ms, a)
  {
    if ms != [] {
      StatisticOfHigh(ms[..|ms| - 1], a, n);
      BitsOfHigh(a, n, |ms| - 1);
    }
  }

  /** The lower half of the assignments has the last sign negative. */
  lemma {:induction false} LowerHalf(ms: seq<nat>, t: int, k: nat)
    requires ms != [] && k <= Pow2(|ms| - 1)
    ensures Extremes(ms, t, k) == Extremes(ms[..|ms| - 1], t + ms[|ms| - 1], k)
  {
    if k > 0 {
      LowerHalf(ms, t, k - 1);
      TopBitClear(k - 1, |ms| - 1);
    }
  }

  /** The upper half has it positive. */
  lemma {:induction false} UpperHalf(ms: seq<nat>, t: int, k: nat)
    requires ms != [] && k <= Pow2(|ms| - 1)
    ensures Extremes(ms, t, Pow2(|ms| - 1) + k) ==
            Extremes(ms, t, Pow2(|ms| - 1)) + Extremes(ms[..|ms| - 1], t - ms[|ms| - 1], k)
  {
    if k > 0 {
      var n := |ms| - 1;
      UpperHalf(ms, t, k - 1);
      StatisticOfHigh(ms[..n], k - 1, n);
      BitsOfHigh(k - 1, n, n);
      assert Pow2(n) + k - 1 == Pow2(n) + (k - 1);
    }
  }

  /** Enumerating bit patterns counts sign vectors. */
  lemma {:induction false} EnumerationCounts(ms: seq<nat>, t: int)
    ensures Extremes(ms, t, Pow2(|ms|)) == AtLeast(ms, t)
  {
    if ms == [] {
      assert Extremes(ms, t, 1) == Extremes(ms, t, 0) + (if 0 >= t then 1 else 0);
    } else {
      var n := |ms| - 1;
      LowerHalf(ms, t, Pow2(n));
      UpperHalf(ms, t, Pow2(n));
      EnumerationCounts(ms[..n], t + ms[n]);
      EnumerationCounts(ms[..n], t - ms[n]);
    }
  }

  /** The inner loop. */
  method StatisticOf(ms: seq<nat>, assignment: nat) returns (statistic: int)
    ensures statistic == Statistic(ms, assignment)
  {
    statistic := 0;
    for index := 0 to |ms|
      invariant statistic == Statistic(ms[..index], assignment)
    {
      assert ms[..index + 1][..index] == ms[..index];
      statistic := if Bit(assignment, index) then statistic + ms[index] else statistic - ms[index];
    }
    assert ms[..|ms|] == ms;
  }

  datatype PValue = Empty | TooMany | Value(count: nat, assignments: nat)

  /** What `signFlipPValue` should return: the count and the number of assignments. */
  function FlipTest(ds: seq<int>): (r: PValue) {
    if ds == [] then Empty
    else if |ds| > 8 then TooMany
    else Value(AtLeast(Magnitudes(ds), Total(ds)), Pow2(|ds|))
  }

  /** `signFlipPValue`; `TooMany` is its error. */
  method SignFlipPValue(ds: seq<int>) returns (r: PValue)
    ensures r == FlipTest(ds)
  {
    if ds == [] { return Empty; }
    if |ds| > 8 { return TooMany; }
    var ms := Magnitudes(ds);
    var observed := 0;
    for i := 0 to |ds|
      invariant observed == Total(ds[..i])
    {
      assert ds[..i + 1][..i] == ds[..i];
      observed := observed + ds[i];
    }
    assert ds[..|ds|] == ds;
    var assignments := Pow2(|ms|);
    var count := 0;
    for assignment := 0 to assignments
      invariant count == Extremes(ms, observed, assignment)
    {
      var statistic := StatisticOf(ms, assignment);
      if statistic >= observed { count := count + 1; }
    }
    EnumerationCounts(ms, observed);
    return Value(count, assignments);
  }

  // ----- bounds ----------------------------------------------------------

  lemma {:induction false} AtMostAll(ms: seq<nat>, t: int)
    ensures AtLeast(ms, t) <= Pow2(|ms|)
  {
    if ms != [] {
      var n := |ms| - 1;
      AtMostAll(ms[..n], t + ms[n]);
      AtMostAll(ms[..n], t - ms[n]);
    }
  }

  /** The observed signs themselves are one of the vectors. */
  lemma {:induction false} ObservedCounted(ds: seq<int>, t: int)
    requires t <= Total(ds)
    ensures AtLeast(Magnitudes(ds), t) >= 1
  {
    if ds != [] {
      var n := |ds| - 1;
      assert Magnitudes(ds)[..n] == Magnitudes(ds[..n]);
      ObservedCounted(ds[..n], t - ds[n]);
    }
  }

  /** The p-value lies in [1/2^n, 1]. */
  lemma PValueRange(ds: seq<int>)
    requires FlipTest(ds).Value?
    ensures 1 <= FlipTest(ds).count <= FlipTest(ds).assignments == Pow2(|ds|)
  {
    ObservedCounted(ds, Total(ds));
    AtMostAll(Magnitudes(ds), Total(ds));
  }

  // ----- negated deltas --------------------------------------------------

  lemma {:induction false} Trichotomy(ms: seq<nat>, t: int)
    ensures AtLeast(ms, t) + AtMost(ms, t) == Pow2(|ms|) + Exactly(ms, t)
  {
    if ms != [] {
      var n := |ms| - 1;
      Trichotomy(ms[..n], t + ms[n]);
      Trichotomy(ms[..n], t - ms[n]);
    }
  }

  lemma {:induction false} Mirror(ms: seq<nat>, t: int)
    ensures AtMost(ms, t) == AtLeast(ms, -t)
  {
    if ms != [] {
      var n := |ms| - 1;
      Mirror(ms[..n], t + ms[n]);
      Mirror(ms[..n], t - ms[n]);
      assert -(t + ms[n]) == -t - ms[n] && -(t - ms[n]) == -t + ms[n];
    }
  }

  function Negated(ds: seq<int>): (r: seq<int>)
    ensures |r| == |ds| && forall i | 0 <= i < |ds| :: r[i] == -ds[i]
  {
    seq(|ds|, i requires 0 <= i < |ds| => -ds[i])
  }

  lemma {:induction false} NegatedTotal(ds: seq<int>)
    ensures Total(Negated(ds)) == -Total(ds)
  {
    if ds != [] {
      var n := |ds| - 1;
      NegatedTotal(ds[..n]);
      assert Negated(ds)[..n] == Negated(ds[..n]);
    }
  }

  lemma NegatedMagnitudes(ds: seq<int>)
    ensures Magnitudes(Negated(ds)) == Magnitudes(ds)
  {}

  lemma CountLaw(ms: seq<nat>, t: int, u: int)
    requires u == -t
    ensures AtLeast(ms, t) + AtLeast(ms, u) == Pow2(|ms|) + Exactly(ms, t)
  {
    Trichotomy(ms, t);
    Mirror(ms, t);
  }

  lemma SignFlipIs(ds: seq<int>, ms: seq<nat>, t: int, p: PValue)
    requires 1 <= |ds| <= 8 && ms == Magnitudes(ds) && t == Total(ds) && p == FlipTest(ds)
    ensures p.Value? && p.count == AtLeast(ms, t) && p.assignments == Pow2(|ms|)
  {}

  /** p(d) + p(-d) = 1 + ties / 2^n, over the common denominator. */
  lemma NegationLaw(ds: seq<int>, p: PValue, q: PValue)
    requires 1 <= |ds| <= 8 && p == FlipTest(ds) && q == FlipTest(Negated(ds))
    ensures p.Value? && q.Value? && p.assignments == q.assignments == Pow2(|ds|)
    ensures p.count + q.count == p.assignments + Exactly(Magnitudes(ds), Total(ds))
  {
    var ms, t, u := Magnitudes(ds), Total(ds), Total(Negated(ds));
    NegatedMagnitudes(ds);
    NegatedTotal(ds);
    SignFlipIs(ds, ms, t, p);
    SignFlipIs(Negated(ds), ms, u, q);
    CountLaw(ms, t, u);
  }

  // ----- permutations ----------------------------------------------------

  /** Any magnitude may be signed last. */
  lemma {:induction false} AtLeastOmit(ms: seq<nat>, t: int, i: nat)
    requires i < |ms|
    ensures AtLeast(ms, t) == AtLeast(Omit(ms, i), t + ms[i]) + AtLeast(Omit(ms, i), t - ms[i])
  {
    var n := |ms| - 1;
    if i == n {
      assert Omit(ms, i) == ms[..n];
    } else {
      AtLeastOmit(ms[..n], t + ms[n], i);
      AtLeastOmit(ms[..n], t - ms[n], i);
      OmitFront(ms, i);
      OmitSigned(ms, t + ms[i], i);
      OmitSigned(ms, t - ms[i], i);
      assert t + ms[n] + ms[i] == t + ms[i] + ms[n] && t - ms[n] + ms[i] == t + ms[i] - ms[n];
      assert t + ms[n] - ms[i] == t - ms[i] + ms[n] && t - ms[n] - ms[i] == t - ms[i] - ms[n];
    }
  }

  lemma OmitSigned(ms: seq<nat>, t: int, i: nat)
    requires i < |ms| - 1
    ensures AtLeast(Omit(ms, i), t) ==
            AtLeast(Omit(ms[..|ms| - 1], i), t + ms[|ms| - 1]) + AtLeast(Omit(ms[..|ms| - 1], i), t - ms[|ms| - 1])
  {
    OmitFront(ms, i);
  }

  lemma {:induction false} AtLeastPermutes(ms: seq<nat>, ns: seq<nat>, t: int)
    requires multiset(ms) == multiset(ns)
    ensures AtLeast(ms, t) == AtLeast(ns, t)
  {
    if ms == [] {
      assert |multiset(ns)| == 0;
    } else {
      var n := |ms| - 1;
      var i := FindIn(ms, ns);
      AtLeastPermutes(ms[..n], Omit(ns, i), t + ms[n]);
      AtLeastPermutes(ms[..n], Omit(ns, i), t - ms[n]);
      AtLeastOmit(ns, t, i);
    }
  }

  lemma {:induction false} TotalOmit(ds: seq<int>, i: nat)
    requires i < |ds|
    ensures Total(ds) == Total(Omit(ds, i)) + ds[i]
  {
    var n := |ds| - 1;
    if i == n {
      assert Omit(ds, i) == ds[..n];
    } else {
      TotalOmit(ds[..n], i);
      OmitFront(ds, i);
    }
  }

  lemma {:induction false} DeltasPermute(ds: seq<int>, es: seq<int>)
    requires multiset(ds) == multiset(es)
    ensures Total(ds) == Total(es) && multiset(Magnitudes(ds)) == multiset(Magnitudes(es)) && |ds| == |es|
  {
    if ds == [] {
      assert |multiset(es)| == 0;
    } else {
      var n := |ds| - 1;
      var i := FindIn(ds, es);
      DeltasPermute(ds[..n], Omit(es, i));
      TotalOmit(es, i);
      OmitMultiset(Magnitudes(es), i);
      OmitMultiset(Magnitudes(ds), n);
      assert Omit(Magnitudes(es), i) == Magnitudes(Omit(es, i));
      assert Omit(Magnitudes(ds), n) == Magnitudes(ds[..n]);
    }
  }

  /** The p-value does not depend on the order of the deltas. */
  lemma SignFlipPermutes(ds: seq<int>, es: seq<int>)
    requires multiset(ds) == multiset(es)
    ensures FlipTest(ds) == FlipTest(es)
  {
    DeltasPermute(ds, es);
    AtLeastPermutes(Magnitudes(ds), Magnitudes(es), Total(ds));
  }
}
