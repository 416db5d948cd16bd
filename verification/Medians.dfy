/**
 What a median is, by counting: the value in the middle, or the mean of the two
 values in the middle. The median that the analysis computes by sorting is that one.
 */
module Medians {
  import opened Wrappers
  import opened Filters
  import opened Analysis
  import Sorting

  /** How many elements satisfy `f`. */
  function Tally<T>(s: seq<T>, f: T -> bool): (n: nat)
    ensures n <= |s|
  {
    if s == [] then 0 else Tally(s[..|s| - 1], f) + (if f(s[|s| - 1]) then 1 else 0)
  }

  function Below(v: real): real -> bool { (x: real) => x < v }

  function UpTo(v: real): real -> bool { (x: real) => x <= v }

  function From(v: real): real -> bool { (x: real) => x >= v }

  /** The value with `k` values before it in order: fewer than `k + 1` are smaller, more than `k` are not larger. */
  predicate IsOrder(values: seq<real>, k: int, v: real) {
    v in values && Tally(values, Below(v)) <= k < Tally(values, UpTo(v))
  }

  /** The middle value, or the mean of the two middle values. */
  ghost predicate IsMedian(values: seq<real>, m: real) {
    var n := |values|;
    if n % 2 == 1 then IsOrder(values, n / 2, m)
    else exists lo, hi :: InMiddle(values, lo, hi) && m == (lo + hi) / 2.0
  }

  predicate InMiddle(values: seq<real>, lo: real, hi: real) {
    IsOrder(values, |values| / 2 - 1, lo) && IsOrder(values, |values| / 2, hi)
  }

  // ----- counting --------------------------------------------------------

  lemma {:induction false} TallyConcat<T>(s: seq<T>, t: seq<T>, f: T -> bool)
    ensures Tally(s + t, f) == Tally(s, f) + Tally(t, f)
  {
    if t == [] {
      assert s + t == s;
    } else {
      assert (s + t)[..|s + t| - 1] == s + t[..|t| - 1];
      TallyConcat(s, t[..|t| - 1], f);
    }
  }

  lemma {:induction false} TallyAll<T>(s: seq<T>, f: T -> bool)
    requires forall x | x in s :: f(x)
    ensures Tally(s, f) == |s|
  {
    if s != [] { TallyAll(s[..|s| - 1], f); }
  }

  lemma {:induction false} TallyNone<T>(s: seq<T>, f: T -> bool)
    requires forall x | x in s :: !f(x)
    ensures Tally(s, f) == 0
  {
    if s != [] { TallyNone(s[..|s| - 1], f); }
  }

  function Keep<T>(f: T -> bool): T -> Option<T> { (x: T) => if f(x) then Some(x) else None }

  lemma {:induction false} TallyFilter<T>(s: seq<T>, f: T -> bool)
    ensures Tally(s, f) == |FilterMap(s, Keep(f))|
  {
    if s != [] { TallyFilter(s[..|s| - 1], f); }
  }

  lemma TallyPermutes<T>(s: seq<T>, t: seq<T>, f: T -> bool)
    requires multiset(s) == multiset(t)
    ensures Tally(s, f) == Tally(t, f)
  {
    TallyFilter(s, f);
    TallyFilter(t, f);
    FilterMapPermutes(s, t, Keep(f));
    assert |multiset(FilterMap(s, Keep(f)))| == |multiset(FilterMap(t, Keep(f)))|;
  }

  // ----- sorted values ---------------------------------------------------

  /** If all from `k` on fail the test, at most `k` pass it. */
  lemma TallyAtMost(s: seq<real>, k: nat, f: real -> bool)
    requires k <= |s| && forall i | k <= i < |s| :: !f(s[i])
    ensures Tally(s, f) <= k
  {
    assert s == s[..k] + s[k..];
    TallyConcat(s[..k], s[k..], f);
    TallyNone(s[k..], f);
  }

  /** If all up to `k` pass the test, more than `k` pass it. */
  lemma TallyMore(s: seq<real>, k: nat, f: real -> bool)
    requires k < |s| && forall i | 0 <= i <= k :: f(s[i])
    ensures k < Tally(s, f)
  {
    assert s == s[..k + 1] + s[k + 1..];
    TallyConcat(s[..k + 1], s[k + 1..], f);
    TallyAll(s[..k + 1], f);
  }

  lemma SortedOrder(s: seq<real>, k: nat, v: real)
    requires Sorting.Sorted(s, RealLe) && k < |s|
    ensures IsOrder(s, k, v) <==> s[k] == v
  {
    assert forall i | 0 <= i < k :: RealLe(s[i], s[k]);
    assert forall i | k < i < |s| :: RealLe(s[k], s[i]);
    if s[k] == v {
      TallyAtMost(s, k, Below(v));
      TallyMore(s, k, UpTo(v));
    } else if s[k] < v {
      TallyMore(s, k, Below(v));
    } else {
      TallyAtMost(s, k, UpTo(v));
    }
  }

  lemma OrderOfSorted(values: seq<real>, k: nat, v: real)
    requires k < |values|
    ensures |Sorting.Sort(values, RealLe)| == |values|
    ensures IsOrder(values, k, v) <==> Sorting.Sort(values, RealLe)[k] == v
  {
    var s := Sorting.Sort(values, RealLe);
    RealOrder();
    Sorting.SortSorts(values, RealLe);
    TallyPermutes(values, s, Below(v));
    TallyPermutes(values, s, UpTo(v));
    assert v in values <==> v in multiset(values);
    assert v in s <==> v in multiset(s);
    SortedOrder(s, k, v);
  }

  /** The computed median is the median, and there is one exactly when there are values. */
  lemma MedianExact(values: seq<real>, m: real)
    ensures Median(values) == Some(m) <==> values != [] && IsMedian(values, m)
  {
    if values != [] {
      var s, n := Sorting.Sort(values, RealLe), |values|;
      if n % 2 == 1 {
        OrderOfSorted(values, n / 2, m);
      } else {
        SortLength(values);
        OrderOfSorted(values, n / 2 - 1, s[n / 2 - 1]);
        OrderOfSorted(values, n / 2, s[n / 2]);
        assert InMiddle(values, s[n / 2 - 1], s[n / 2]);
        if IsMedian(values, m) {
          var lo, hi :| InMiddle(values, lo, hi) && m == (lo + hi) / 2.0;
          OrderOfSorted(values, n / 2 - 1, lo);
          OrderOfSorted(values, n / 2, hi);
        }
      }
    }
  }

  /** At least half of the values are at most the median, and at least half are at least it. */
  lemma MedianHalves(values: seq<real>)
    requires values != []
    ensures Median(values).Some?
    ensures 2 * Tally(values, UpTo(Median(values).value)) >= |values|
    ensures 2 * Tally(values, From(Median(values).value)) >= |values|
  {
    var s, n, m := Sorting.Sort(values, RealLe), |values|, Median(values).value;
    RealOrder();
    Sorting.SortSorts(values, RealLe);
    TallyPermutes(values, s, UpTo(m));
    TallyPermutes(values, s, From(m));
    var lo, hi := if n % 2 == 0 then n / 2 - 1 else n / 2, n / 2;
    assert lo == hi || RealLe(s[lo], s[hi]);
    SortedHalves(s, lo, hi, m);
  }

  lemma SortedHalves(s: seq<real>, lo: nat, hi: nat, m: real)
    requires Sorting.Sorted(s, RealLe) && lo < |s| && hi < |s| && s[lo] <= m <= s[hi]
    ensures Tally(s, UpTo(m)) >= lo + 1 && Tally(s, From(m)) >= |s| - hi
  {
    forall i | 0 <= i <= lo ensures UpTo(m)(s[i]) { assert i == lo || RealLe(s[i], s[lo]); }
    TallyMore(s, lo, UpTo(m));
    forall i | hi <= i < |s| ensures From(m)(s[i]) { assert i == hi || RealLe(s[hi], s[i]); }
    assert s == s[..hi] + s[hi..];
    TallyConcat(s[..hi], s[hi..], From(m));
    TallyAll(s[hi..], From(m));
  }
}
