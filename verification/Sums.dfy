/** Sums of weights over sequences: the `reduce` of the counters. */
module Sums {
  import Sorting

  function Sum<T>(s: seq<T>, w: T -> nat): (r: nat) {
    if s == [] then 0 else w(s[0]) + Sum(s[1..], w)
  }

  lemma {:induction false} SumConcat<T>(s: seq<T>, t: seq<T>, w: T -> nat)
    ensures Sum(s + t, w) == Sum(s, w) + Sum(t, w)
  {
    if s == [] {
      assert s + t == t;
    } else {
      assert (s + t)[1..] == s[1..] + t;
      SumConcat(s[1..], t, w);
    }
  }

  lemma SumAppend<T>(s: seq<T>, x: T, w: T -> nat)
    ensures Sum(s + [x], w) == Sum(s, w) + w(x)
  {
    SumConcat(s, [x], w);
    assert [x][1..] == [];
  }

  lemma {:induction false} SumUpdate<T>(s: seq<T>, i: nat, x: T, w: T -> nat)
    requires i < |s|
    ensures Sum(s[i := x], w) + w(s[i]) == Sum(s, w) + w(x)
  {
    if i == 0 {
      assert s[i := x][1..] == s[1..];
    } else {
      assert s[i := x][1..] == s[1..][i - 1 := x];
      SumUpdate(s[1..], i - 1, x, w);
    }
  }

  lemma {:induction false} SumInsert<T>(x: T, s: seq<T>, le: (T, T) -> bool, w: T -> nat)
    ensures Sum(Sorting.Insert(x, s, le), w) == w(x) + Sum(s, w)
  {
    if s == [] || le(x, s[0]) {
      assert ([x] + s)[1..] == s;
    } else {
      SumInsert(x, s[1..], le, w);
      var rest := Sorting.Insert(x, s[1..], le);
      assert ([s[0]] + rest)[1..] == rest;
    }
  }

  /** Sorting keeps every sum. */
  lemma {:induction false} SumSort<T>(s: seq<T>, le: (T, T) -> bool, w: T -> nat)
    ensures Sum(Sorting.Sort(s, le), w) == Sum(s, w)
  {
    if s != [] {
      SumSort(s[1..], le, w);
      SumInsert(s[0], Sorting.Sort(s[1..], le), le, w);
    }
  }
}
