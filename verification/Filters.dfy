/** Loops that keep some elements of a list, as one function with its laws. */
module Filters {
  import opened Wrappers
  import opened Sequences

  /** The values that `f` keeps, in order. */
  function FilterMap<S, T>(s: seq<S>, f: S -> Option<T>): (r: seq<T>)
    ensures |r| <= |s|
  {
    if s == [] then []
    else FilterMap(s[..|s| - 1], f) + (if f(s[|s| - 1]).Some? then [f(s[|s| - 1]).value] else [])
  }

  lemma FilterMapStep<S, T>(s: seq<S>, f: S -> Option<T>, i: nat)
    requires i < |s|
    ensures FilterMap(s[..i + 1], f) == FilterMap(s[..i], f) + (if f(s[i]).Some? then [f(s[i]).value] else [])
  {
    assert s[..i + 1][..i] == s[..i];
  }

  lemma {:induction false} FilterMapConcat<S, T>(s: seq<S>, t: seq<S>, f: S -> Option<T>)
    ensures FilterMap(s + t, f) == FilterMap(s, f) + FilterMap(t, f)
  {
    if t == [] {
      assert s + t == s;
    } else {
      var n := |t| - 1;
      assert (s + t)[..|s + t| - 1] == s + t[..n];
      FilterMapConcat(s, t[..n], f);
    }
  }

  lemma One<S, T>(x: S, f: S -> Option<T>)
    ensures FilterMap([x], f) == if f(x).Some? then [f(x).value] else []
  {
    assert [x][..0] == [];
  }

  /** An element replaced by one that `f` treats alike changes nothing. */
  lemma FilterMapUpdate<S, T>(s: seq<S>, f: S -> Option<T>, i: nat, x: S)
    requires i < |s| && f(x) == f(s[i])
    ensures FilterMap(s[i := x], f) == FilterMap(s, f)
  {
    assert s == s[..i] + [s[i]] + s[i + 1..];
    assert s[i := x] == s[..i] + [x] + s[i + 1..];
    FilterMapConcat(s[..i] + [s[i]], s[i + 1..], f);
    FilterMapConcat(s[..i] + [x], s[i + 1..], f);
    FilterMapConcat(s[..i], [s[i]], f);
    FilterMapConcat(s[..i], [x], f);
    One(s[i], f);
    One(x, f);
  }

  /** How the number of kept elements changes with one element. */
  lemma LengthUpdate<S, T>(s: seq<S>, f: S -> Option<T>, i: nat, x: S)
    requires i < |s|
    ensures |FilterMap(s[i := x], f)| + (if f(s[i]).Some? then 1 else 0) ==
            |FilterMap(s, f)| + (if f(x).Some? then 1 else 0)
  {
    assert s == s[..i] + [s[i]] + s[i + 1..];
    assert s[i := x] == s[..i] + [x] + s[i + 1..];
    FilterMapConcat(s[..i] + [s[i]], s[i + 1..], f);
    FilterMapConcat(s[..i] + [x], s[i + 1..], f);
    FilterMapConcat(s[..i], [s[i]], f);
    FilterMapConcat(s[..i], [x], f);
    One(s[i], f);
    One(x, f);
  }

  lemma FilterMapOmit<S, T>(s: seq<S>, f: S -> Option<T>, i: nat)
    requires i < |s|
    ensures multiset(FilterMap(s, f)) ==
            multiset(FilterMap(Omit(s, i), f)) + multiset(if f(s[i]).Some? then [f(s[i]).value] else [])
  {
    CutAt(s, i);
    FilterMapCut(s[..i], s[i], s[i + 1..], f);
    FilterMapConcat(s[..i], s[i + 1..], f);
  }

  lemma FilterMapCut<S, T>(a: seq<S>, x: S, b: seq<S>, f: S -> Option<T>)
    ensures FilterMap(a + [x] + b, f) ==
            FilterMap(a, f) + (if f(x).Some? then [f(x).value] else []) + FilterMap(b, f)
  {
    FilterMapConcat(a + [x], b, f);
    FilterMapConcat(a, [x], f);
    One(x, f);
  }

  /** Permuting the input permutes the output. */
  lemma {:induction false} FilterMapPermutes<S, T>(s: seq<S>, t: seq<S>, f: S -> Option<T>)
    requires multiset(s) == multiset(t)
    ensures multiset(FilterMap(s, f)) == multiset(FilterMap(t, f))
  {
    if s == [] {
      assert |multiset(t)| == 0;
    } else {
      var i := FindIn(s, t);
      FilterMapPermutes(s[..|s| - 1], Omit(t, i), f);
      FilterMapOmit(t, f, i);
    }
  }

  /** Filters that keep the same elements keep equally many. */
  lemma {:induction false} SameLength<S, T, U>(s: seq<S>, f: S -> Option<T>, g: S -> Option<U>)
    requires forall x | x in s :: f(x).Some? <==> g(x).Some?
    ensures |FilterMap(s, f)| == |FilterMap(s, g)|
  {
    if s != [] { SameLength(s[..|s| - 1], f, g); }
  }

  /** Filters that keep complementary elements keep all of them between them. */
  lemma {:induction false} Complementary<S, T, U>(s: seq<S>, f: S -> Option<T>, g: S -> Option<U>)
    requires forall x | x in s :: f(x).Some? <==> g(x).None?
    ensures |FilterMap(s, f)| + |FilterMap(s, g)| == |s|
  {
    if s != [] { Complementary(s[..|s| - 1], f, g); }
  }

  /** One filter after another. */
  lemma {:induction false} Fuse<S, T, U>(s: seq<S>, f: S -> Option<T>, g: T -> Option<U>, h: S -> Option<U>)
    requires forall x | x in s :: h(x) == if f(x).Some? then g(f(x).value) else None
    ensures FilterMap(FilterMap(s, f), g) == FilterMap(s, h)
  {
    if s != [] {
      var n := |s| - 1;
      Fuse(s[..n], f, g, h);
      if f(s[n]).Some? {
        FilterMapConcat(FilterMap(s[..n], f), [f(s[n]).value], g);
        One(f(s[n]).value, g);
      } else {
        assert FilterMap(s, f) == FilterMap(s[..n], f);
      }
    }
  }
}
