/**
 A stable sort, standing for `Array.prototype.sort` with a comparator, and the
 three facts about it that the rest of the project needs: it orders, it
 permutes, and an order that separates the elements leaves only one result.
 */
module Sorting {

  ghost predicate TotalPreorder<T(!new)>(le: (T, T) -> bool) {
    && (forall a, b :: le(a, b) || le(b, a))
    && (forall a, b, c :: le(a, b) && le(b, c) ==> le(a, c))
  }

  ghost predicate Sorted<T>(s: seq<T>, le: (T, T) -> bool) {
    forall i, j | 0 <= i < j < |s| :: le(s[i], s[j])
  }

  /** `le` tells the elements of `s` apart. */
  ghost predicate Separates<T>(s: seq<T>, le: (T, T) -> bool) {
    forall a, b | a in s && b in s && le(a, b) && le(b, a) :: a == b
  }

  function Insert<T>(x: T, s: seq<T>, le: (T, T) -> bool): (r: seq<T>) {
    if s == [] || le(x, s[0]) then [x] + s else [s[0]] + Insert(x, s[1..], le)
  }

  function Sort<T>(s: seq<T>, le: (T, T) -> bool): (r: seq<T>) {
    if s == [] then [] else Insert(s[0], Sort(s[1..], le), le)
  }

  lemma {:induction false} InsertSorts<T(!new)>(x: T, s: seq<T>, le: (T, T) -> bool)
    requires TotalPreorder(le) && Sorted(s, le)
    ensures Sorted(Insert(x, s, le), le)
    ensures multiset(Insert(x, s, le)) == multiset(s) + multiset{x}
  {
    if s == [] {
    } else if le(x, s[0]) {
      assert forall j | 0 <= j < |s| :: le(x, s[j]);
    } else {
      var t := Insert(x, s[1..], le);
      InsertSorts(x, s[1..], le);
      assert s == [s[0]] + s[1..];
      forall j | 0 <= j < |t| ensures le(s[0], t[j]) {
        assert t[j] in multiset(t);
        assert t[j] == x || t[j] in s[1..];
      }
    }
  }

  lemma {:induction false} SortSorts<T(!new)>(s: seq<T>, le: (T, T) -> bool)
    requires TotalPreorder(le)
    ensures Sorted(Sort(s, le), le)
    ensures multiset(Sort(s, le)) == multiset(s)
    ensures |Sort(s, le)| == |s|
  {
    if s != [] {
      SortSorts(s[1..], le);
      InsertSorts(s[0], Sort(s[1..], le), le);
      assert s == [s[0]] + s[1..];
      assert |multiset(Sort(s, le))| == |multiset(s)|;
    }
  }

  /** Sorting is the identity on an ordered sequence. */
  lemma {:induction false} SortFixes<T(!new)>(s: seq<T>, le: (T, T) -> bool)
    requires Sorted(s, le)
    ensures Sort(s, le) == s
  {
    if s != [] {
      SortFixes(s[1..], le);
      assert s == [s[0]] + s[1..];
      assert |s| > 1 ==> le(s[0], s[1]);
    }
  }

  lemma SortedHead<T(!new)>(s: seq<T>, t: seq<T>, le: (T, T) -> bool)
    requires Sorted(s, le) && Sorted(t, le) && Separates(s, le)
    requires s != [] && t != [] && s[0] in t && t[0] in s
    ensures s[0] == t[0]
  {
    var i :| 0 <= i < |s| && s[i] == t[0];
    var j :| 0 <= j < |t| && t[j] == s[0];
    assert i == 0 || le(s[0], s[i]);
    assert j == 0 || le(t[0], t[j]);
  }

  /** Two ordered arrangements of the same elements are the same sequence. */
  lemma {:induction false} SortedUnique<T(!new)>(s: seq<T>, t: seq<T>, le: (T, T) -> bool)
    requires Sorted(s, le) && Sorted(t, le) && Separates(s, le)
    requires multiset(s) == multiset(t)
    ensures s == t
  {
    assert |s| == |multiset(s)| == |multiset(t)| == |t|;
    if s != [] {
      assert s[0] in multiset(t) && t[0] in multiset(s);
      SortedHead(s, t, le);
      assert s == [s[0]] + s[1..] && t == [t[0]] + t[1..];
      assert multiset(s[1..]) == multiset(s) - multiset{s[0]};
      assert multiset(t[1..]) == multiset(t) - multiset{s[0]};
      SortedUnique(s[1..], t[1..], le);
    }
  }

  /** Permuting the input of the sort does not change its output. */
  lemma SortPermutationInvariant<T(!new)>(s: seq<T>, t: seq<T>, le: (T, T) -> bool)
    requires TotalPreorder(le) && Separates(s, le)
    requires multiset(s) == multiset(t)
    ensures Sort(s, le) == Sort(t, le)
  {
    SortSorts(s, le);
    SortSorts(t, le);
    forall a | a in Sort(s, le) ensures a in s {
      assert a in multiset(Sort(s, le));
    }
    SortedUnique(Sort(s, le), Sort(t, le), le);
  }

  function Map<S, T>(s: seq<S>, f: S -> T): (r: seq<T>)
    ensures |r| == |s| && forall i | 0 <= i < |s| :: r[i] == f(s[i])
  {
    if s == [] then [] else [f(s[0])] + Map(s[1..], f)
  }

  lemma {:induction false} InsertMap<S(!new), T(!new)>(x: S, s: seq<S>, f: S -> T, le: (S, S) -> bool,
      le': (T, T) -> bool)
    requires forall a, b :: le'(f(a), f(b)) == le(a, b)
    ensures Insert(f(x), Map(s, f), le') == Map(Insert(x, s, le), f)
  {
    if s != [] && !le(x, s[0]) {
      assert Map(s, f)[1..] == Map(s[1..], f);
      InsertMap(x, s[1..], f, le, le');
      assert Insert(x, s, le)[1..] == Insert(x, s[1..], le);
    } else {
      assert ([x] + s)[1..] == s;
    }
  }

  /** Sorting commutes with a map that keeps the order. */
  lemma {:induction false} SortMap<S(!new), T(!new)>(s: seq<S>, f: S -> T, le: (S, S) -> bool, le': (T, T) -> bool)
    requires forall a, b :: le'(f(a), f(b)) == le(a, b)
    ensures Sort(Map(s, f), le') == Map(Sort(s, le), f)
  {
    if s != [] {
      assert Map(s, f)[1..] == Map(s[1..], f);
      SortMap(s[1..], f, le, le');
      InsertMap(s[0], Sort(s[1..], le), f, le, le');
    }
  }
}
