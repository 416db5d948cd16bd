/** Facts about sequences and their permutations that several modules use. */
module Sequences {

  lemma FrontLast<T>(s: seq<T>)
    requires s != []
    ensures s[..|s| - 1] + [s[|s| - 1]] == s
  {}

  lemma CutAt<T>(s: seq<T>, i: nat)
    requires i < |s|
    ensures s == s[..i] + [s[i]] + s[i + 1..]
  {}

  function Omit<T>(s: seq<T>, i: nat): (r: seq<T>)
    requires i < |s|
  {
    s[..i] + s[i + 1..]
  }

  lemma OmitFront<T>(s: seq<T>, i: nat)
    requires i < |s| - 1
    ensures Omit(s, i)[..|s| - 2] == Omit(s[..|s| - 1], i) && Omit(s, i)[|s| - 2] == s[|s| - 1]
  {}

  lemma OmitMultiset<T>(s: seq<T>, i: nat)
    requires i < |s|
    ensures multiset(Omit(s, i)) == multiset(s) - multiset{s[i]} && multiset(s) == multiset(Omit(s, i)) + multiset{s[i]}
  {
    assert s == s[..i] + [s[i]] + s[i + 1..];
  }

  lemma FindIn<T>(s: seq<T>, t: seq<T>) returns (i: nat)
    requires s != [] && multiset(s) == multiset(t)
    ensures i < |t| && t[i] == s[|s| - 1] && multiset(s[..|s| - 1]) == multiset(Omit(t, i))
  {
    var last := s[|s| - 1];
    assert last in multiset(t);
    i :| 0 <= i < |t| && t[i] == last;
    OmitMultiset(s, |s| - 1);
    assert Omit(s, |s| - 1) == s[..|s| - 1];
    OmitMultiset(t, i);
  }
}
