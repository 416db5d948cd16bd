/**
 JavaScript strings as sequences of UTF-16 code units, with the built-ins the
 source uses: `indexOf`, `join`, `split` on one character, `trim`, `startsWith`
 and decimal numerals.
 */
module Texts {

  type Unit = u: int | 0 <= u < 0x1_0000
  type Text = seq<Unit>

  const NL: Unit := 10
  const SPACE: Unit := 32
  const DOT: Unit := 46
  const QUOTE: Unit := 34

  /** The text of a string literal. Every literal in this project is ASCII. */
  function Lit(s: string): (t: Text)
    ensures |t| == |s|
    ensures forall i | 0 <= i < |s| && s[i] as int < 128 :: t[i] == s[i] as int
  {
    seq(|s|, i requires 0 <= i < |s| => if s[i] as int < 128 then s[i] as int else 0xFFFD)
  }

  lemma LitFree(s: string, c: char)
    requires c !in s && c as int < 128
    ensures (c as int) !in Lit(s)
  {
    forall i | 0 <= i < |s| ensures Lit(s)[i] != c as int {
      assert s[i] != c;
    }
  }

  lemma Assoc(a: Text, b: Text, c: Text)
    ensures a + b + c == a + (b + c)
  {}

  // ----- occurrences -----------------------------------------------------

  predicate At(t: Text, pat: Text, i: int) {
    0 <= i && i + |pat| <= |t| && t[i..i + |pat|] == pat
  }

  predicate StartsWith(t: Text, pat: Text) { At(t, pat, 0) }

  ghost predicate Contains(t: Text, pat: Text) {
    exists i :: At(t, pat, i)
  }

  /** `t.indexOf(pat, from)`: the least position of `pat` at or after `from`. */
  function IndexOf(t: Text, pat: Text, from: nat): (r: int)
    ensures r == -1 ==> forall i | from <= i :: !At(t, pat, i)
    ensures r != -1 ==> from <= r && At(t, pat, r) && forall i | from <= i < r :: !At(t, pat, i)
    decreases |t| - from
  {
    if from + |pat| > |t| then -1
    else if At(t, pat, from) then from
    else IndexOf(t, pat, from + 1)
  }

  lemma IndexOfIs(t: Text, pat: Text, from: nat, at: nat)
    requires from <= at && At(t, pat, at)
    requires forall i | from <= i < at :: !At(t, pat, i)
    ensures IndexOf(t, pat, from) == at
  {
    var r := IndexOf(t, pat, from);
    assert r != -1 && At(t, pat, r);
  }

  /** A search that cannot stop between `low` and an occurrence at `high` stops before or there. */
  lemma IndexOutside(t: Text, pat: Text, low: nat, high: nat)
    requires low <= high && At(t, pat, high) && forall k | low <= k < high :: !At(t, pat, k)
    ensures 0 <= IndexOf(t, pat, 0) && (IndexOf(t, pat, 0) < low || IndexOf(t, pat, 0) == high)
  {}

  /** One differing unit rules an occurrence out. */
  lemma NotAt(t: Text, pat: Text, i: nat, k: nat)
    requires k < |pat| && (i + |pat| <= |t| ==> t[i + k] != pat[k])
    ensures !At(t, pat, i)
  {
    assert i + |pat| <= |t| ==> t[i..i + |pat|][k] == t[i + k];
  }

  // ----- join and split --------------------------------------------------

  function Join(ls: seq<Text>, sep: Text): (t: Text) {
    if ls == [] then []
    else if |ls| == 1 then ls[0]
    else ls[0] + sep + Join(ls[1..], sep)
  }

  /** `t.split(c)` for a one-character separator. */
  function Split(t: Text, c: Unit): (r: seq<Text>)
    ensures |r| >= 1
    ensures forall i | 0 <= i < |r| :: c !in r[i]
    ensures Join(r, [c]) == t
  {
    if t == [] then [[]]
    else
      var rest := Split(t[1..], c);
      if t[0] == c then
        assert Join([[]] + rest, [c]) == [] + [c] + Join(rest, [c]) by { assert ([[]] + rest)[1..] == rest; }
        assert t == [t[0]] + t[1..];
        [[]] + rest
      else
        var r := [[t[0]] + rest[0]] + rest[1..];
        assert Join(r, [c]) == [t[0]] + Join(rest, [c]) by {
          assert r[1..] == rest[1..];
          if |rest| > 1 {
            assert Join(r, [c]) == ([t[0]] + rest[0]) + [c] + Join(rest[1..], [c]);
          }
        }
        assert t == [t[0]] + t[1..];
        r
  }

  lemma {:induction false} SplitFree(a: Text, c: Unit)
    requires c !in a
    ensures Split(a, c) == [a]
  {
    if a != [] {
      assert a == [a[0]] + a[1..];
      SplitFree(a[1..], c);
    }
  }

  /** Splitting undoes one join step. */
  lemma {:induction false} SplitCons(a: Text, c: Unit, rest: Text)
    requires c !in a
    ensures Split(a + [c] + rest, c) == [a] + Split(rest, c)
  {
    var t := a + [c] + rest;
    Assoc(a, [c], rest);
    if a == [] {
      assert a + ([c] + rest) == [c] + rest;
      ConsTail([c], rest);
    } else {
      SplitCons(a[1..], c, rest);
      Assoc(a[1..], [c], rest);
      ConsTail(a, [c] + rest);
      SplitPrepend(t, c, a[1..], Split(rest, c));
    }
  }

  lemma ConsTail(a: Text, x: Text)
    requires a != []
    ensures (a + x)[0] == a[0] && (a + x)[1..] == a[1..] + x && [a[0]] + a[1..] == a
  {}

  lemma SplitPrepend(t: Text, c: Unit, first: Text, parts: seq<Text>)
    requires t != [] && t[0] != c && Split(t[1..], c) == [first] + parts
    ensures Split(t, c) == [[t[0]] + first] + parts
  {
    assert ([first] + parts)[1..] == parts;
  }

  /** `ls.join(c).split(c)` is `ls`, when no part contains the separator. */
  lemma {:induction false} SplitJoin(ls: seq<Text>, c: Unit)
    requires |ls| >= 1 && forall i | 0 <= i < |ls| :: c !in ls[i]
    ensures Split(Join(ls, [c]), c) == ls
  {
    if |ls| == 1 {
      SplitFree(ls[0], c);
    } else {
      SplitJoin(ls[1..], c);
      SplitCons(ls[0], c, Join(ls[1..], [c]));
      assert ls == [ls[0]] + ls[1..];
    }
  }

  // ----- splitting longer texts ------------------------------------------

  lemma Append3<T>(a: seq<T>, b: seq<T>, c: seq<T>)
    ensures a + b + c == a + (b + c)
  {}

  function Front<T>(s: seq<T>): (r: seq<T>)
    requires s != []
  {
    s[..|s| - 1]
  }

  function Last<T>(s: seq<T>): (r: T)
    requires s != []
  {
    s[|s| - 1]
  }

  lemma ConsFrontLast<T>(x: T, s: seq<T>)
    requires s != []
    ensures Front([x] + s) == [x] + Front(s) && Last([x] + s) == Last(s)
  {}

  lemma FirstPart(a: Text, c: Unit)
    requires |Split(a, c)| > 1
    ensures var rest := Join(Split(a, c)[1..], [c]);
            && a == Split(a, c)[0] + [c] + rest && |rest| < |a|
            && Split(a, c) == [Split(a, c)[0]] + Split(rest, c)
  {
    SplitCons(Split(a, c)[0], c, Join(Split(a, c)[1..], [c]));
  }

  lemma ExtendStep(first: Text, parts: seq<Text>, rest: Text, b: Text, c: Unit, tail: seq<Text>)
    requires c !in first && parts != [] && Split(rest + b, c) == Front(parts) + tail
    ensures Split(first + [c] + rest + b, c) == Front([first] + parts) + tail
  {
    Assoc(first + [c], rest, b);
    SplitCons(first, c, rest + b);
    ConsFrontLast(first, parts);
    Append3([first], Front(parts), tail);
  }

  /** More text extends the last part only. */
  lemma {:induction false} SplitExtend(a: Text, b: Text, c: Unit)
    ensures Split(a + b, c) == Front(Split(a, c)) + Split(Last(Split(a, c)) + b, c)
    decreases |a|
  {
    var parts := Split(a, c);
    if |parts| == 1 {
      assert Front(parts) == [] && Last(parts) == a;
    } else {
      var first, rest := parts[0], Join(parts[1..], [c]);
      FirstPart(a, c);
      SplitExtend(rest, b, c);
      ConsFrontLast(first, Split(rest, c));
      ExtendStep(first, Split(rest, c), rest, b, c, Split(Last(Split(rest, c)) + b, c));
    }
  }

  /** A separator splits a text into the parts before it and the parts after it. */
  lemma SplitCat(x: Text, c: Unit, y: Text)
    ensures Split(x + [c] + y, c) == Split(x, c) + Split(y, c)
  {
    var parts := Split(x, c);
    Assoc(x, [c], y);
    SplitExtend(x, [c] + y, c);
    Assoc(Last(parts), [c], y);
    SplitCons(Last(parts), c, y);
    Append3(Front(parts), [Last(parts)], Split(y, c));
    FrontAndLast(parts);
  }

  lemma FrontAndLast<T>(s: seq<T>)
    requires s != []
    ensures Front(s) + [Last(s)] == s
  {}

  // ----- trim ------------------------------------------------------------

  /** LineTerminator: the four units that `.` does not match in a regular expression. */
  predicate LineTerminator(u: Unit) { u == 10 || u == 13 || u == 0x2028 || u == 0x2029 }

  predicate NoLineTerminator(t: Text) { forall i | 0 <= i < |t| :: !LineTerminator(t[i]) }

  /** WhiteSpace or LineTerminator of ECMA-262: what `trim` removes. */
  predicate JsSpace(u: Unit) {
    || 9 <= u <= 13 || u == 32 || u == 0xA0 || u == 0x1680 || 0x2000 <= u <= 0x200A
    || u == 0x2028 || u == 0x2029 || u == 0x202F || u == 0x205F || u == 0x3000 || u == 0xFEFF
  }

  /** Insignificant white space of the JSON grammar (section 2 of RFC 8259). */
  predicate JsonSpace(u: Unit) { u == 9 || u == 10 || u == 13 || u == 32 }

  function DropLeft(t: Text, p: Unit -> bool): (r: Text) {
    if t != [] && p(t[0]) then DropLeft(t[1..], p) else t
  }

  function DropRight(t: Text, p: Unit -> bool): (r: Text) {
    if t != [] && p(t[|t| - 1]) then DropRight(t[..|t| - 1], p) else t
  }

  function Trim(t: Text): (r: Text) { DropRight(DropLeft(t, JsSpace), JsSpace) }

  /** The part of a line that the JSON grammar reads as its value. */
  function JsonTrim(t: Text): (r: Text) { DropRight(DropLeft(t, JsonSpace), JsonSpace) }

  // ----- decimal numerals ------------------------------------------------

  predicate Digit(u: Unit) { 48 <= u <= 57 }

  predicate AllDigits(t: Text) { forall i | 0 <= i < |t| :: Digit(t[i]) }

  /** `String(n)` for a non-negative integer. */
  function Dec(n: nat): (t: Text)
    ensures |t| >= 1 && AllDigits(t)
  {
    if n < 10 then [48 + n] else Dec(n / 10) + [48 + n % 10]
  }

  /** `Number(t)` for a run of digits. */
  function DecValue(t: Text): (n: nat)
    requires AllDigits(t)
  {
    if t == [] then 0 else DecValue(t[..|t| - 1]) * 10 + (t[|t| - 1] - 48)
  }

  lemma {:induction false} DecRoundTrip(n: nat)
    ensures DecValue(Dec(n)) == n
  {
    var t := Dec(n);
    if n < 10 {
      assert t[..0] == [];
      assert DecValue(t[..0]) == 0;
    } else {
      DecRoundTrip(n / 10);
      assert t[..|t| - 1] == Dec(n / 10);
    }
  }

  // ----- code-unit order -------------------------------------------------

  /** The order of `Array.prototype.sort` without a comparator, on strings. */
  predicate LexLe(a: Text, b: Text) {
    a == [] || (b != [] && (a[0] < b[0] || (a[0] == b[0] && LexLe(a[1..], b[1..]))))
  }

  lemma {:induction false} LexTotal(a: Text, b: Text)
    ensures LexLe(a, b) || LexLe(b, a)
  {
    if a != [] && b != [] { LexTotal(a[1..], b[1..]); }
  }

  lemma {:induction false} LexAntisymmetric(a: Text, b: Text)
    requires LexLe(a, b) && LexLe(b, a)
    ensures a == b
  {
    if a != [] {
      LexAntisymmetric(a[1..], b[1..]);
      assert a == [a[0]] + a[1..] && b == [b[0]] + b[1..];
    }
  }

  lemma {:induction false} LexTransitive(a: Text, b: Text, c: Text)
    requires LexLe(a, b) && LexLe(b, c)
    ensures LexLe(a, c)
  {
    if a != [] && a[0] == b[0] == c[0] { LexTransitive(a[1..], b[1..], c[1..]); }
  }
}
