/**
 Source references: percent-encoding (section 2.1 of RFC 3986) over UTF-8
 (section 3 of RFC 3629) as `encodeURIComponent` and `decodeURIComponent` do it
 (section 19.2.6 of ECMA-262), and the scheme that makes strings and references
 correspond one to one.
 */
module SourceReference {
  import opened Texts
  import opened Wrappers
  import opened JsonText

  const SLASH: Unit := 47
  const PERCENT: Unit := 37

  type Byte = b: int | 0 <= b < 256

  // ----- UTF-8 -----------------------------------------------------------

  /** A Unicode scalar value. */
  predicate Scalar(c: int) { 0 <= c <= 0x10FFFF && !(0xD800 <= c <= 0xDFFF) }

  function Utf8(c: int): (r: seq<Byte>)
    requires Scalar(c)
    ensures 1 <= |r| <= 4
  {
    if c < 0x80 then [c]
    else if c < 0x800 then [0xC0 + c / 64, 0x80 + c % 64]
    else if c < 0x1_0000 then [0xE0 + c / 4096, 0x80 + c / 64 % 64, 0x80 + c % 64]
    else [0xF0 + c / 262144, 0x80 + c / 4096 % 64, 0x80 + c / 64 % 64, 0x80 + c % 64]
  }

  /** The UTF-16 code units of a scalar value. */
  function Units(c: int): (r: Text)
    requires Scalar(c)
    ensures 1 <= |r| <= 2
  {
    if c < 0x1_0000 then [c] else [0xD800 + (c - 0x1_0000) / 1024, 0xDC00 + (c - 0x1_0000) % 1024]
  }

  /** How many octets a sequence starting with `b` has; 0 for an octet that starts none. */
  function SequenceLength(b: Byte): (n: nat)
    ensures n <= 4
  {
    if b < 0x80 then 1 else if b < 0xC0 then 0
    else if b < 0xE0 then 2 else if b < 0xF0 then 3 else if b < 0xF8 then 4 else 0
  }

  predicate Continuation(b: Byte) { 0x80 <= b < 0xC0 }

  /** The scalar value of one well-formed sequence: shortest form, no surrogate, at most U+10FFFF. */
  function FromUtf8(o: seq<Byte>): (r: Option<int>)
    requires 1 <= |o| <= 4
    ensures r.Some? ==> Scalar(r.value)
  {
    if |o| == 1 then (if o[0] < 0x80 then Some(o[0]) else None)
    else if !(forall i | 1 <= i < |o| :: Continuation(o[i])) then None
    else
      var a: int, b: int := o[0], o[1] - 0x80;
      var c: int :=
        if |o| == 2 then (a - 0xC0) * 64 + b
        else if |o| == 3 then (a - 0xE0) * 4096 + b * 64 + (o[2] - 0x80)
        else (var d: int := o[2] - 0x80; (a - 0xF0) * 262144 + b * 4096 + d * 64 + (o[3] - 0x80));
      var least := if |o| == 2 then 0x80 else if |o| == 3 then 0x800 else 0x1_0000;
      if c < least || !Scalar(c) then None else Some(c)
  }

  lemma Base64Digits(c: nat)
    ensures c == c / 64 * 64 + c % 64
    ensures c == c / 4096 * 4096 + c / 64 % 64 * 64 + c % 64
    ensures c == c / 262144 * 262144 + c / 4096 % 64 * 4096 + c / 64 % 64 * 64 + c % 64
  {
    assert c / 64 / 64 == c / 4096 && c / 4096 / 64 == c / 262144;
    assert c / 64 == c / 4096 * 64 + c / 64 % 64;
    assert c / 4096 == c / 262144 * 64 + c / 4096 % 64;
  }

  lemma TwoOctets(c: int, a: Byte, b: Byte)
    requires 0x80 <= c < 0x800 && a == 0xC0 + c / 64 && b == 0x80 + c % 64
    ensures SequenceLength(a) == 2 && FromUtf8([a, b]) == Some(c)
  {
    Base64Digits(c);
  }

  lemma ThreeOctets(c: int, a: Byte, b: Byte, d: Byte)
    requires 0x800 <= c < 0x1_0000 && Scalar(c) && a == 0xE0 + c / 4096 && b == 0x80 + c / 64 % 64 && d == 0x80 + c % 64
    ensures SequenceLength(a) == 3 && FromUtf8([a, b, d]) == Some(c)
  {
    Base64Digits(c);
  }

  lemma FourOctets(c: int, a: Byte, b: Byte, d: Byte, e: Byte)
    requires 0x1_0000 <= c <= 0x10FFFF
    requires a == 0xF0 + c / 262144 && b == 0x80 + c / 4096 % 64 && d == 0x80 + c / 64 % 64 && e == 0x80 + c % 64
    ensures SequenceLength(a) == 4 && FromUtf8([a, b, d, e]) == Some(c)
  {
    Base64Digits(c);
  }

  lemma Utf8RoundTrip(c: int)
    requires Scalar(c)
    ensures SequenceLength(Utf8(c)[0]) == |Utf8(c)| && FromUtf8(Utf8(c)) == Some(c)
  {
    var o := Utf8(c);
    if c < 0x80 {
    } else if c < 0x800 {
      TwoOctets(c, o[0], o[1]);
    } else if c < 0x1_0000 {
      ThreeOctets(c, o[0], o[1], o[2]);
    } else {
      FourOctets(c, o[0], o[1], o[2], o[3]);
    }
  }

  // ----- percent-encoding ------------------------------------------------

  function UpperHex(n: nat): (u: Unit)
    requires n < 16
  {
    if n < 10 then 48 + n else 55 + n
  }

  function Triplet(b: Byte): (t: Text) { [PERCENT, UpperHex(b / 16), UpperHex(b % 16)] }

  function Triplets(o: seq<Byte>): (t: Text)
    ensures |t| == 3 * |o|
  {
    if o == [] then [] else Triplet(o[0]) + Triplets(o[1..])
  }

  /** uriUnescaped: the characters `encodeURIComponent` leaves alone. */
  predicate Unescaped(u: Unit) {
    || 65 <= u <= 90 || 97 <= u <= 122 || 48 <= u <= 57 || u == 45 || u == 95 || u == 46 || u == 33
    || u == 126 || u == 42 || u == 39 || u == 40 || u == 41
  }

  /** The code point at the head of `t` and its number of units; `None` for a lone surrogate. */
  function HeadPoint(t: Text): (r: Option<(int, nat)>)
    requires t != []
    ensures r.Some? ==> Scalar(r.value.0) && 1 <= r.value.1 <= |t| && Units(r.value.0) == t[..r.value.1]
  {
    if LowSurrogate(t[0]) then None
    else if !HighSurrogate(t[0]) then Some((t[0], 1))
    else if |t| < 2 || !LowSurrogate(t[1]) then None
    else
      var high: int, low: int := t[0] - 0xD800, t[1] - 0xDC00;
      var c: int := high * 1024 + low + 0x1_0000;
      assert (c - 0x1_0000) / 1024 == high && (c - 0x1_0000) % 1024 == low;
      Some((c, 2))
  }

  /** No lone surrogate. */
  predicate WellFormed(t: Text) {
    t == [] || (HeadPoint(t).Some? && WellFormed(t[HeadPoint(t).value.1..]))
  }

  /** `encodeURIComponent(t)`; `None` stands for the URIError. */
  function EncodeUri(t: Text): (r: Option<Text>) {
    if t == [] then Some([])
    else if Unescaped(t[0]) then
      var rest :- EncodeUri(t[1..]);
      Some([t[0]] + rest)
    else
      var (c, n) :- HeadPoint(t);
      var rest :- EncodeUri(t[n..]);
      Some(Triplets(Utf8(c)) + rest)
  }

  function TripletByte(t: Text): (r: Option<Byte>) {
    if |t| < 3 || t[0] != PERCENT then None
    else
      var a :- HexValue(t[1]);
      var b :- HexValue(t[2]);
      Some(a * 16 + b)
  }

  /** The octets of the first `n` triplets of `t`. */
  function TripletBytes(t: Text, n: nat): (r: Option<seq<Byte>>)
    ensures r.Some? ==> |r.value| == n && 3 * n <= |t|
  {
    if n == 0 then Some([])
    else
      var b :- TripletByte(t);
      var rest :- TripletBytes(t[3..], n - 1);
      Some([b] + rest)
  }

  /** `decodeURIComponent(t)`; `None` stands for the URIError. */
  function DecodeUri(t: Text): (r: Option<Text>) {
    if t == [] then Some([])
    else if t[0] != PERCENT then
      var rest :- DecodeUri(t[1..]);
      Some([t[0]] + rest)
    else
      var b :- TripletByte(t);
      var n := SequenceLength(b);
      if n == 0 then None
      else
        var o :- TripletBytes(t, n);
        var c :- FromUtf8(o);
        var rest :- DecodeUri(t[3 * n..]);
        Some(Units(c) + rest)
  }

  // ----- decoding undoes encoding ----------------------------------------

  lemma TripletRoundTrip(b: Byte, x: Text)
    ensures TripletByte(Triplet(b) + x) == Some(b) && (Triplet(b) + x)[3..] == x
  {
    assert b == b / 16 * 16 + b % 16;
  }

  lemma {:induction false} TripletsRoundTrip(o: seq<Byte>, x: Text)
    ensures TripletBytes(Triplets(o) + x, |o|) == Some(o) && (Triplets(o) + x)[3 * |o|..] == x
    ensures o != [] ==> TripletByte(Triplets(o) + x) == Some(o[0])
  {
    if o != [] {
      TripletRoundTrip(o[0], Triplets(o[1..]) + x);
      Assoc(Triplet(o[0]), Triplets(o[1..]), x);
      TripletsRoundTrip(o[1..], x);
      assert o == [o[0]] + o[1..];
      assert (Triplets(o) + x)[3..][3 * (|o| - 1)..] == (Triplets(o) + x)[3 * |o|..];
    }
  }

  lemma DecodePoint(c: int, x: Text)
    requires Scalar(c) && DecodeUri(x).Some?
    ensures DecodeUri(Triplets(Utf8(c)) + x) == Some(Units(c) + DecodeUri(x).value)
  {
    var t := Triplets(Utf8(c)) + x;
    Utf8RoundTrip(c);
    TripletsRoundTrip(Utf8(c), x);
    assert t[0] == Triplets(Utf8(c))[0] == PERCENT;
  }

  lemma DecodePlain(u: Unit, x: Text)
    requires Unescaped(u) && DecodeUri(x).Some?
    ensures DecodeUri([u] + x) == Some([u] + DecodeUri(x).value)
  {
    assert ([u] + x)[1..] == x;
  }

  lemma {:induction false} DecodeEncode(t: Text)
    requires EncodeUri(t).Some?
    ensures DecodeUri(EncodeUri(t).value) == Some(t)
  {
    if t == [] {
    } else if Unescaped(t[0]) {
      DecodeEncode(t[1..]);
      DecodePlain(t[0], EncodeUri(t[1..]).value);
      assert t == [t[0]] + t[1..];
    } else {
      var (c, n) := HeadPoint(t).value;
      DecodeEncode(t[n..]);
      DecodePoint(c, EncodeUri(t[n..]).value);
      EncodedPoint(t, c, n);
    }
  }

  lemma EncodedPoint(t: Text, c: int, n: nat)
    requires t != [] && !Unescaped(t[0]) && HeadPoint(t) == Some((c, n)) && EncodeUri(t[n..]).Some?
    ensures EncodeUri(t) == Some(Triplets(Utf8(c)) + EncodeUri(t[n..]).value) && Units(c) + t[n..] == t
  {
    assert t == t[..n] + t[n..];
  }

  lemma {:induction false} EncodableExactly(t: Text)
    ensures EncodeUri(t).Some? <==> WellFormed(t)
  {
    if t != [] {
      if Unescaped(t[0]) {
        EncodableExactly(t[1..]);
      } else if HeadPoint(t).Some? {
        EncodableExactly(t[HeadPoint(t).value.1..]);
      }
    }
  }

  /** An encoded text is made of unescaped characters and triplets. */
  predicate Plain(t: Text) { forall i | 0 <= i < |t| :: Unescaped(t[i]) || t[i] == PERCENT }

  lemma {:induction false} TripletsPlain(o: seq<Byte>)
    ensures Plain(Triplets(o))
  {
    if o != [] { TripletsPlain(o[1..]); }
  }

  lemma {:induction false} EncodePlain(t: Text)
    requires EncodeUri(t).Some?
    ensures Plain(EncodeUri(t).value) && (t != [] ==> EncodeUri(t).value != [])
  {
    if t != [] {
      if Unescaped(t[0]) {
        EncodePlain(t[1..]);
      } else {
        var (c, n) := HeadPoint(t).value;
        EncodePlain(t[n..]);
        TripletsPlain(Utf8(c));
      }
    }
  }

  // ----- repository paths ------------------------------------------------

  predicate Letter(u: Unit) { 65 <= u <= 90 || 97 <= u <= 122 }

  /** `isCanonicalRepositoryPath`. */
  predicate Canonical(path: Text) {
    && path != []
    && path[0] != SLASH
    && 92 !in path && 0 !in path
    && !(|path| >= 2 && Letter(path[0]) && path[1] == 58)
    && (var segments := Split(path, SLASH);
        forall i | 0 <= i < |segments| :: segments[i] != [] && segments[i] != [DOT] && segments[i] != [DOT, DOT])
  }

  /** What a list of segments leads to: empty and `.` segments stay, `..` goes back. */
  function Resolve(segments: seq<Text>): (r: seq<Text>)
    ensures |r| <= |segments|
  {
    if segments == [] then []
    else
      var before, last := Resolve(segments[..|segments| - 1]), segments[|segments| - 1];
      if last == [] || last == [DOT] then before
      else if last == [DOT, DOT] then if before == [] then [] else before[..|before| - 1]
      else before + [last]
  }

  predicate Proper(segment: Text) { segment != [] && segment != [DOT] && segment != [DOT, DOT] }

  lemma {:induction false} ResolvesToItself(segments: seq<Text>)
    ensures Resolve(segments) == segments <==> forall i | 0 <= i < |segments| :: Proper(segments[i])
  {
    if segments != [] {
      var n := |segments| - 1;
      ResolvesToItself(segments[..n]);
      assert segments == segments[..n] + [segments[n]];
      assert forall i | 0 <= i < n :: segments[..n][i] == segments[i];
    }
  }

  /** A path is canonical exactly when it leads to itself from the root, without a drive, backslash or NUL. */
  lemma CanonicalExactly(path: Text)
    ensures Canonical(path) <==>
            && Resolve(Split(path, SLASH)) == Split(path, SLASH)
            && 92 !in path && 0 !in path && !(|path| >= 2 && Letter(path[0]) && path[1] == 58)
  {
    ResolvesToItself(Split(path, SLASH));
    FirstEmpty(path);
    AllProper(path, Split(path, SLASH));
  }

  lemma FirstEmpty(path: Text)
    ensures path == [] || path[0] == SLASH ==> !Proper(Split(path, SLASH)[0])
  {}

  predicate NoOdds(path: Text) { 92 !in path && 0 !in path && !(|path| >= 2 && Letter(path[0]) && path[1] == 58) }

  predicate ProperParts(segments: seq<Text>) { forall i | 0 <= i < |segments| :: Proper(segments[i]) }

  lemma CanonicalIs(path: Text)
    ensures Canonical(path) <==> path != [] && path[0] != SLASH && NoOdds(path) && ProperParts(Split(path, SLASH))
  {}

  lemma AllProper(path: Text, segments: seq<Text>)
    requires segments == Split(path, SLASH) && segments != []
    requires path == [] || path[0] == SLASH ==> !Proper(segments[0])
    ensures Canonical(path) <==> ProperParts(segments) && NoOdds(path)
  {
    CanonicalIs(path);
    assert ProperParts(segments) ==> Proper(segments[0]);
  }

  function MapOption(ls: seq<Text>, f: Text -> Option<Text>): (r: Option<seq<Text>>)
    ensures r.Some? ==> |r.value| == |ls| && forall i | 0 <= i < |ls| :: f(ls[i]) == Some(r.value[i])
    ensures r.None? ==> exists i | 0 <= i < |ls| :: f(ls[i]).None?
  {
    if ls == [] then Some([])
    else
      match f(ls[0])
      case None => None
      case Some(first) =>
        match MapOption(ls[1..], f)
        case None =>
          assert exists i | 0 <= i < |ls[1..]| :: f(ls[1..][i]).None?;
          None
        case Some(rest) => Some([first] + rest)
  }

  function EncodePath(path: Text): (r: Option<Text>) {
    var segments :- MapOption(Split(path, SLASH), EncodeUri);
    Some(Join(segments, [SLASH]))
  }

  function DecodePath(encoded: Text): (r: Option<Text>) {
    var segments :- MapOption(Split(encoded, SLASH), DecodeUri);
    Some(Join(segments, [SLASH]))
  }

  lemma {:induction false} MapOptionIs(ls: seq<Text>, f: Text -> Option<Text>, r: seq<Text>)
    requires |r| == |ls| && forall i | 0 <= i < |ls| :: f(ls[i]) == Some(r[i])
    ensures MapOption(ls, f) == Some(r)
  {
    if ls != [] {
      MapOptionIs(ls[1..], f, r[1..]);
      assert r == [r[0]] + r[1..];
    }
  }

  lemma DecodeEncodePath(path: Text)
    requires EncodePath(path).Some?
    ensures DecodePath(EncodePath(path).value) == Some(path)
  {
    var segments := Split(path, SLASH);
    var encoded := MapOption(segments, EncodeUri).value;
    forall i | 0 <= i < |segments| ensures SLASH !in encoded[i] && DecodeUri(encoded[i]) == Some(segments[i]) {
      EncodePlain(segments[i]);
      DecodeEncode(segments[i]);
    }
    SplitJoin(encoded, SLASH);
    MapOptionIs(encoded, DecodeUri, segments);
  }

  lemma {:induction false} WellFormedSplit(a: Text, c: Unit, b: Text)
    requires !HighSurrogate(c) && !LowSurrogate(c)
    ensures WellFormed(a + [c] + b) <==> WellFormed(a) && WellFormed(b)
    decreases |a|
  {
    var t := a + [c] + b;
    if a == [] {
      assert t == [c] + b && t[1..] == b;
    } else if |a| == 1 {
      assert t[0] == a[0] && t[1] == c && t[1..] == [] + [c] + b;
      WellFormedSplit([], c, b);
      assert a[1..] == [];
    } else {
      assert t[0] == a[0] && t[1] == a[1];
      assert t[1..] == a[1..] + [c] + b && t[2..] == a[2..] + [c] + b;
      WellFormedSplit(a[1..], c, b);
      WellFormedSplit(a[2..], c, b);
    }
  }

  lemma {:induction false} WellFormedJoin(ls: seq<Text>, c: Unit)
    requires |ls| >= 1 && !HighSurrogate(c) && !LowSurrogate(c)
    ensures WellFormed(Join(ls, [c])) <==> forall i | 0 <= i < |ls| :: WellFormed(ls[i])
  {
    if |ls| > 1 {
      WellFormedSplit(ls[0], c, Join(ls[1..], [c]));
      WellFormedJoin(ls[1..], c);
      assert forall i | 0 < i < |ls| :: ls[i] == ls[1..][i - 1];
    }
  }

  lemma EncodablePathExactly(path: Text)
    ensures EncodePath(path).Some? <==> WellFormed(path)
  {
    var segments := Split(path, SLASH);
    WellFormedJoin(segments, SLASH);
    forall i | 0 <= i < |segments| ensures EncodeUri(segments[i]).Some? <==> WellFormed(segments[i]) {
      EncodableExactly(segments[i]);
    }
  }

  lemma {:induction false} JoinPlain(ls: seq<Text>)
    requires |ls| >= 1 && forall i | 0 <= i < |ls| :: Plain(ls[i])
    ensures forall u | u in Join(ls, [SLASH]) :: Unescaped(u) || u == PERCENT || u == SLASH
    ensures ls[0] != [] ==> Join(ls, [SLASH]) != []
  {
    if |ls| > 1 { JoinPlain(ls[1..]); }
  }

  lemma EncodedSegmentsPlain(segments: seq<Text>, encoded: seq<Text>)
    requires MapOption(segments, EncodeUri) == Some(encoded)
    requires forall i | 0 <= i < |segments| :: segments[i] != []
    ensures |encoded| == |segments| && forall i | 0 <= i < |encoded| :: Plain(encoded[i]) && encoded[i] != []
  {
    forall i | 0 <= i < |segments| ensures Plain(encoded[i]) && encoded[i] != [] {
      EncodePlain(segments[i]);
    }
  }

  lemma EncodedPathPlain(path: Text)
    requires EncodePath(path).Some? && Canonical(path)
    ensures EncodePath(path).value != [] && NoLineTerminator(EncodePath(path).value)
  {
    var encoded := MapOption(Split(path, SLASH), EncodeUri).value;
    EncodedSegmentsPlain(Split(path, SLASH), encoded);
    JoinPlain(encoded);
    PlainHasNoTerminator(Join(encoded, [SLASH]));
  }

  lemma PlainHasNoTerminator(t: Text)
    requires forall u | u in t :: Unescaped(u) || u == PERCENT || u == SLASH
    ensures NoLineTerminator(t)
  {
    forall i | 0 <= i < |t| ensures !LineTerminator(t[i]) { assert t[i] in t; }
  }

  // ----- references and strings ------------------------------------------

  datatype Ref = TaskSpecVersion(id: Text) | NodeVersion(id: Text) | RepositoryContent(path: Text)

  const TASK_SPEC := Lit("task-spec")
  const NODE := Lit("node")
  const REPO := Lit("repo")
  const AUTHORITY_MARK := Lit("://")

  predicate LowerLetter(u: Unit) { 97 <= u <= 122 }
  predicate SchemeUnit(u: Unit) { LowerLetter(u) || Digit(u) || u == 45 }

  function SchemeRun(t: Text): (n: nat)
    ensures n <= |t|
  {
    if t == [] || !SchemeUnit(t[0]) then 0 else 1 + SchemeRun(t[1..])
  }

  /** The expression `^([a-z][a-z0-9-]*)://(.+)$`: the scheme and the rest. */
  function MatchScheme(value: Text): (r: Option<(Text, Text)>)
    ensures r.Some? ==> value == r.value.0 + (AUTHORITY_MARK + r.value.1)
    ensures r.Some? ==> r.value.1 != [] && NoLineTerminator(r.value.1)
  {
    var n := SchemeRun(value);
    if n == 0 || !LowerLetter(value[0]) || !At(value, AUTHORITY_MARK, n) then None
    else
      var id := value[n + |AUTHORITY_MARK|..];
      assert value == value[..n] + (AUTHORITY_MARK + id);
      if id == [] || !NoLineTerminator(id) then None else Some((value[..n], id))
  }

  /** `sourceRefToString`; `None` stands for the URIError. */
  function Print(r: Ref): (t: Option<Text>) {
    match r
    case TaskSpecVersion(id) => Some(TASK_SPEC + (AUTHORITY_MARK + id))
    case NodeVersion(id) => Some(NODE + (AUTHORITY_MARK + id))
    case RepositoryContent(path) =>
      var encoded :- EncodePath(path);
      Some(REPO + (AUTHORITY_MARK + encoded))
  }

  /** `parseSourceRef`; `None` stands for any error it throws. */
  function Parse(value: Text): (r: Option<Ref>) {
    var (scheme, id) :- MatchScheme(value);
    if scheme == TASK_SPEC then Some(TaskSpecVersion(id))
    else if scheme == NODE then Some(NodeVersion(id))
    else if scheme == REPO then
      var path :- DecodePath(id);
      var encoded :- EncodePath(path);
      if !Canonical(path) || REPO + (AUTHORITY_MARK + encoded) != value then None else Some(RepositoryContent(path))
    else None
  }

  /** The three printed forms. */
  lemma PrintSpells(id: Text)
    ensures Print(TaskSpecVersion(id)) == Some(Lit("task-spec://") + id)
    ensures Print(NodeVersion(id)) == Some(Lit("node://") + id)
    ensures EncodePath(id).Some? ==>
              Print(RepositoryContent(id)) == Some(Lit("repo://") + EncodePath(id).value)
  {
    assert TASK_SPEC + AUTHORITY_MARK == Lit("task-spec://");
    assert NODE + AUTHORITY_MARK == Lit("node://");
    assert REPO + AUTHORITY_MARK == Lit("repo://");
    assert forall t: Text :: TASK_SPEC + (AUTHORITY_MARK + t) == TASK_SPEC + AUTHORITY_MARK + t;
    assert forall t: Text :: NODE + (AUTHORITY_MARK + t) == NODE + AUTHORITY_MARK + t;
    assert forall t: Text :: REPO + (AUTHORITY_MARK + t) == REPO + AUTHORITY_MARK + t;
  }

  /** The references that strings can stand for. */
  predicate Expressible(r: Ref) {
    match r
    case TaskSpecVersion(id) => id != [] && NoLineTerminator(id)
    case NodeVersion(id) => id != [] && NoLineTerminator(id)
    case RepositoryContent(path) => Canonical(path) && WellFormed(path)
  }

  lemma {:induction false} SchemeRunIs(s: Text, rest: Text)
    requires (forall i | 0 <= i < |s| :: SchemeUnit(s[i])) && (rest == [] || !SchemeUnit(rest[0]))
    ensures SchemeRun(s + rest) == |s|
  {
    if s == [] {
      assert s + rest == rest;
    } else {
      assert (s + rest)[1..] == s[1..] + rest;
      SchemeRunIs(s[1..], rest);
    }
  }

  lemma MatchPrinted(scheme: Text, id: Text)
    requires scheme != [] && LowerLetter(scheme[0]) && (forall i | 0 <= i < |scheme| :: SchemeUnit(scheme[i]))
    requires id != [] && NoLineTerminator(id)
    ensures MatchScheme(scheme + (AUTHORITY_MARK + id)) == Some((scheme, id))
  {
    var value := scheme + (AUTHORITY_MARK + id);
    assert AUTHORITY_MARK[0] == 58;
    SchemeRunIs(scheme, AUTHORITY_MARK + id);
    assert value[|scheme|..|scheme| + |AUTHORITY_MARK|] == AUTHORITY_MARK;
    assert value[..|scheme|] == scheme && value[|scheme| + |AUTHORITY_MARK|..] == id;
  }

  lemma Schemes()
    ensures |TASK_SPEC| == 9 && |NODE| == 4 && |REPO| == 4 && NODE[0] != REPO[0]
    ensures LowerLetter(TASK_SPEC[0]) && LowerLetter(NODE[0]) && LowerLetter(REPO[0])
    ensures forall i | 0 <= i < 9 :: SchemeUnit(TASK_SPEC[i])
    ensures forall i | 0 <= i < 4 :: SchemeUnit(NODE[i]) && SchemeUnit(REPO[i])
  {
    assert forall i | 0 <= i < 9 :: TASK_SPEC[i] == "task-spec"[i] as int;
    assert forall i | 0 <= i < 4 :: NODE[i] == "node"[i] as int && REPO[i] == "repo"[i] as int;
  }

  lemma ParsePrint(r: Ref)
    requires Expressible(r)
    ensures Print(r).Some? && Parse(Print(r).value) == Some(r)
  {
    Schemes();
    match r
    case TaskSpecVersion(id) => MatchPrinted(TASK_SPEC, id);
    case NodeVersion(id) => MatchPrinted(NODE, id);
    case RepositoryContent(path) => ParsePrintPath(path);
  }

  lemma ParsePrintPath(path: Text)
    requires Expressible(RepositoryContent(path))
    ensures Print(RepositoryContent(path)).Some?
    ensures Parse(Print(RepositoryContent(path)).value) == Some(RepositoryContent(path))
  {
    Schemes();
    EncodablePathExactly(path);
    EncodedPathPlain(path);
    MatchPrinted(REPO, EncodePath(path).value);
    DecodeEncodePath(path);
  }

  /**
   Strings and expressible references correspond one to one: a string parses to
   a reference exactly when it is that reference's own spelling.
   */
  lemma ParseInvertsPrint(value: Text, r: Ref)
    ensures Parse(value) == Some(r) <==> Expressible(r) && Print(r) == Some(value)
  {
    if Expressible(r) { ParsePrint(r); }
    if Parse(value) == Some(r) { ParsedIsPrinted(value, r); }
  }

  lemma ParsedIsPrinted(value: Text, r: Ref)
    requires Parse(value) == Some(r)
    ensures Expressible(r) && Print(r) == Some(value)
  {
    if r.RepositoryContent? { EncodablePathExactly(r.path); }
  }

  /** No reference has two accepted spellings. */
  lemma OneSpelling(a: Text, b: Text)
    requires Parse(a).Some? && Parse(a) == Parse(b)
    ensures a == b
  {
    ParseInvertsPrint(a, Parse(a).value);
    ParseInvertsPrint(b, Parse(b).value);
  }
}
