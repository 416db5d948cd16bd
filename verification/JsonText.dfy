/**
 JSON string literals (section 7 of RFC 8259): the quoting `JSON.stringify`
 does on UTF-16 code units, and the reading `JSON.parse` does of a text that is
 one string literal.
 */
module JsonText {
  import opened Texts
  import opened Wrappers

  predicate HighSurrogate(u: Unit) { 0xD800 <= u <= 0xDBFF }
  predicate LowSurrogate(u: Unit) { 0xDC00 <= u <= 0xDFFF }

  // ----- printing --------------------------------------------------------

  function HexDigit(n: nat): (u: Unit)
    requires n < 16
  {
    if n < 10 then 48 + n else 87 + n
  }

  function HexEscape(u: Unit): (t: Text) {
    [92, 117, HexDigit(u / 4096), HexDigit(u / 256 % 16), HexDigit(u / 16 % 16), HexDigit(u % 16)]
  }

  function EscapeUnit(u: Unit): (t: Text) {
    if u == 8 then [92, 98]
    else if u == 9 then [92, 116]
    else if u == 10 then [92, 110]
    else if u == 12 then [92, 102]
    else if u == 13 then [92, 114]
    else if u == 34 then [92, 34]
    else if u == 92 then [92, 92]
    else if u < 32 || HighSurrogate(u) || LowSurrogate(u) then HexEscape(u)
    else [u]
  }

  /** A surrogate pair is copied; a surrogate on its own is escaped. */
  function Escape(s: Text): (t: Text)
    ensures forall i | 0 <= i < |t| :: t[i] >= 32
  {
    if s == [] then []
    else if |s| > 1 && HighSurrogate(s[0]) && LowSurrogate(s[1]) then [s[0], s[1]] + Escape(s[2..])
    else EscapeUnit(s[0]) + Escape(s[1..])
  }

  /** `JSON.stringify(s)` for a string. */
  function Quote(s: Text): (t: Text)
    ensures |t| >= 2 && t[0] == QUOTE && t[|t| - 1] == QUOTE
    ensures NL !in t
  {
    [QUOTE] + Escape(s) + [QUOTE]
  }

  // ----- parsing ---------------------------------------------------------

  function HexValue(u: Unit): (r: Option<nat>)
    ensures r.Some? ==> r.value < 16
  {
    if 48 <= u <= 57 then Some(u - 48)
    else if 65 <= u <= 70 then Some(u - 55)
    else if 97 <= u <= 102 then Some(u - 87)
    else None
  }

  function ParseHex4(t: Text): (r: Option<Unit>)
    requires |t| == 4
  {
    match (HexValue(t[0]), HexValue(t[1]), HexValue(t[2]), HexValue(t[3]))
    case (Some(a), Some(b), Some(c), Some(d)) => Some(a * 4096 + b * 256 + c * 16 + d)
    case _ => None
  }

  function SimpleEscape(u: Unit): (r: Option<Unit>) {
    if u == 34 || u == 92 || u == 47 then Some(u)
    else if u == 98 then Some(8)
    else if u == 102 then Some(12)
    else if u == 110 then Some(10)
    else if u == 114 then Some(13)
    else if u == 116 then Some(9)
    else None
  }

  function Prepend(u: Unit, r: Option<(Text, Text)>): Option<(Text, Text)> {
    match r
    case Some((v, rest)) => Some(([u] + v, rest))
    case None => None
  }

  /** Reads a literal after its opening quote: the value, and what follows the closing quote. */
  function ParseBody(t: Text): (r: Option<(Text, Text)>) {
    if t == [] || t[0] < 32 then None
    else if t[0] == QUOTE then Some(([], t[1..]))
    else if t[0] != 92 then Prepend(t[0], ParseBody(t[1..]))
    else if |t| < 2 then None
    else if t[1] == 117 then
      if |t| < 6 then None
      else match ParseHex4(t[2..6])
        case Some(u) => Prepend(u, ParseBody(t[6..]))
        case None => None
    else match SimpleEscape(t[1])
      case Some(u) => Prepend(u, ParseBody(t[2..]))
      case None => None
  }

  /** `JSON.parse(t)` when the result is a string; `None` when it is anything else or throws. */
  function ParseString(t: Text): (r: Option<Text>) {
    var s := DropLeft(t, JsonSpace);
    if s == [] || s[0] != QUOTE then None
    else match ParseBody(s[1..])
      case Some((v, rest)) => if forall i | 0 <= i < |rest| :: JsonSpace(rest[i]) then Some(v) else None
      case None => None
  }

  // ----- round trip ------------------------------------------------------

  lemma ParsePlain(u: Unit, x: Text)
    requires u >= 32 && u != 34 && u != 92
    ensures ParseBody([u] + x) == Prepend(u, ParseBody(x))
  {
    assert ([u] + x)[1..] == x;
  }

  lemma HexDigitValue(n: nat)
    requires n < 16
    ensures HexValue(HexDigit(n)) == Some(n)
  {}

  lemma HexRoundTrip(u: Unit)
    ensures ParseHex4([HexDigit(u / 4096), HexDigit(u / 256 % 16), HexDigit(u / 16 % 16), HexDigit(u % 16)]) == Some(u)
  {
    HexDigits(u / 4096, u / 256 % 16, u / 16 % 16, u % 16);
    HexSum(u);
  }

  lemma HexDigits(a: nat, b: nat, c: nat, d: nat)
    requires a < 16 && b < 16 && c < 16 && d < 16
    ensures ParseHex4([HexDigit(a), HexDigit(b), HexDigit(c), HexDigit(d)]) == Some(a * 4096 + b * 256 + c * 16 + d)
  {
    HexDigitValue(a);
    HexDigitValue(b);
    HexDigitValue(c);
    HexDigitValue(d);
  }

  lemma HexSum(u: nat)
    ensures u == u / 4096 * 4096 + u / 256 % 16 * 256 + u / 16 % 16 * 16 + u % 16
  {
    assert u / 256 == u / 16 / 16 && u / 4096 == u / 256 / 16;
  }

  lemma ParseHexEscape(u: Unit, x: Text)
    ensures ParseBody(HexEscape(u) + x) == Prepend(u, ParseBody(x))
  {
    var t := HexEscape(u) + x;
    assert t[2..6] == [HexDigit(u / 4096), HexDigit(u / 256 % 16), HexDigit(u / 16 % 16), HexDigit(u % 16)];
    assert t[6..] == x;
    HexRoundTrip(u);
  }

  lemma ParseEscapeUnit(u: Unit, x: Text)
    ensures ParseBody(EscapeUnit(u) + x) == Prepend(u, ParseBody(x))
  {
    var t := EscapeUnit(u) + x;
    if EscapeUnit(u) == HexEscape(u) {
      ParseHexEscape(u, x);
    } else if |EscapeUnit(u)| == 2 {
      assert t[2..] == x;
    } else {
      assert t[1..] == x;
    }
  }

  lemma ParsePair(s: Text, rest: Text, x: Text)
    requires |s| > 1 && HighSurrogate(s[0]) && LowSurrogate(s[1])
    requires ParseBody(rest) == Some((s[2..], x))
    ensures ParseBody([s[0], s[1]] + rest) == Some((s, x))
  {
    ParsePlain(s[1], rest);
    ParsePlain(s[0], [s[1]] + rest);
    assert [s[0], s[1]] + rest == [s[0]] + ([s[1]] + rest);
    assert s == [s[0]] + ([s[1]] + s[2..]);
  }

  lemma ParseOne(s: Text, rest: Text, x: Text)
    requires s != [] && ParseBody(rest) == Some((s[1..], x))
    ensures ParseBody(EscapeUnit(s[0]) + rest) == Some((s, x))
  {
    ParseEscapeUnit(s[0], rest);
    assert s == [s[0]] + s[1..];
  }

  /** Every string, lone surrogates included, is read back from its quoted form. */
  lemma {:induction false} ParseEscape(s: Text, x: Text)
    ensures ParseBody(Escape(s) + ([QUOTE] + x)) == Some((s, x))
  {
    var end := [QUOTE] + x;
    if s == [] {
      assert Escape(s) + end == end && end[1..] == x;
    } else if |s| > 1 && HighSurrogate(s[0]) && LowSurrogate(s[1]) {
      ParseEscape(s[2..], x);
      ParsePair(s, Escape(s[2..]) + end, x);
      Assoc([s[0], s[1]], Escape(s[2..]), end);
    } else {
      ParseEscape(s[1..], x);
      ParseOne(s, Escape(s[1..]) + end, x);
      Assoc(EscapeUnit(s[0]), Escape(s[1..]), end);
    }
  }

  lemma QuoteRoundTrip(s: Text)
    ensures ParseString(Quote(s)) == Some(s)
  {
    ParseEscape(s, []);
    assert Quote(s)[1..] == Escape(s) + ([QUOTE] + []);
  }

  lemma QuoteTail(s: Text, x: Text)
    ensures (Quote(s) + x)[1..] == Escape(s) + ([QUOTE] + x)
  {}

  /**
   How one unit is quoted: by the two-unit escape that names it, if there is one but
   for the slash; as itself, if it is printable and no surrogate; by its code otherwise.
   */
  lemma EscapeExact(u: Unit)
    ensures forall e: Unit :: SimpleEscape(e) == Some(u) && u != 47 ==> EscapeUnit(u) == [92, e]
    ensures u >= 32 && u != 34 && u != 92 && !(0xD800 <= u <= 0xDFFF) ==> EscapeUnit(u) == [u]
    ensures (u < 32 && forall e: Unit :: SimpleEscape(e) != Some(u)) || 0xD800 <= u <= 0xDFFF ==>
              EscapeUnit(u) == HexEscape(u)
    ensures forall i | 2 <= i < 6 :: Digit(HexEscape(u)[i]) || 97 <= HexEscape(u)[i] <= 102
  {
    if u == 8 { assert SimpleEscape(98) == Some(u); }
    if u == 9 { assert SimpleEscape(116) == Some(u); }
    if u == 10 { assert SimpleEscape(110) == Some(u); }
    if u == 12 { assert SimpleEscape(102) == Some(u); }
    if u == 13 { assert SimpleEscape(114) == Some(u); }
  }

  /** A quoted string says where it ends: no quoted string is a proper prefix of another. */
  lemma QuotePrefix(s: Text, x: Text, t: Text, y: Text)
    requires Quote(s) + x == Quote(t) + y
    ensures s == t && x == y
  {
    ParseEscape(s, x);
    ParseEscape(t, y);
    QuoteTail(s, x);
    QuoteTail(t, y);
  }
}
