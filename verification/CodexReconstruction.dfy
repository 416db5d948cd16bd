/**
 Reading a captured Codex prompt back, and the proof that it returns exactly the
 sections that were printed, whatever text their contents hold.
 */
module CodexReconstruction {
  import opened Texts
  import opened JsonText
  import opened CodexPrompt
  import opened Wrappers
  import Sorting

  const MARKER := CONTEXT_LINE + [NL]
  const END_MARKER := [NL, NL] + FINAL_LINE

  // ----- the header expression -------------------------------------------

  predicate NotSpace(u: Unit) { u != SPACE }

  /** Matches a literal and returns the rest. */
  function Expect(t: Text, lit: Text): (r: Option<Text>) {
    if StartsWith(t, lit) then Some(t[|lit|..]) else None
  }

  function Run(t: Text, p: Unit -> bool): (n: nat)
    ensures n <= |t|
    ensures forall i | 0 <= i < n :: p(t[i])
  {
    if t == [] || !p(t[0]) then 0 else 1 + Run(t[1..], p)
  }

  /** Matches `p+` greedily; what follows it in the header never satisfies `p`. */
  function Take(t: Text, p: Unit -> bool): (r: Option<(Text, Text)>)
    ensures r.Some? ==> forall i | 0 <= i < |r.value.0| :: p(r.value.0[i])
  {
    var n := Run(t, p);
    if n == 0 then None else Some((t[..n], t[n..]))
  }

  function TakePriority(t: Text): (r: Option<(Priority, Text)>) {
    if |t| < 2 || t[0] != 80 then None
    else if t[1] == 48 then Some((P0, t[2..]))
    else if t[1] == 49 then Some((P1, t[2..]))
    else if t[1] == 50 then Some((P2, t[2..]))
    else if t[1] == 51 then Some((P3, t[2..]))
    else None
  }

  /** Matches `(.*) ---$`. */
  function TakeSource(t: Text): (r: Option<Text>)
    ensures r.Some? ==> NoLineTerminator(r.value)
  {
    if |t| < |CLOSE| || t[|t| - |CLOSE|..] != CLOSE || !NoLineTerminator(t[..|t| - |CLOSE|]) then None
    else Some(t[..|t| - |CLOSE|])
  }

  datatype Head = Head(position: nat, itemType: Text, authority: Text, priority: Priority, sourceRef: Text)

  function ParseHeader(h: Text): (r: Option<Head>)
    ensures r.Some? ==> NoLineTerminator(r.value.sourceRef)
  {
    var t1 :- Expect(h, OPEN);
    var (digits, t2) :- Take(t1, Digit);
    var t3 :- Expect(t2, ITEM_TYPE);
    var (itemType, t4) :- Take(t3, NotSpace);
    var t5 :- Expect(t4, AUTHORITY);
    var (authority, t6) :- Take(t5, NotSpace);
    var t7 :- Expect(t6, PRIORITY);
    var (priority, t8) :- TakePriority(t7);
    var t9 :- Expect(t8, SOURCE);
    var sourceRef :- TakeSource(t9);
    Some(Head(DecValue(digits), itemType, authority, priority, sourceRef))
  }

  // ----- sections --------------------------------------------------------

  function NonEmpty(ls: seq<Text>): (r: seq<Text>) {
    if ls == [] then [] else (if ls[0] == [] then [] else [ls[0]]) + NonEmpty(ls[1..])
  }

  function ParseSegment(segment: Text): (r: Result<Segment, ReconstructionError>)
    ensures r.Ok? ==> NoLineTerminator(r.value.sourceRef)
  {
    var newline := IndexOf(segment, [NL], 0);
    if newline < 0 then Err(InvalidPromptSection)
    else
      var contentLines := NonEmpty(Split(segment[newline + 1..], NL));
      match ParseHeader(segment[..newline])
      case None => Err(InvalidPromptSection)
      case Some(h) =>
        if |contentLines| != 1 then Err(InvalidPromptSection)
        else match ParseString(contentLines[0])
          case None => Err(InvalidPromptContent)
          case Some(content) => Ok(Segment(h.position, h.itemType, h.authority, h.priority, h.sourceRef, content))
  }

  /** `body.split` at every newline that a section opening follows. */
  function SplitSections(body: Text): (r: seq<Text>)
    decreases |body|
  {
    var i := IndexOf(body, [NL] + OPEN, 0);
    if i < 0 then [body] else [body[..i]] + SplitSections(body[i + 1..])
  }

  function ParseSegments(parts: seq<Text>): (r: Result<seq<Segment>, ReconstructionError>) {
    if parts == [] then Ok([])
    else
      var first :- ParseSegment(parts[0]);
      var rest :- ParseSegments(parts[1..]);
      Ok([first] + rest)
  }

  predicate PlainSources(segments: seq<Segment>) { forall s | s in segments :: NoLineTerminator(s.sourceRef) }

  /** Whatever the parts are, the parsed source references hold no line terminator. */
  lemma {:induction false} ParsedPlain(parts: seq<Text>)
    requires ParseSegments(parts).Ok?
    ensures PlainSources(ParseSegments(parts).value) && |ParseSegments(parts).value| == |parts|
  {
    if parts != [] {
      ParsedPlain(parts[1..]);
      PlainCons(ParseSegment(parts[0]).value, ParseSegments(parts[1..]).value);
    }
  }

  lemma PlainCons(first: Segment, rest: seq<Segment>)
    requires NoLineTerminator(first.sourceRef) && PlainSources(rest)
    ensures PlainSources([first] + rest)
  {}

  lemma PromptPlain(prompt: Text)
    requires ParsePrompt(prompt).Ok?
    ensures PlainSources(ParsePrompt(prompt).value)
  {
    var start := IndexOf(prompt, MARKER, 0);
    ParsedPlain(SplitSections(Trim(prompt[start + |MARKER|..IndexOf(prompt, END_MARKER, start + |MARKER|)])));
  }

  function ParsePrompt(prompt: Text): (r: Result<seq<Segment>, ReconstructionError>) {
    var start := IndexOf(prompt, MARKER, 0);
    if start < 0 then Err(MissingContextSection)
    else
      var end := IndexOf(prompt, END_MARKER, start + |MARKER|);
      if end < 0 then Err(MissingContextSection)
      else
        var body := Trim(prompt[start + |MARKER|..end]);
        if body == [] then Err(MissingContextSection)
        else ParseSegments(SplitSections(body))
  }

  // ----- printed headers are read back -----------------------------------

  lemma ExpectOk(lit: Text, rest: Text)
    ensures Expect(lit + rest, lit) == Some(rest)
  {
    assert (lit + rest)[0..0 + |lit|] == lit;
    assert (lit + rest)[|lit|..] == rest;
  }

  lemma {:induction false} RunOk(w: Text, rest: Text, p: Unit -> bool)
    requires (forall i | 0 <= i < |w| :: p(w[i])) && (rest == [] || !p(rest[0]))
    ensures Run(w + rest, p) == |w|
  {
    if w == [] {
      assert w + rest == rest;
    } else {
      assert (w + rest)[1..] == w[1..] + rest;
      RunOk(w[1..], rest, p);
    }
  }

  lemma TakeOk(w: Text, rest: Text, p: Unit -> bool)
    requires w != [] && (forall i | 0 <= i < |w| :: p(w[i])) && rest != [] && !p(rest[0])
    ensures Take(w + rest, p) == Some((w, rest))
  {
    RunOk(w, rest, p);
    assert (w + rest)[..|w|] == w && (w + rest)[|w|..] == rest;
  }

  lemma TakePriorityOk(p: Priority, rest: Text)
    ensures TakePriority(PriorityText(p) + rest) == Some((p, rest))
  {
    assert (PriorityText(p) + rest)[2..] == rest;
  }

  lemma TakeSourceOk(src: Text)
    requires NoLineTerminator(src)
    ensures TakeSource(src + CLOSE) == Some(src)
  {
    var t := src + CLOSE;
    assert t[|t| - |CLOSE|..] == CLOSE && t[..|t| - |CLOSE|] == src;
  }

  predicate Word(t: Text) { t != [] && SPACE !in t && NL !in t }

  /** What the printer needs of an item for its section to be readable. */
  predicate Printable(item: Item) {
    Word(item.itemType) && Word(item.authority) && NoLineTerminator(item.sourceRef)
  }

  predicate AllPrintable(items: seq<Item>) { forall i | 0 <= i < |items| :: Printable(items[i]) }

  function HeadOf(item: Item): (h: Head) {
    Head(item.position, item.itemType, item.authority, item.priority, item.sourceRef)
  }

  lemma Spaced()
    ensures ITEM_TYPE != [] && ITEM_TYPE[0] == SPACE && AUTHORITY != [] && AUTHORITY[0] == SPACE
    ensures PRIORITY != [] && PRIORITY[0] == SPACE
  {
    assert ITEM_TYPE[0] == 32 && AUTHORITY[0] == 32 && PRIORITY[0] == 32;
  }

  lemma HeaderRoundTrip(item: Item)
    requires Printable(item)
    ensures ParseHeader(Header(item)) == Some(HeadOf(item))
  {
    Spaced();
    var t9 := item.sourceRef + CLOSE;
    var t8 := SOURCE + t9;
    var t7 := PriorityText(item.priority) + t8;
    var t6 := PRIORITY + t7;
    var t5 := item.authority + t6;
    var t4 := AUTHORITY + t5;
    var t3 := item.itemType + t4;
    var t2 := ITEM_TYPE + t3;
    var t1 := Dec(item.position) + t2;
    ExpectOk(OPEN, t1);
    TakeOk(Dec(item.position), t2, Digit);
    DecRoundTrip(item.position);
    ExpectOk(ITEM_TYPE, t3);
    TakeOk(item.itemType, t4, NotSpace);
    ExpectOk(AUTHORITY, t5);
    TakeOk(item.authority, t6, NotSpace);
    ExpectOk(PRIORITY, t7);
    TakePriorityOk(item.priority, t8);
    ExpectOk(SOURCE, t9);
    TakeSourceOk(item.sourceRef);
  }

  // ----- one section -----------------------------------------------------

  lemma LabelsNoNewline()
    ensures NL !in OPEN && NL !in ITEM_TYPE && NL !in AUTHORITY && NL !in PRIORITY && NL !in SOURCE && NL !in CLOSE
  {
    LitFree("--- position=", '\n');
    LitFree(" itemType=", '\n');
    LitFree(" authority=", '\n');
    LitFree(" priority=", '\n');
    LitFree(" source=", '\n');
    LitFree(" ---", '\n');
  }

  lemma HeaderNoNewline(item: Item)
    requires Printable(item)
    ensures NL !in Header(item)
  {
    LabelsNoNewline();
    assert NL !in Dec(item.position);
    assert NL !in item.sourceRef;
    assert NL !in PriorityText(item.priority);
  }

  lemma FirstNewline(h: Text, rest: Text)
    requires NL !in h
    ensures IndexOf(h + ([NL] + rest), [NL], 0) == |h|
  {
    var t := h + ([NL] + rest);
    assert t[|h|..|h| + 1] == [NL];
    forall i | 0 <= i < |h| ensures !At(t, [NL], i) {
      assert t[i..i + 1][0] == h[i];
    }
    IndexOfIs(t, [NL], 0, |h|);
  }

  function SegmentOf(item: Item): (s: Segment) {
    Segment(item.position, item.itemType, item.authority, item.priority, item.sourceRef, item.resolvedContent)
  }

  lemma SegmentLines(h: Text, c: Text)
    requires NL !in h && NL !in c && c != []
    ensures IndexOf(h + ([NL] + c), [NL], 0) == |h|
    ensures (h + ([NL] + c))[..|h|] == h && NonEmpty(Split((h + ([NL] + c))[|h| + 1..], NL)) == [c]
  {
    FirstNewline(h, c);
    assert (h + ([NL] + c))[|h| + 1..] == c;
    SplitFree(c, NL);
    var one: seq<Text> := [c];
    assert one[1..] == [] && NonEmpty(one) == one;
  }

  lemma SectionRoundTrip(item: Item)
    requires Printable(item)
    ensures ParseSegment(Section(item)) == Ok(SegmentOf(item))
  {
    HeaderNoNewline(item);
    HeaderRoundTrip(item);
    QuoteRoundTrip(item.resolvedContent);
    SegmentParses(Header(item), Quote(item.resolvedContent), ParseHeader(Header(item)).value, item.resolvedContent);
  }

  lemma SegmentParses(h: Text, c: Text, head: Head, content: Text)
    requires NL !in h && NL !in c && c != [] && ParseHeader(h) == Some(head) && ParseString(c) == Some(content)
    ensures ParseSegment(h + ([NL] + c)) ==
            Ok(Segment(head.position, head.itemType, head.authority, head.priority, head.sourceRef, content))
  {
    SegmentLines(h, c);
  }

  // ----- all sections ----------------------------------------------------

  /** The sections joined by newlines, which is what lies between the two markers. */
  function Body(items: seq<Item>): (t: Text)
    requires items != []
  {
    Section(items[0]) + Sections(items[1..])
  }

  function SectionTexts(items: seq<Item>): (r: seq<Text>) {
    if items == [] then [] else [Section(items[0])] + SectionTexts(items[1..])
  }

  lemma OpenUnits()
    ensures |OPEN| == 13 && OPEN[0] == 45
  {
    assert OPEN[0] == 45;
  }

  lemma SectionOpens(item: Item, rest: Text)
    ensures At(Section(item) + rest, OPEN, 0)
    ensures Section(item) != [] && Section(item)[0] == 45
    ensures Section(item)[|Section(item)| - 1] == QUOTE
  {
    OpenUnits();
    assert (Section(item) + rest)[0..0 + |OPEN|] == OPEN;
  }

  /** Inside a section no newline is followed by a section opening. */
  lemma NoBreakInSection(item: Item, rest: Text, i: nat)
    requires Printable(item) && i < |Section(item)|
    ensures !At(Section(item) + rest, [NL] + OPEN, i)
  {
    HeaderNoNewline(item);
    NoBreakInLines(Header(item), Quote(item.resolvedContent), rest, i);
  }

  lemma NoBreakInLines(h: Text, c: Text, rest: Text, i: nat)
    requires NL !in h && NL !in c && c != [] && c[0] == QUOTE && i < |h| + 1 + |c|
    ensures !At(h + ([NL] + c) + rest, [NL] + OPEN, i)
  {
    var t := h + ([NL] + c) + rest;
    OpenUnits();
    if i == |h| {
      assert t[|h| + 1] == QUOTE;
      NotAt(t, [NL] + OPEN, i, 1);
    } else {
      assert t[i] == if i < |h| then h[i] else c[i - |h| - 1];
      NotAt(t, [NL] + OPEN, i, 0);
    }
  }

  lemma SplitStep(s: Text, next: Text)
    requires At(next, OPEN, 0)
    requires forall i | 0 <= i < |s| :: !At(s + ([NL] + next), [NL] + OPEN, i)
    ensures SplitSections(s + ([NL] + next)) == [s] + SplitSections(next)
  {
    var t := s + ([NL] + next);
    BreakAt(s, next, OPEN);
    IndexOfIs(t, [NL] + OPEN, 0, |s|);
    assert t[..|s|] == s && t[|s| + 1..] == next;
  }

  lemma BreakAt(s: Text, next: Text, open: Text)
    requires At(next, open, 0)
    ensures At(s + ([NL] + next), [NL] + open, |s|)
  {
    var t := s + ([NL] + next);
    assert t[|s|..|s| + 1 + |open|] == [NL] + next[0..0 + |open|];
  }

  lemma {:induction false} SplitBody(items: seq<Item>)
    requires items != [] && AllPrintable(items)
    ensures SplitSections(Body(items)) == SectionTexts(items)
  {
    var s, rest := Section(items[0]), Sections(items[1..]);
    forall i | 0 <= i < |s| ensures !At(s + rest, [NL] + OPEN, i) {
      NoBreakInSection(items[0], rest, i);
    }
    if |items| == 1 {
      assert items[1..] == [] && s + rest == s;
      assert forall i | |s| <= i :: !At(s, [NL] + OPEN, i);
    } else {
      var next := items[1..];
      assert rest == [NL] + Body(next);
      SectionOpens(next[0], Sections(next[1..]));
      SplitStep(s, Body(next));
      SplitBody(next);
    }
  }

  function SegmentsOf(items: seq<Item>): (r: seq<Segment>)
    ensures |r| == |items| && forall i | 0 <= i < |items| :: r[i] == SegmentOf(items[i])
  {
    if items == [] then [] else [SegmentOf(items[0])] + SegmentsOf(items[1..])
  }

  lemma {:induction false} ParseSections(items: seq<Item>)
    requires AllPrintable(items)
    ensures ParseSegments(SectionTexts(items)) == Ok(SegmentsOf(items))
  {
    if items != [] {
      SectionRoundTrip(items[0]);
      ParseSections(items[1..]);
      assert SectionTexts(items)[1..] == SectionTexts(items[1..]);
    }
  }

  // ----- finding the start of the context --------------------------------

  lemma MarkerUnits()
    ensures |MARKER| == 36 && NL !in CONTEXT_LINE && MARKER[0] == 70 && MARKER[34] == 58 && MARKER[35] == NL
  {
    LitFree("Frozen context (in position order):", '\n');
    assert CONTEXT_LINE[0] == 70 && CONTEXT_LINE[34] == 58;
  }

  /** No newline of `s` follows a colon or opens `s`. */
  ghost predicate NewlineSafe(s: Text) {
    forall k | 0 <= k < |s| && s[k] == NL :: k > 0 && s[k - 1] != 58
  }

  /** No occurrence of the marker starts in a newline-safe stretch that ends in a newline. */
  lemma NoMarkerInSafe(a: Text, s: Text, b: Text, i: nat)
    requires NewlineSafe(s) && s != [] && s[|s| - 1] == NL
    requires |a| <= i < |a| + |s|
    ensures !At(a + s + b, MARKER, i)
  {
    var t := a + s + b;
    MarkerUnits();
    var end := |a| + |s| - 1;
    assert t[end] == NL;
    if i + 36 > |t| {
      NotAt(t, MARKER, i, 0);
    } else if end < i + 35 {
      assert MARKER[end - i] == CONTEXT_LINE[end - i];
      NotAt(t, MARKER, i, end - i);
    } else if t[i + 35] != NL {
      NotAt(t, MARKER, i, 35);
    } else {
      assert t[i + 34] == s[i + 34 - |a|] && t[i + 35] == s[i + 35 - |a|];
      NotAt(t, MARKER, i, 34);
    }
  }

  lemma NoMarkerInWords(a: Text, s: Text, b: Text, i: nat)
    requires 70 !in s && |a| <= i < |a| + |s|
    ensures !At(a + s + b, MARKER, i)
  {
    var t := a + s + b;
    MarkerUnits();
    assert t[i] == s[i - |a|];
    NotAt(t, MARKER, i, 0);
  }

  lemma NoMarkerInCwd(a: Text, cwd: Text, b: Text, i: nat)
    requires |b| >= 2 && b[0] == DOT && b[1] == NL
    requires |a| <= i < |a| + |cwd| && !At(cwd, MARKER, i - |a|)
    ensures !At(a + cwd + b, MARKER, i)
  {
    var t := a + cwd + b;
    MarkerUnits();
    var c := |a| + |cwd|;
    assert t[c] == DOT && t[c + 1] == NL;
    if i + 36 > |t| {
      NotAt(t, MARKER, i, 0);
    } else if i + 36 <= c {
      assert cwd[i - |a|..i - |a| + 36] == t[i..i + 36];
    } else if i + 35 == c {
      NotAt(t, MARKER, i, 35);
    } else if i + 35 == c + 1 {
      NotAt(t, MARKER, i, 34);
    } else {
      assert MARKER[c + 1 - i] == CONTEXT_LINE[c + 1 - i];
      NotAt(t, MARKER, i, c + 1 - i);
    }
  }

  lemma NoMarkerInPreamble(a: Text, w: Text, cwd: Text, z: Text, x: Text, i: nat)
    requires NewlineSafe(a) && a != [] && a[|a| - 1] == NL && 70 !in w
    requires NewlineSafe(z) && |z| >= 2 && z[0] == DOT && z[1] == NL && z[|z| - 1] == NL
    requires !Contains(cwd, MARKER) && i < |a + w + cwd + z|
    ensures !At(a + w + cwd + z + x, MARKER, i)
  {
    var t := a + w + cwd + z + x;
    if i < |a| {
      assert t == [] + a + (w + cwd + z + x);
      NoMarkerInSafe([], a, w + cwd + z + x, i);
    } else if i < |a + w| {
      assert t == a + w + (cwd + z + x);
      NoMarkerInWords(a, w, cwd + z + x, i);
    } else if i < |a + w + cwd| {
      assert t == (a + w) + cwd + (z + x);
      NoMarkerInCwd(a + w, cwd, z + x, i);
    } else {
      assert t == (a + w + cwd) + z + x;
      NoMarkerInSafe(a + w + cwd, z, x, i);
    }
  }

  lemma SafeAppend(a: Text, b: Text)
    requires NewlineSafe(a) && NewlineSafe(b)
    ensures NewlineSafe(a + b)
  {
    forall k | 0 <= k < |a + b| && (a + b)[k] == NL ensures k > 0 && (a + b)[k - 1] != 58 {
      if k >= |a| { assert b[k - |a|] == NL; }
    }
  }

  lemma CwdLineFree()
    ensures 70 !in CWD_LINE
  {
    LitFree("You are working in an ", 'F');
    LitFree("isolated Git worktree at ", 'F');
  }

  lemma SafetyLineFree()
    ensures NL !in SAFETY_LINE
  {
    LitFree("Safety policy: work only inside ", '\n');
    LitFree("the current directory; do not ", '\n');
    LitFree("commit, push, create or switch ", '\n');
    LitFree("branches, or leave this directory", '\n');
    LitFree("; never use sandbox/approval ", '\n');
    LitFree("bypass flags", '\n');
  }

  lemma RespondLineFree()
    ensures NL !in RESPOND_LINE
  {
    LitFree("Respond with exactly one JSON ", '\n');
    LitFree("object conforming to the provided ", '\n');
    LitFree("output schema as your final message", '\n');
  }

  lemma LinesSafe(r: Text, s: Text, m: Text)
    requires NL !in r && NL !in s && NL !in m
    ensures NewlineSafe(r + [DOT, NL])
    ensures NewlineSafe([DOT, NL] + s + [DOT, NL] + m + [DOT, NL, NL])
  {
    assert NewlineSafe(r) && NewlineSafe(s) && NewlineSafe(m) && NewlineSafe([DOT, NL]) && NewlineSafe([DOT, NL, NL]);
    SafeAppend(r, [DOT, NL]);
    SafeAppend([DOT, NL], s);
    SafeAppend([DOT, NL] + s, [DOT, NL]);
    SafeAppend([DOT, NL] + s + [DOT, NL], m);
    SafeAppend([DOT, NL] + s + [DOT, NL] + m, [DOT, NL, NL]);
  }

  lemma PreambleSafe(id: Text)
    requires NL !in id
    ensures NewlineSafe(REQUEST_LINE + id + [DOT, NL]) && 70 !in CWD_LINE && NewlineSafe(PreambleEnd())
  {
    LitFree("Canvas Agent execution request ", '\n');
    CwdLineFree();
    SafetyLineFree();
    RespondLineFree();
    LinesSafe(REQUEST_LINE + id, SAFETY_LINE, RESPOND_LINE);
  }

  /** What follows the preamble. */
  function Rest(items: seq<Item>): (t: Text) {
    CONTEXT_LINE + Sections(items) + ([NL, NL] + FINAL_LINE + [NL] + Trailer())
  }

  lemma PromptSplits(id: Text, items: seq<Item>, cwd: Text)
    ensures PromptText(id, items, cwd) == Preamble(id, cwd) + Rest(items)
  {
    PromptAssoc(Preamble(id, cwd), CONTEXT_LINE, Sections(items), [NL, NL] + FINAL_LINE + [NL] + Trailer());
  }

  lemma PromptAssoc(a: Text, b: Text, c: Text, d: Text)
    ensures a + b + c + d == a + (b + c + d)
  {}

  lemma RestOpens(items: seq<Item>)
    ensures At(Rest(items), MARKER, 0)
  {
    var s, tail := Sections(items), [NL, NL] + FINAL_LINE + [NL] + Trailer();
    assert (s + tail)[0] == NL;
    MarkerOpens(s, tail);
  }

  lemma MarkerOpens(s: Text, tail: Text)
    requires s + tail != [] && (s + tail)[0] == NL
    ensures At(CONTEXT_LINE + s + tail, MARKER, 0)
  {
    assert CONTEXT_LINE + s + tail == CONTEXT_LINE + (s + tail);
    assert (CONTEXT_LINE + (s + tail))[0..0 + |MARKER|] == MARKER;
  }

  lemma AtShift(a: Text, b: Text, pat: Text, i: nat)
    requires At(b, pat, i)
    ensures At(a + b, pat, |a| + i)
  {
    assert (a + b)[|a| + i..|a| + i + |pat|] == b[i..i + |pat|];
  }

  lemma MarkerInside(a: Text, cwd: Text, b: Text)
    requires Contains(cwd, MARKER)
    ensures 0 <= IndexOf(a + cwd + b, MARKER, 0) < |a| + |cwd|
  {
    var j :| At(cwd, MARKER, j);
    assert At(cwd + b, MARKER, j) by { assert (cwd + b)[j..j + |MARKER|] == cwd[j..j + |MARKER|]; }
    AtShift(a, cwd + b, MARKER, j);
    assert a + (cwd + b) == a + cwd + b;
    MarkerUnits();
  }

  /** The marker search stops at the printed context line exactly when the working directory does not hold it. */
  lemma StartFound(id: Text, items: seq<Item>, cwd: Text)
    requires NL !in id
    ensures IndexOf(PromptText(id, items, cwd), MARKER, 0) == |Preamble(id, cwd)| <==> !Contains(cwd, MARKER)
  {
    var a, z, t := REQUEST_LINE + id + [DOT, NL], PreambleEnd(), PromptText(id, items, cwd);
    PromptSplits(id, items, cwd);
    if !Contains(cwd, MARKER) {
      PreambleSafe(id);
      forall i | 0 <= i < |Preamble(id, cwd)| ensures !At(t, MARKER, i) {
        NoMarkerInPreamble(a, CWD_LINE, cwd, z, Rest(items), i);
      }
      RestOpens(items);
      AtShift(Preamble(id, cwd), Rest(items), MARKER, 0);
      IndexOfIs(t, MARKER, 0, |Preamble(id, cwd)|);
    } else {
      PromptAssoc(a + CWD_LINE, cwd, z, Rest(items));
      Assoc(a + CWD_LINE + cwd, z, Rest(items));
      MarkerInside(a + CWD_LINE, cwd, z + Rest(items));
    }
  }

  lemma NoMarkerBefore(a: Text, w: Text, b: Text, i: nat)
    requires NewlineSafe(a) && a != [] && a[|a| - 1] == NL && 70 !in w && i < |a| + |w|
    ensures !At(a + w + b, MARKER, i)
  {
    if i < |a| {
      assert a + w + b == [] + a + (w + b);
      NoMarkerInSafe([], a, w + b, i);
    } else {
      NoMarkerInWords(a, w, b, i);
    }
  }

  lemma FirstMarkerIs(a: Text, w: Text, b: Text)
    requires NewlineSafe(a) && a != [] && a[|a| - 1] == NL && 70 !in w && At(b, MARKER, 0)
    ensures IndexOf(a + w + b, MARKER, 0) == |a| + |w|
  {
    forall i | 0 <= i < |a| + |w| ensures !At(a + w + b, MARKER, i) {
      NoMarkerBefore(a, w, b, i);
    }
    AtShift(a + w, b, MARKER, 0);
    IndexOfIs(a + w + b, MARKER, 0, |a| + |w|);
  }

  lemma HiddenBody(front: Text, rest: Text)
    requires IndexOf(front + (MARKER + (END_MARKER + rest)), MARKER, 0) == |front|
    ensures ParsePrompt(front + (MARKER + (END_MARKER + rest))) == Err(MissingContextSection)
  {
    var t := front + (MARKER + (END_MARKER + rest));
    EndAtOnce(t, front, MARKER, END_MARKER, rest);
    ParseEmpty(t, |front|);
  }

  lemma EndAtOnce(t: Text, front: Text, m: Text, e: Text, rest: Text)
    requires t == front + (m + (e + rest))
    ensures IndexOf(t, e, |front| + |m|) == |front| + |m|
  {
    assert t[|front| + |m|..|front| + |m| + |e|] == e;
    IndexOfIs(t, e, |front| + |m|, |front| + |m|);
  }

  lemma ParseEmpty(t: Text, start: nat)
    requires IndexOf(t, MARKER, 0) == start && IndexOf(t, END_MARKER, start + |MARKER|) == start + |MARKER|
    ensures ParsePrompt(t) == Err(MissingContextSection)
  {
    assert t[start + |MARKER|..start + |MARKER|] == [];
    assert Trim([]) == [];
  }

  lemma HidingAssoc(a: Text, m: Text, e: Text, r: Text, z: Text)
    ensures a + (m + e + r) + z == a + (m + (e + (r + z)))
  {}

  /** The restriction on the working directory is needed: one that opens with both markers hides every section. */
  lemma CwdCanHideContext(id: Text, items: seq<Item>, rest: Text)
    requires NL !in id
    ensures ParsePrompt(PromptText(id, items, MARKER + END_MARKER + rest)) == Err(MissingContextSection)
  {
    var a, z, cwd := REQUEST_LINE + id + [DOT, NL], PreambleEnd(), MARKER + END_MARKER + rest;
    var tail := END_MARKER + (rest + (z + Rest(items)));
    PromptSplits(id, items, cwd);
    Assoc(a + CWD_LINE + cwd, z, Rest(items));
    HidingAssoc(a + CWD_LINE, MARKER, END_MARKER, rest, z + Rest(items));
    assert At(MARKER + tail, MARKER, 0) by { assert (MARKER + tail)[0..0 + |MARKER|] == MARKER; }
    PreambleSafe(id);
    FirstMarkerIs(a, CWD_LINE, MARKER + tail);
    HiddenBody(a + CWD_LINE, rest + (z + Rest(items)));
  }

  // ----- finding its end -------------------------------------------------

  /** No blank line: no two newlines in a row, none at either end. */
  ghost predicate NoBlank(t: Text) {
    t != [] && t[0] != NL && t[|t| - 1] != NL && forall k | 0 <= k < |t| - 1 :: t[k] != NL || t[k + 1] != NL
  }

  lemma NoBlankJoin(a: Text, b: Text)
    requires NoBlank(a) && NoBlank(b)
    ensures NoBlank(a + ([NL] + b))
  {
    var t := a + ([NL] + b);
    forall k | 0 <= k < |t| - 1 ensures t[k] != NL || t[k + 1] != NL {
      if k < |a| - 1 { assert t[k] == a[k] && t[k + 1] == a[k + 1]; }
      else if k > |a| { assert t[k] == b[k - |a| - 1] && t[k + 1] == b[k - |a|]; }
    }
  }

  lemma SectionNoBlank(item: Item)
    requires Printable(item)
    ensures NoBlank(Section(item))
  {
    HeaderNoNewline(item);
    OpenUnits();
    var h, c := Header(item), Quote(item.resolvedContent);
    assert NoBlank(h) && NoBlank(c);
    NoBlankJoin(h, c);
  }

  lemma {:induction false} BodyNoBlank(items: seq<Item>)
    requires items != [] && AllPrintable(items)
    ensures NoBlank(Body(items))
    ensures Body(items)[0] == 45 && Body(items)[|Body(items)| - 1] == QUOTE
  {
    SectionNoBlank(items[0]);
    SectionOpens(items[0], []);
    SectionEnds(items[0]);
    if |items| == 1 {
      assert items[1..] == [] && Body(items) == Section(items[0]);
    } else {
      BodyNoBlank(items[1..]);
      BodySplits(items);
      NoBlankJoin(Section(items[0]), Body(items[1..]));
      JoinedEnds(Section(items[0]), Body(items[1..]));
    }
  }

  lemma SectionEnds(item: Item)
    ensures Section(item) != [] && Section(item)[|Section(item)| - 1] == QUOTE
  {}

  lemma BodySplits(items: seq<Item>)
    requires |items| > 1
    ensures Body(items) == Section(items[0]) + ([NL] + Body(items[1..]))
  {
    assert Sections(items[1..]) == [NL] + Body(items[1..]);
  }

  lemma JoinedEnds(a: Text, b: Text)
    requires a != [] && b != []
    ensures (a + ([NL] + b))[0] == a[0] && (a + ([NL] + b))[|a| + |b|] == b[|b| - 1]
    ensures |a + ([NL] + b)| == |a| + |b| + 1
  {}

  lemma EndFound(front: Text, body: Text, tail: Text)
    requires NoBlank(body) && At(tail, END_MARKER, 0)
    ensures IndexOf(front + body + tail, END_MARKER, |front|) == |front| + |body|
  {
    var t := front + body + tail;
    assert END_MARKER[0] == NL && END_MARKER[1] == NL;
    AtShift(front + body, tail, END_MARKER, 0);
    forall i | |front| <= i < |front| + |body| ensures !At(t, END_MARKER, i) {
      var k := i - |front|;
      assert t[i] == body[k];
      if k + 1 < |body| && body[k] == NL {
        assert t[i + 1] == body[k + 1];
        NotAt(t, END_MARKER, i, 1);
      } else {
        NotAt(t, END_MARKER, i, 0);
      }
    }
    IndexOfIs(t, END_MARKER, |front|, |front| + |body|);
  }

  lemma TrimFixes(t: Text)
    requires t != [] && !JsSpace(t[0]) && !JsSpace(t[|t| - 1])
    ensures Trim(t) == t
  {}

  // ----- the whole prompt ------------------------------------------------

  lemma BodyBetween(front: Text, context: Text, sections: Text, body: Text, tail: Text)
    requires sections == [NL] + body
    ensures front + (context + sections + tail) == front + (context + [NL]) + body + tail
  {}

  lemma SectionsAreBody(items: seq<Item>)
    requires items != []
    ensures Sections(items) == [NL] + Body(items)
  {}

  lemma ParseBetween(front: Text, body: Text, tail: Text)
    requires NoBlank(body) && body[0] == 45 && body[|body| - 1] == QUOTE && At(tail, END_MARKER, 0)
    requires IndexOf(front + MARKER + body + tail, MARKER, 0) == |front|
    ensures ParsePrompt(front + MARKER + body + tail) == ParseSegments(SplitSections(body))
  {
    var t := front + MARKER + body + tail;
    EndFound(front + MARKER, body, tail);
    assert t[|front| + |MARKER|..|front| + |MARKER| + |body|] == body;
    TrimFixes(body);
  }

  lemma PromptShape(id: Text, items: seq<Item>, cwd: Text, tail: Text)
    requires items != [] && tail == [NL, NL] + FINAL_LINE + [NL] + Trailer()
    ensures PromptText(id, items, cwd) == Preamble(id, cwd) + MARKER + Body(items) + tail
  {
    PromptSplits(id, items, cwd);
    SectionsAreBody(items);
    BodyBetween(Preamble(id, cwd), CONTEXT_LINE, Sections(items), Body(items), tail);
  }

  lemma PromptParses(id: Text, items: seq<Item>, cwd: Text)
    requires NL !in id && !Contains(cwd, MARKER) && items != []
    requires NoBlank(Body(items)) && Body(items)[0] == 45 && Body(items)[|Body(items)| - 1] == QUOTE
    ensures ParsePrompt(PromptText(id, items, cwd)) == ParseSegments(SplitSections(Body(items)))
  {
    var tail := [NL, NL] + FINAL_LINE + [NL] + Trailer();
    StartFound(id, items, cwd);
    TailOpens(Trailer());
    PromptShape(id, items, cwd, tail);
    ParseBetween(Preamble(id, cwd), Body(items), tail);
  }

  /** Printing and parsing: every section comes back with its exact content, in order. */
  lemma PromptRoundTrip(id: Text, items: seq<Item>, cwd: Text)
    requires NL !in id && !Contains(cwd, MARKER)
    requires items != [] && AllPrintable(items)
    ensures ParsePrompt(PromptText(id, items, cwd)) == Ok(SegmentsOf(items))
  {
    BodyNoBlank(items);
    PromptParses(id, items, cwd);
    SplitBody(items);
    ParseSections(items);
  }

  lemma TailOpens(rest: Text)
    ensures At([NL, NL] + FINAL_LINE + [NL] + rest, END_MARKER, 0)
  {
    var tail := [NL, NL] + FINAL_LINE + [NL] + rest;
    assert tail[0..0 + |END_MARKER|] == END_MARKER;
  }

  // ----- reconstruction --------------------------------------------------

  /** Verification-side provenance of one printed section. */
  datatype Trace = Trace(
    sourceId: Text,
    sourceVersionId: Text,
    representationId: Text,
    representationKind: Text,
    renderedHash: Text,
    position: nat,
    itemType: Text,
    authority: Text,
    priority: Priority,
    sourceRef: Text)

  datatype Entry = Entry(trace: Trace, role: Text, content: Text)

  const USER := Lit("user")

  /** `new Map(traces.map((trace) => [trace.position, trace]))`. */
  function TraceMap(traces: seq<Trace>): (m: map<nat, Trace>) {
    if traces == [] then map[] else map[traces[0].position := traces[0]] + TraceMap(traces[1..])
  }

  predicate DistinctPositions(traces: seq<Trace>) {
    traces == [] ||
    ((forall t | t in traces[1..] :: t.position != traces[0].position) && DistinctPositions(traces[1..]))
  }

  ghost predicate HasPosition(traces: seq<Trace>, p: nat) {
    exists t | t in traces :: t.position == p
  }

  lemma {:induction false} TraceMapKey(traces: seq<Trace>, p: nat)
    ensures p in TraceMap(traces) <==> HasPosition(traces, p)
  {
    if traces != [] {
      TraceMapKey(traces[1..], p);
      assert forall t :: t in traces <==> t == traces[0] || t in traces[1..];
    }
  }

  /** The map keeps every trace exactly when the positions are distinct. */
  lemma {:induction false} TraceMapSize(traces: seq<Trace>)
    ensures |TraceMap(traces)| <= |traces|
    ensures |TraceMap(traces)| == |traces| <==> DistinctPositions(traces)
  {
    if traces != [] {
      var first := traces[0].position;
      TraceMapSize(traces[1..]);
      TraceMapKey(traces[1..], first);
      assert HasPosition(traces[1..], first) <==> !(forall t | t in traces[1..] :: t.position != first);
      MapSize(first, traces[0], TraceMap(traces[1..]));
    }
  }

  lemma MapSize(p: nat, t: Trace, rest: map<nat, Trace>)
    ensures |map[p := t] + rest| == |rest| + (if p in rest then 0 else 1)
  {
    var m := map[p := t] + rest;
    assert m.Keys == {p} + rest.Keys;
    assert |m| == |m.Keys| && |rest| == |rest.Keys|;
    assert p in rest ==> m.Keys == rest.Keys;
  }

  lemma {:induction false} TraceMapLookup(traces: seq<Trace>, i: nat)
    requires DistinctPositions(traces) && i < |traces|
    ensures traces[i].position in TraceMap(traces) && TraceMap(traces)[traces[i].position] == traces[i]
  {
    if i > 0 {
      TraceMapLookup(traces[1..], i - 1);
    } else {
      TraceMapKey(traces[1..], traces[0].position);
    }
  }

  /** Traces at positions 0, 1, 2, ... have distinct positions. */
  lemma {:induction false} ContiguousDistinct(traces: seq<Trace>, first: nat)
    requires forall i | 0 <= i < |traces| :: traces[i].position == first + i
    ensures DistinctPositions(traces)
  {
    if traces != [] { ContiguousDistinct(traces[1..], first + 1); }
  }

  predicate Agrees(trace: Trace, s: Segment) {
    && trace.itemType == s.itemType && trace.authority == s.authority
    && trace.priority == s.priority && trace.sourceRef == s.sourceRef
  }

  /** The loop over the parsed segments, with the positions already seen. */
  function Collect(segments: seq<Segment>, traces: map<nat, Trace>, seen: set<nat>): (r: Result<seq<Entry>,
      ReconstructionError>)
    ensures r.Ok? ==> |r.value| == |segments|
  {
    if segments == [] then Ok([])
    else
      var s := segments[0];
      if s.position in seen then Err(DuplicatePromptPosition)
      else if s.position !in traces then Err(ExtraPromptSection)
      else if !Agrees(traces[s.position], s) then Err(PromptMetadataMismatch)
      else
        var rest :- Collect(segments[1..], traces, seen + {s.position});
        Ok([Entry(traces[s.position], USER, s.content)] + rest)
  }

  predicate PositionLe(a: Entry, b: Entry) { a.trace.position <= b.trace.position }

  function Reconstruct(prompt: Text, traces: seq<Trace>): (r: Result<seq<Entry>, ReconstructionError>) {
    var segments :- ParsePrompt(prompt);
    FromSegments(segments, traces)
  }

  function FromSegments(segments: seq<Segment>, traces: seq<Trace>): (r: Result<seq<Entry>, ReconstructionError>) {
    var byPosition := TraceMap(traces);
    if |byPosition| != |traces| then Err(DuplicateTracePosition)
    else
      var entries :- Collect(segments, byPosition, {});
      if |entries| != |traces| then Err(MissingPromptSection)
      else Ok(Sorting.Sort(entries, PositionLe))
  }

  function Positions(segments: seq<Segment>): (r: set<nat>) {
    if segments == [] then {} else {segments[0].position} + Positions(segments[1..])
  }

  /** `reconstructCodexModelVisibleContext`. */
  method ReconstructModelVisibleContext(prompt: Text, traces: seq<Trace>)
    returns (r: Result<seq<Entry>, ReconstructionError>)
    ensures r == Reconstruct(prompt, traces)
  {
    var parsed := ParsePrompt(prompt);
    if parsed.Err? { return Err(parsed.error); }
    var byPosition := TraceMap(traces);
    if |byPosition| != |traces| { return Err(DuplicateTracePosition); }
    var collected := CollectEntries(parsed.value, byPosition);
    if collected.Err? { return Err(collected.error); }
    if |collected.value| != |traces| { return Err(MissingPromptSection); }
    return Ok(Sorting.Sort(collected.value, PositionLe));
  }

  /** What `Collect` makes of the whole list, once `done` entries came of a first part. */
  function Continue(done: seq<Entry>, r: Result<seq<Entry>,
      ReconstructionError>): Result<seq<Entry>, ReconstructionError> {
    match r
    case Ok(rest) => Ok(done + rest)
    case Err(e) => Err(e)
  }

  lemma ContinueSteps(done: seq<Entry>, e: Entry, r: Result<seq<Entry>, ReconstructionError>)
    ensures Continue([], r) == r && Continue(done, Ok([])) == Ok(done)
    ensures Continue(done + [e], r) == Continue(done, Continue([e], r))
  {
    if r.Ok? {
      assert [] + r.value == r.value;
      assert done + [e] + r.value == done + ([e] + r.value);
    }
    assert done + [] == done;
  }

  /** Its loop over the segments. */
  method CollectEntries(segments: seq<Segment>, byPosition: map<nat, Trace>)
    returns (r: Result<seq<Entry>, ReconstructionError>)
    ensures r == Collect(segments, byPosition, {})
  {
    var seen: set<nat> := {};
    var entries: seq<Entry> := [];
    var i := 0;
    assert segments[0..] == segments;
    assert Continue([], Collect(segments, byPosition, {})) == Collect(segments, byPosition, {}) by {
      if Collect(segments, byPosition, {}).Ok? {
        var all := Collect(segments, byPosition, {}).value;
        assert [] + all == all;
      }
    }
    while i < |segments|
      invariant 0 <= i <= |segments|
      invariant Collect(segments, byPosition, {}) == Continue(entries, Collect(segments[i..], byPosition, seen))
    {
      var s := segments[i];
      assert segments[i..][0] == s && segments[i..][1..] == segments[i + 1..];
      if s.position in seen { return Err(DuplicatePromptPosition); }
      if s.position !in byPosition { return Err(ExtraPromptSection); }
      if !Agrees(byPosition[s.position], s) { return Err(PromptMetadataMismatch); }
      var e := Entry(byPosition[s.position], USER, s.content);
      ContinueSteps(entries, e, Collect(segments[i + 1..], byPosition, seen + {s.position}));
      seen := seen + {s.position};
      entries := entries + [e];
      i := i + 1;
    }
    assert segments[i..] == [] && entries + [] == entries;
    return Ok(entries);
  }

  // ----- printed contexts are reconstructed ------------------------------

  /** The sidecar of a printed bundle: one trace per item, in order. */
  ghost predicate Describes(traces: seq<Trace>, items: seq<Item>) {
    && |traces| == |items|
    && forall i | 0 <= i < |items| ::
         traces[i].position == items[i].position == i && Agrees(traces[i], SegmentOf(items[i]))
  }

  function EntriesOf(items: seq<Item>, traces: seq<Trace>): (r: seq<Entry>)
    requires |items| == |traces|
    ensures |r| == |items| && forall i | 0 <= i < |items| :: r[i] == Entry(traces[i], USER, items[i].resolvedContent)
  {
    if items == [] then [] else [Entry(traces[0], USER, items[0].resolvedContent)] + EntriesOf(items[1..], traces[1..])
  }

  lemma {:induction false} CollectPrinted(items: seq<Item>, traces: seq<Trace>, m: map<nat, Trace>, seen: set<nat>)
    requires |items| == |traces|
    requires forall i, j | 0 <= i < j < |items| :: items[i].position != items[j].position
    requires forall i | 0 <= i < |items| ::
      && items[i].position !in seen && items[i].position in m
      && m[items[i].position] == traces[i] && Agrees(traces[i], SegmentOf(items[i]))
    ensures Collect(SegmentsOf(items), m, seen) == Ok(EntriesOf(items, traces))
  {
    if items != [] {
      assert SegmentsOf(items)[1..] == SegmentsOf(items[1..]);
      CollectPrinted(items[1..], traces[1..], m, seen + {items[0].position});
    }
  }

  lemma DescribedMap(items: seq<Item>, traces: seq<Trace>)
    requires Describes(traces, items)
    ensures |TraceMap(traces)| == |traces|
    ensures forall i | 0 <= i < |items| :: i in TraceMap(traces) && TraceMap(traces)[i] == traces[i]
  {
    ContiguousDistinct(traces, 0);
    TraceMapSize(traces);
    forall i | 0 <= i < |items| ensures i in TraceMap(traces) && TraceMap(traces)[i] == traces[i] {
      TraceMapLookup(traces, i);
    }
  }

  lemma ReconstructPrinted(id: Text, items: seq<Item>, cwd: Text, traces: seq<Trace>)
    requires NL !in id && !Contains(cwd, MARKER)
    requires items != [] && AllPrintable(items) && Describes(traces, items)
    ensures Reconstruct(PromptText(id, items, cwd), traces) == Ok(EntriesOf(items, traces))
  {
    PromptRoundTrip(id, items, cwd);
    CollectDescribed(items, traces);
    ReconstructFrom(PromptText(id, items, cwd), traces, SegmentsOf(items), EntriesOf(items, traces));
  }

  lemma CollectDescribed(items: seq<Item>, traces: seq<Trace>)
    requires Describes(traces, items)
    ensures |TraceMap(traces)| == |traces| && |EntriesOf(items, traces)| == |traces|
    ensures Collect(SegmentsOf(items), TraceMap(traces), {}) == Ok(EntriesOf(items, traces))
    ensures Sorting.Sort(EntriesOf(items, traces), PositionLe) == EntriesOf(items, traces)
  {
    DescribedMap(items, traces);
    CollectPrinted(items, traces, TraceMap(traces), {});
    Sorting.SortFixes(EntriesOf(items, traces), PositionLe);
  }

  lemma ReconstructFrom(prompt: Text, traces: seq<Trace>, segments: seq<Segment>, entries: seq<Entry>)
    requires ParsePrompt(prompt) == Ok(segments) && |TraceMap(traces)| == |traces| == |entries|
    requires Collect(segments, TraceMap(traces), {}) == Ok(entries) && Sorting.Sort(entries, PositionLe) == entries
    ensures Reconstruct(prompt, traces) == Ok(entries)
  {}

  // ----- what any successful reconstruction implies ----------------------

  lemma {:induction false} CollectCovers(segments: seq<Segment>, m: map<nat, Trace>, seen: set<nat>)
    requires Collect(segments, m, seen).Ok? && PlainSources(segments)
    ensures Positions(segments) <= m.Keys && Positions(segments) !! seen && |Positions(segments)| == |segments|
    ensures forall p | p in Positions(segments) :: NoLineTerminator(m[p].sourceRef)
  {
    if segments != [] {
      CollectCovers(segments[1..], m, seen + {segments[0].position});
    }
  }

  lemma SubsetFills<T>(a: set<T>, b: set<T>)
    requires a <= b && |a| == |b|
    ensures a == b
  {
    assert b == a + (b - a);
    assert |b| == |a| + |b - a|;
  }

  /** Whatever was captured, reconstruction succeeds only for traces whose source references hold no line terminator. */
  lemma ReconstructNeedsPlainRefs(prompt: Text, traces: seq<Trace>)
    requires Reconstruct(prompt, traces).Ok?
    ensures forall i | 0 <= i < |traces| :: NoLineTerminator(traces[i].sourceRef)
  {
    var segments, m := ParsePrompt(prompt).value, TraceMap(traces);
    PromptPlain(prompt);
    CollectCovers(segments, m, {});
    SubsetFills(Positions(segments), m.Keys);
    TraceMapSize(traces);
    forall i | 0 <= i < |traces| ensures NoLineTerminator(traces[i].sourceRef) {
      TraceMapLookup(traces, i);
    }
  }

  /** A described bundle is reconstructed exactly when its source references hold no line terminator. */
  lemma ReconstructsExactly(id: Text, items: seq<Item>, cwd: Text, traces: seq<Trace>)
    requires NL !in id && !Contains(cwd, MARKER) && items != [] && Describes(traces, items)
    requires forall i | 0 <= i < |items| :: Word(items[i].itemType) && Word(items[i].authority)
    ensures Reconstruct(PromptText(id, items, cwd), traces).Ok? <==>
            forall i | 0 <= i < |items| :: NoLineTerminator(items[i].sourceRef)
    ensures Reconstruct(PromptText(id, items, cwd), traces).Ok? ==>
            Reconstruct(PromptText(id, items, cwd), traces) == Ok(EntriesOf(items, traces))
  {
    if Reconstruct(PromptText(id, items, cwd), traces).Ok? {
      ReconstructNeedsPlainRefs(PromptText(id, items, cwd), traces);
      assert forall i | 0 <= i < |items| :: items[i].sourceRef == traces[i].sourceRef;
    }
    if forall i | 0 <= i < |items| :: NoLineTerminator(items[i].sourceRef) {
      ReconstructPrinted(id, items, cwd, traces);
    }
  }
}
