/**
 The working directory is printed before the context, so one that holds the
 context marker moves the start of what is read back. This module settles exactly
 when that matters: prompts are read back for every bundle if and only if the
 working directory does not contain the marker.
 */
module CodexCwd {
  import opened Texts
  import opened CodexPrompt
  import opened CodexReconstruction
  import opened Wrappers

  /** A single-line working directory is safe. */
  lemma NewlineFreeCwd(cwd: Text)
    requires NL !in cwd
    ensures !Contains(cwd, MARKER)
  {
    MarkerUnits();
    forall i ensures !At(cwd, MARKER, i) {
      if 0 <= i { NotAt(cwd, MARKER, i, 35); }
    }
  }

  // ----- the shape of a prompt -------------------------------------------

  function Opening(id: Text): (t: Text) { REQUEST_LINE + id + [DOT, NL] }

  /** Everything printed before the working directory. */
  function BeforeCwd(id: Text): (t: Text) { Opening(id) + CWD_LINE }

  /** What stands between the working directory and the sections. */
  function Interlude(): (t: Text) { PreambleEnd() + CONTEXT_LINE }

  function Closing(): (t: Text) { [NL, NL] + FINAL_LINE + [NL] + Trailer() }

  lemma PromptAround(id: Text, items: seq<Item>, cwd: Text)
    ensures PromptText(id, items, cwd) == BeforeCwd(id) + cwd + (PreambleEnd() + Rest(items))
  {
    PromptSplits(id, items, cwd);
    Assoc(BeforeCwd(id) + cwd, PreambleEnd(), Rest(items));
  }

  // ----- a working directory can forge the context -----------------------

  lemma ForgedAssoc(f: Text, m: Text, b: Text, e: Text, r: Text, x: Text)
    ensures f + (m + b + e + r) + x == f + (m + (b + (e + (r + x))))
    ensures f + m + b + (e + (r + x)) == f + (m + (b + (e + (r + x))))
  {}

  lemma OpensWith(m: Text, x: Text)
    ensures At(m + x, m, 0)
  {
    assert (m + x)[0..0 + |m|] == m;
  }

  lemma ForgedParse(a: Text, w: Text, body: Text, tail: Text, t: Text)
    requires NewlineSafe(a) && a != [] && a[|a| - 1] == NL && 70 !in w && t == a + w + MARKER + body + tail
    requires NoBlank(body) && body[0] == 45 && body[|body| - 1] == QUOTE && At(tail, END_MARKER, 0)
    ensures ParsePrompt(t) == ParseSegments(SplitSections(body))
  {
    OpensWith(MARKER, body + tail);
    FirstMarkerIs(a, w, MARKER + (body + tail));
    Assoc(a + w, MARKER, body + tail);
    Assoc(a + w + MARKER, body, tail);
    ParseBetween(a + w, body, tail);
  }

  lemma ForgedFraming(id: Text, items: seq<Item>, body: Text, rest: Text, t: Text)
    returns (a: Text, w: Text, tail: Text)
    requires NL !in id && t == PromptText(id, items, MARKER + body + END_MARKER + rest)
    ensures NewlineSafe(a) && a != [] && a[|a| - 1] == NL && 70 !in w
    ensures t == a + w + MARKER + body + tail && At(tail, END_MARKER, 0)
  {
    var x := PreambleEnd() + Rest(items);
    a, w, tail := Opening(id), CWD_LINE, END_MARKER + (rest + x);
    PreambleSafe(id);
    PromptAround(id, items, MARKER + body + END_MARKER + rest);
    ForgedAssoc(BeforeCwd(id), MARKER, body, END_MARKER, rest, x);
    OpensWith(END_MARKER, rest + x);
  }

  lemma ForgedRead(t: Text, fake: seq<Item>, traces: seq<Trace>)
    requires fake != [] && AllPrintable(fake) && Describes(traces, fake)
    requires ParsePrompt(t) == ParseSegments(SplitSections(Body(fake)))
    ensures Reconstruct(t, traces) == Ok(EntriesOf(fake, traces))
  {
    SplitBody(fake);
    ParseSections(fake);
    CollectDescribed(fake, traces);
    ReconstructFrom(t, traces, SegmentsOf(fake), EntriesOf(fake, traces));
  }

  /**
   A working directory that carries a context of its own replaces the printed one:
   whatever the items are, the reader returns the forged contents as if printed.
   */
  lemma CwdCanForgeContext(id: Text, items: seq<Item>, fake: seq<Item>, rest: Text, traces: seq<Trace>, t: Text)
    requires NL !in id && fake != [] && AllPrintable(fake) && Describes(traces, fake)
    requires t == PromptText(id, items, MARKER + Body(fake) + END_MARKER + rest)
    ensures Reconstruct(t, traces) == Ok(EntriesOf(fake, traces))
  {
    BodyNoBlank(fake);
    ForgedPrompt(id, items, Body(fake), rest, t);
    ForgedRead(t, fake, traces);
  }

  lemma ForgedPrompt(id: Text, items: seq<Item>, body: Text, rest: Text, t: Text)
    requires NL !in id && NoBlank(body) && body[0] == 45 && body[|body| - 1] == QUOTE
    requires t == PromptText(id, items, MARKER + body + END_MARKER + rest)
    ensures ParsePrompt(t) == ParseSegments(SplitSections(body))
  {
    var a, w, tail := ForgedFraming(id, items, body, rest, t);
    ForgedParse(a, w, body, tail, t);
  }

  // ----- where reading starts --------------------------------------------

  lemma AtInside(a: Text, b: Text, c: Text, pat: Text, j: nat)
    requires At(b, pat, j)
    ensures At(a + b + c, pat, |a| + j)
  {
    assert (a + b + c)[|a| + j..|a| + j + |pat|] == b[j..j + |pat|];
  }

  /** Reading starts at the first marker of the working directory. */
  lemma StartInCwd(a: Text, w: Text, cwd: Text, x: Text, j: nat, t: Text)
    requires NewlineSafe(a) && a != [] && a[|a| - 1] == NL && 70 !in w && t == a + w + cwd + x
    requires j == IndexOf(cwd, MARKER, 0) && |x| >= 2 && x[0] == DOT && x[1] == NL
    ensures IndexOf(t, MARKER, 0) == |a + w| + j
  {
    var f := a + w;
    forall i | 0 <= i < |f| + j ensures !At(t, MARKER, i) {
      if i < |f| {
        Assoc(f, cwd, x);
        NoMarkerBefore(a, w, cwd + x, i);
      } else {
        NoMarkerInCwd(f, cwd, x, i);
      }
    }
    AtInside(f, cwd, x, MARKER, j);
    IndexOfIs(t, MARKER, 0, |f| + j);
  }

  // ----- an end marker before the sections -------------------------------

  /** An occurrence inside a common prefix is found in both texts. */
  lemma SameIndex(q: Text, x: Text, y: Text, pat: Text, from: nat)
    requires 0 <= IndexOf(q + x, pat, from) && IndexOf(q + x, pat, from) + |pat| <= |q|
    ensures IndexOf(q + y, pat, from) == IndexOf(q + x, pat, from)
  {
    var e := IndexOf(q + x, pat, from);
    InPrefix(q, x, y, pat, e);
    forall i | from <= i < e ensures !At(q + y, pat, i) {
      assert !At(q + x, pat, i);
      InPrefix(q, x, y, pat, i);
    }
    IndexOfIs(q + y, pat, from, e);
  }

  lemma InPrefix(q: Text, x: Text, y: Text, pat: Text, i: nat)
    requires i + |pat| <= |q|
    ensures At(q + x, pat, i) <==> At(q + y, pat, i)
  {
    assert (q + x)[i..i + |pat|] == q[i..i + |pat|] == (q + y)[i..i + |pat|];
  }

  lemma SameParse(t: Text, t': Text, start: nat, end: nat)
    requires IndexOf(t, MARKER, 0) == IndexOf(t', MARKER, 0) == start
    requires IndexOf(t, END_MARKER, start + |MARKER|) == IndexOf(t', END_MARKER, start + |MARKER|) == end
    requires end <= |t| && end <= |t'| && t[..end] == t'[..end]
    ensures ParsePrompt(t) == ParsePrompt(t')
  {
    var from := start + |MARKER|;
    assert t[from..end] == t[..end][from..] && t'[from..end] == t'[..end][from..];
  }

  // ----- no end marker before the sections -------------------------------

  lemma EndUnits()
    ensures |END_MARKER| == 28 && END_MARKER[0] == NL && END_MARKER[1] == NL
  {}

  /** No end marker starts in the last units of the context line. */
  lemma NoEndInContext(p: Text, x: Text, i: nat)
    requires x != [] && x[0] != NL && |p| + 8 < i < |p| + 36
    ensures !At(p + MARKER + x, END_MARKER, i)
  {
    var t := p + MARKER + x;
    MarkerUnits();
    EndUnits();
    if i == |p| + 35 {
      assert t[i + 1] == x[0];
      NotAt(t, END_MARKER, i, 1);
    } else {
      assert t[i] == CONTEXT_LINE[i - |p|];
      NotAt(t, END_MARKER, i, 0);
    }
  }

  /** Reading ends before the sections or right after them. */
  lemma EndBeforeOrAfter(p: Text, body: Text, tail: Text, from: nat)
    requires from <= |p| && NoBlank(body) && At(tail, END_MARKER, 0)
    ensures var e := IndexOf(p + MARKER + body + tail, END_MARKER, from);
            0 <= e && (e + |END_MARKER| <= |p + MARKER| || e == |p + MARKER| + |body|)
  {
    var q := p + MARKER;
    var t := q + body + tail;
    MarkerUnits();
    EndUnits();
    EndFound(q, body, tail);
    Assoc(q, body, tail);
    forall i | |p| + 8 < i < |p| + 36 ensures !At(t, END_MARKER, i) {
      NoEndInContext(p, body + tail, i);
    }
  }

  // ----- then the interlude is read as part of a section -----------------

  /** No newline of `s` ends it or is followed by a dash. */
  ghost predicate Unbroken(s: Text) {
    forall k | 0 <= k < |s| && s[k] == NL :: k + 1 < |s| && s[k + 1] != 45
  }

  lemma UnbrokenAppend(a: Text, b: Text)
    requires Unbroken(a) && Unbroken(b)
    ensures Unbroken(a + b)
  {
    var t := a + b;
    forall k | 0 <= k < |t| && t[k] == NL ensures k + 1 < |t| && t[k + 1] != 45 {
      if k < |a| { assert a[k] == NL; } else { assert b[k - |a|] == NL; }
    }
  }

  lemma UnbrokenLine(s: Text)
    requires NL !in s && s != [] && s[0] != 45
    ensures Unbroken([NL] + s) && Unbroken([NL] + ([NL] + s)) && Unbroken(s)
  {}

  /** The lines of the interlude after the working directory's own line. */
  function Lines(s: Text, r: Text, f: Text): (t: Text) {
    [DOT] + ([NL] + s) + [DOT] + ([NL] + r) + [DOT] + ([NL] + ([NL] + f))
  }

  lemma LinesUnbroken(s: Text, r: Text, f: Text)
    requires NL !in s && NL !in r && NL !in f && s != [] && r != [] && f != []
    requires s[0] != 45 && r[0] != 45 && f[0] != 45
    ensures Unbroken(Lines(s, r, f))
  {
    UnbrokenLine(s);
    UnbrokenLine(r);
    UnbrokenLine(f);
    UnbrokenAppend([DOT], [NL] + s);
    UnbrokenAppend([DOT] + ([NL] + s), [DOT]);
    UnbrokenAppend([DOT] + ([NL] + s) + [DOT], [NL] + r);
    UnbrokenAppend([DOT] + ([NL] + s) + [DOT] + ([NL] + r), [DOT]);
    UnbrokenAppend([DOT] + ([NL] + s) + [DOT] + ([NL] + r) + [DOT], [NL] + ([NL] + f));
  }

  lemma LinesRegroup(s: Text, r: Text, f: Text)
    ensures ([DOT, NL] + s + [DOT, NL] + r + [DOT, NL, NL]) + f == Lines(s, r, f)
  {}

  lemma InterludeLines()
    ensures Interlude() == Lines(SAFETY_LINE, RESPOND_LINE, CONTEXT_LINE) && Unbroken(Interlude())
    ensures NL !in RESPOND_LINE && RESPOND_LINE != [] && NL !in CONTEXT_LINE && CONTEXT_LINE != []
  {
    LinesRegroup(SAFETY_LINE, RESPOND_LINE, CONTEXT_LINE);
    SafetyLineFree();
    RespondLineFree();
    MarkerUnits();
    assert SAFETY_LINE[0] == 83 && RESPOND_LINE[0] == 82 && CONTEXT_LINE[0] == 70;
    LinesUnbroken(SAFETY_LINE, RESPOND_LINE, CONTEXT_LINE);
  }

  lemma {:induction false} NonEmptyCat(a: seq<Text>, b: seq<Text>)
    ensures NonEmpty(a + b) == NonEmpty(a) + NonEmpty(b)
  {
    if a == [] {
      assert a + b == b;
    } else {
      assert (a + b)[1..] == a[1..] + b;
      NonEmptyCat(a[1..], b);
    }
  }

  lemma LineCounts(s: Text)
    requires NL !in s && s != []
    ensures |NonEmpty(Split(s, NL))| == 1 && |NonEmpty(Split([NL] + s, NL))| == 1
  {
    SplitFree(s, NL);
    SplitCat([], NL, s);
    SplitFree([], NL);
    assert [] + [NL] + s == [NL] + s;
    assert [[], s][1..] == [s] && [s][1..] == [];
    assert NonEmpty([s]) == [s];
    assert [[]] + [s] == [[], s];
  }

  /** Two more lines after `g` make at least two content lines. */
  lemma ManyLines(g: Text, r: Text, f: Text)
    requires NL !in r && r != [] && NL !in f && f != []
    ensures |NonEmpty(Split(g + [NL] + (r + [NL] + ([NL] + f)), NL))| >= 2
  {
    SplitCat(r, NL, [NL] + f);
    SplitCat(g, NL, r + [NL] + ([NL] + f));
    NonEmptyCat(Split(r, NL), Split([NL] + f, NL));
    NonEmptyCat(Split(g, NL), Split(r, NL) + Split([NL] + f, NL));
    LineCounts(r);
    LineCounts(f);
  }

  lemma LinesTail(u: Text, s: Text, r: Text, f: Text)
    ensures u + Lines(s, r, f) == (u + [DOT] + [NL] + s + [DOT]) + [NL] + ((r + [DOT]) + [NL] + ([NL] + f))
  {}

  lemma SegmentTooLong(segment: Text, g: Text, r: Text, f: Text, i: nat)
    requires segment == g + [NL] + (r + [NL] + ([NL] + f)) && i < |g| && g[i] == NL
    requires NL !in r && r != [] && NL !in f && f != []
    ensures ParseSegment(segment).Err?
  {
    var n, rest := IndexOf(segment, [NL], 0), r + [NL] + ([NL] + f);
    NewlineAt(segment, g, rest, i);
    TailAfter(segment, g, rest, n);
    ManyLines(g[n + 1..], r, f);
    TooManyLines(segment, n);
  }

  lemma NewlineAt(segment: Text, g: Text, rest: Text, i: nat)
    requires segment == g + [NL] + rest && i < |g| && g[i] == NL
    ensures 0 <= IndexOf(segment, [NL], 0) <= i
  {
    assert segment[i..i + 1] == [g[i]];
    assert At(segment, [NL], i);
  }

  lemma TailAfter(segment: Text, g: Text, rest: Text, n: nat)
    requires segment == g + [NL] + rest && n < |g|
    ensures segment[n + 1..] == g[n + 1..] + [NL] + rest
  {}

  lemma TooManyLines(segment: Text, n: nat)
    requires n == IndexOf(segment, [NL], 0) && n < |segment| && |NonEmpty(Split(segment[n + 1..], NL))| >= 2
    ensures ParseSegment(segment).Err?
  {}

  /** Whatever precedes it, the interlude does not end a readable section. */
  lemma InterludeUnreadable(u: Text)
    ensures ParseSegment(u + Interlude()).Err?
  {
    var g := u + [DOT] + [NL] + SAFETY_LINE + [DOT];
    InterludeLines();
    LinesTail(u, SAFETY_LINE, RESPOND_LINE, CONTEXT_LINE);
    assert g[|u| + 1] == NL;
    SegmentTooLong(u + Interlude(), g, RESPOND_LINE + [DOT], CONTEXT_LINE, |u| + 1);
  }

  /** The first section break is inside `u` or right after the unbroken stretch. */
  lemma BreakBeforeOrAfter(t: Text, sep: Text, u: Text, m: Text, next: Text)
    requires t == u + m + ([NL] + next) && sep == [NL] + OPEN && Unbroken(m) && At(next, OPEN, 0)
    ensures 0 <= IndexOf(t, sep, 0) && (IndexOf(t, sep, 0) < |u| || IndexOf(t, sep, 0) == |u| + |m|)
  {
    BreakAt(u + m, next, OPEN);
    forall k | |u| <= k < |u| + |m| ensures !At(t, sep, k) {
      NoBreakIn(t, sep, u, m, [NL] + next, k);
    }
    IndexOutside(t, sep, |u|, |u| + |m|);
  }

  lemma NoBreakIn(t: Text, sep: Text, u: Text, m: Text, x: Text, k: nat)
    requires t == u + m + x && sep == [NL] + OPEN && Unbroken(m) && |u| <= k < |u| + |m|
    ensures !At(t, sep, k)
  {
    OpenUnits();
    assert t[k] == m[k - |u|];
    if t[k] == NL {
      assert t[k + 1] == m[k - |u| + 1];
      NotAt(t, sep, k, 1);
    } else {
      NotAt(t, sep, k, 0);
    }
  }

  lemma FirstPartFails(parts: seq<Text>, first: Text, rest: seq<Text>)
    requires parts == [first] + rest && (ParseSegment(first).Err? || ParseSegments(rest).Err?)
    ensures ParseSegments(parts).Err?
  {
    assert parts[1..] == rest;
  }

  lemma SliceAfter(u: Text, m: Text, x: Text, i: nat)
    requires i < |u|
    ensures (u + m + x)[i + 1..] == u[i + 1..] + m + x
  {}

  ghost predicate Unreadable(u: Text, m: Text) { ParseSegment(u + m).Err? }

  /** Nothing that ends with `m` is a readable section. */
  ghost predicate Stuck(m: Text) { forall u :: Unreadable(u, m) }

  lemma SectionsFrom(t: Text, i: nat)
    requires i == IndexOf(t, [NL] + OPEN, 0) && i < |t|
    ensures SplitSections(t) == [t[..i]] + SplitSections(t[i + 1..])
  {}

  lemma UpTo(u: Text, m: Text, x: Text)
    ensures (u + m + x)[..|u| + |m|] == u + m
  {}

  /** A body that runs over such a stretch cannot be parsed. */
  lemma {:induction false} OverrunSections(u: Text, m: Text, next: Text, t: Text)
    requires Stuck(m) && Unbroken(m) && At(next, OPEN, 0) && t == u + m + ([NL] + next)
    ensures ParseSegments(SplitSections(t)).Err?
    decreases |u|
  {
    var i := IndexOf(t, [NL] + OPEN, 0);
    BreakBeforeOrAfter(t, [NL] + OPEN, u, m, next);
    SectionsFrom(t, i);
    if i < |u| {
      SliceAfter(u, m, [NL] + next, i);
      OverrunSections(u[i + 1..], m, next, t[i + 1..]);
    } else {
      UpTo(u, m, [NL] + next);
      assert Unreadable(u, m);
    }
    FirstPartFails(SplitSections(t), t[..i], SplitSections(t[i + 1..]));
  }

  /** A body that runs over the lines between working directory and context cannot be parsed. */
  lemma InterludeFails(u: Text, next: Text)
    requires At(next, OPEN, 0)
    ensures ParseSegments(SplitSections(u + Interlude() + ([NL] + next))).Err?
  {
    InterludeStuck();
    OverrunSections(u, Interlude(), next, u + Interlude() + ([NL] + next));
  }

  lemma InterludeStuck()
    ensures Stuck(Interlude()) && Unbroken(Interlude())
  {
    InterludeLines();
    forall u ensures Unreadable(u, Interlude()) { InterludeUnreadable(u); }
  }

  lemma {:induction false} DropLeftStops(u: Text, x: Text) returns (u': Text)
    requires x != [] && !JsSpace(x[0])
    ensures DropLeft(u + x, JsSpace) == u' + x
  {
    if u == [] {
      assert u + x == x;
      u' := [];
    } else if JsSpace(u[0]) {
      assert (u + x)[1..] == u[1..] + x;
      u' := DropLeftStops(u[1..], x);
    } else {
      u' := u;
    }
  }

  lemma TrimBody(u: Text, m: Text, v: Text) returns (u': Text)
    requires m != [] && !JsSpace(m[0]) && v != [] && !JsSpace(v[|v| - 1])
    ensures Trim(u + m + v) == u' + m + v
  {
    Assoc(u, m, v);
    u' := DropLeftStops(u, m + v);
    Assoc(u', m, v);
    var t := u' + m + v;
    assert t[|t| - 1] == v[|v| - 1];
  }

  /** Printed sections: they open with a dash, end with a quote and hold no blank line. */
  ghost predicate Printed(body: Text) {
    NoBlank(body) && body[0] == 45 && body[|body| - 1] == QUOTE && At(body, OPEN, 0)
  }

  lemma BodyPrinted(items: seq<Item>)
    requires items != [] && AllPrintable(items)
    ensures Printed(Body(items))
  {
    BodyNoBlank(items);
    SectionOpens(items[0], Sections(items[1..]));
  }

  /** What is read between a marker in the working directory and the printed end cannot be parsed. */
  lemma OverrunFails(u: Text, m: Text, body: Text, v: Text)
    requires Stuck(m) && Unbroken(m) && m != [] && m[0] == DOT && Printed(body) && v == u + m + ([NL] + body)
    ensures Trim(v) != [] && ParseSegments(SplitSections(Trim(v))).Err?
  {
    var u' := TrimBody(u, m, [NL] + body);
    OverrunSections(u', m, body, u' + m + ([NL] + body));
  }

  lemma ParseFails(t: Text, start: nat, end: nat, body: Text)
    requires IndexOf(t, MARKER, 0) == start && IndexOf(t, END_MARKER, start + |MARKER|) == end
    requires start + |MARKER| <= end <= |t| && t[start + |MARKER|..end] == body && Trim(body) != []
    requires ParseSegments(SplitSections(Trim(body))).Err?
    ensures ParsePrompt(t).Err?
  {}

  // ----- prompts as framed texts -----------------------------------------

  /**
   What the printer puts around the working directory and the sections: two stretches
   before the directory, one after it, and what follows the sections.
   */
  datatype Frame = Frame(opening: Text, line: Text, after: Text, closing: Text)

  function Framed(f: Frame, cwd: Text, body: Text): (t: Text) {
    f.opening + f.line + cwd + f.after + MARKER + body + f.closing
  }

  ghost predicate FrameOk(f: Frame) {
    && NewlineSafe(f.opening) && f.opening != [] && f.opening[|f.opening| - 1] == NL && 70 !in f.line
    && |f.after| >= 2 && f.after[0] == DOT && f.after[1] == NL
    && Stuck(f.after + CONTEXT_LINE) && Unbroken(f.after + CONTEXT_LINE)
    && At(f.closing, END_MARKER, 0)
  }

  lemma StartAssoc(p: Text, z: Text, m: Text, b: Text, e: Text)
    ensures p + z + m + b + e == p + (z + (m + b + e))
  {}

  lemma FramedStart(f: Frame, cwd: Text, body: Text, j: nat, t: Text)
    requires FrameOk(f) && t == Framed(f, cwd, body) && j == IndexOf(cwd, MARKER, 0)
    ensures IndexOf(t, MARKER, 0) == |f.opening + f.line| + j
  {
    StartAssoc(f.opening + f.line + cwd, f.after, MARKER, body, f.closing);
    StartInCwd(f.opening, f.line, cwd, f.after + (MARKER + body + f.closing), j, t);
  }

  lemma OverrunSlice(t: Text, p: Text, cwd: Text, k: nat, z: Text, l: Text, body: Text, tail: Text)
    requires k <= |cwd| && t == p + cwd + z + (l + [NL]) + body + tail
    ensures |p| + k <= |p + cwd + z + (l + [NL])| + |body| <= |t|
    ensures t[|p| + k..|p + cwd + z + (l + [NL])| + |body|] == cwd[k..] + (z + l) + ([NL] + body)
  {}

  /** Reading that runs to the printed end fails. */
  lemma FramedOverrun(f: Frame, cwd: Text, body: Text, start: nat, k: nat, t: Text)
    requires FrameOk(f) && Printed(body) && t == Framed(f, cwd, body) && k <= |cwd|
    requires start + |MARKER| == |f.opening + f.line| + k && IndexOf(t, MARKER, 0) == start
    requires IndexOf(t, END_MARKER, start + |MARKER|) == |f.opening + f.line + cwd + f.after + MARKER| + |body|
    ensures ParsePrompt(t).Err?
  {
    var p, end := f.opening + f.line, |f.opening + f.line + cwd + f.after + MARKER| + |body|;
    OverrunSlice(t, p, cwd, k, f.after, CONTEXT_LINE, body, f.closing);
    OverrunFails(cwd[k..], f.after + CONTEXT_LINE, body, t[|p| + k..end]);
    ParseFails(t, start, end, t[|p| + k..end]);
  }

  /** When reading ends in a common prefix, what follows does not matter. */
  lemma RestIgnored(t: Text, t': Text, q: Text, x: Text, y: Text, start: nat)
    requires t == q + x && t' == q + y && IndexOf(t, MARKER, 0) == start == IndexOf(t', MARKER, 0)
    requires 0 <= IndexOf(t, END_MARKER, start + |MARKER|)
    requires IndexOf(t, END_MARKER, start + |MARKER|) + |END_MARKER| <= |q|
    ensures ParsePrompt(t') == ParsePrompt(t)
  {
    var from := start + |MARKER|;
    var e := IndexOf(t, END_MARKER, from);
    SameIndex(q, x, y, END_MARKER, from);
    PrefixOf(q, x, e);
    PrefixOf(q, y, e);
    SameParse(t, t', start, e);
  }

  lemma PrefixOf(q: Text, x: Text, e: nat)
    requires e <= |q|
    ensures (q + x)[..e] == q[..e]
  {}

  /** Reading that ends before the sections does not see them. */
  lemma FramedIgnored(f: Frame, cwd: Text, body: Text, other: Text, start: nat, t: Text, t': Text)
    requires t == Framed(f, cwd, body) && t' == Framed(f, cwd, other)
    requires IndexOf(t, MARKER, 0) == start == IndexOf(t', MARKER, 0)
    requires 0 <= IndexOf(t, END_MARKER, start + |MARKER|)
    requires IndexOf(t, END_MARKER, start + |MARKER|) + |END_MARKER| <= |f.opening + f.line + cwd + f.after + MARKER|
    ensures ParsePrompt(t') == ParsePrompt(t)
  {
    var q := f.opening + f.line + cwd + f.after + MARKER;
    Assoc(q, body, f.closing);
    Assoc(q, other, f.closing);
    RestIgnored(t, t', q, body + f.closing, other + f.closing, start);
  }

  lemma FramedMisread(f: Frame, cwd: Text, body: Text, other: Text, t: Text, t': Text)
    requires FrameOk(f) && Printed(body) && Contains(cwd, MARKER)
    requires t == Framed(f, cwd, body) && t' == Framed(f, cwd, other)
    ensures ParsePrompt(t).Err? || ParsePrompt(t') == ParsePrompt(t)
  {
    var i :| At(cwd, MARKER, i);
    var j, p := IndexOf(cwd, MARKER, 0), f.opening + f.line;
    var start := |p| + j;
    FramedStart(f, cwd, body, j, t);
    FramedStart(f, cwd, other, j, t');
    EndBeforeOrAfter(p + cwd + f.after, body, f.closing, start + |MARKER|);
    var e := IndexOf(t, END_MARKER, start + |MARKER|);
    if e + |END_MARKER| <= |p + cwd + f.after + MARKER| {
      FramedIgnored(f, cwd, body, other, start, t, t');
    } else {
      FramedOverrun(f, cwd, body, start, j + |MARKER|, t);
    }
  }

  function FrameOf(id: Text): (f: Frame) { Frame(Opening(id), CWD_LINE, PreambleEnd(), Closing()) }

  lemma FrameOfOk(id: Text)
    requires NL !in id
    ensures FrameOk(FrameOf(id))
  {
    PreambleSafe(id);
    InterludeStuck();
    TailOpens(Trailer());
  }

  lemma PromptFramed(id: Text, items: seq<Item>, cwd: Text)
    requires items != []
    ensures PromptText(id, items, cwd) == Framed(FrameOf(id), cwd, Body(items))
  {
    PromptShape(id, items, cwd, Closing());
  }

  /** A prompt whose working directory holds the marker is not read, or read the same for other sections. */
  lemma MisreadOrIgnored(id: Text, items: seq<Item>, others: seq<Item>, cwd: Text, t: Text, t': Text)
    requires NL !in id && Contains(cwd, MARKER) && items != [] && others != [] && AllPrintable(items)
    requires t == PromptText(id, items, cwd) && t' == PromptText(id, others, cwd)
    ensures ParsePrompt(t).Err? || ParsePrompt(t') == ParsePrompt(t)
  {
    PromptFramed(id, items, cwd);
    PromptFramed(id, others, cwd);
    FrameOfOk(id);
    BodyPrinted(items);
    FramedMisread(FrameOf(id), cwd, Body(items), Body(others), t, t');
  }

  // ----- the exact condition ---------------------------------------------

  ghost predicate ReadBack(id: Text, items: seq<Item>, cwd: Text, traces: seq<Trace>)
    requires |items| == |traces|
  {
    Reconstruct(PromptText(id, items, cwd), traces) == Ok(EntriesOf(items, traces))
  }

  lemma SameReading(t: Text, t': Text, traces: seq<Trace>)
    requires ParsePrompt(t).Err? || ParsePrompt(t') == ParsePrompt(t)
    ensures Reconstruct(t, traces).Err? || Reconstruct(t', traces) == Reconstruct(t, traces)
  {}

  /** With a marker in the working directory, no two bundles with the same traces are both read back. */
  lemma CwdConfuses(id: Text, items: seq<Item>, others: seq<Item>, cwd: Text, traces: seq<Trace>)
    requires NL !in id && Contains(cwd, MARKER)
    requires items != [] && others != [] && AllPrintable(items) && |items| == |others| == |traces|
    requires EntriesOf(items, traces) != EntriesOf(others, traces)
    ensures !(ReadBack(id, items, cwd, traces) && ReadBack(id, others, cwd, traces))
  {
    MisreadOrIgnored(id, items, others, cwd, PromptText(id, items, cwd), PromptText(id, others, cwd));
    SameReading(PromptText(id, items, cwd), PromptText(id, others, cwd), traces);
  }

  /** Every printable bundle is read back exactly from a prompt with this id and working directory. */
  ghost predicate AlwaysReadBack(id: Text, cwd: Text) {
    forall items, traces | items != [] && AllPrintable(items) && Describes(traces, items) ::
      ReadBack(id, items, cwd, traces)
  }

  function Sample(content: Text): (item: Item) { Item(0, [120], [], content, [], [120], P0, 0) }

  function SampleTrace(): (t: Trace) { Trace([], [], [], [], [], 0, [120], [120], P0, []) }

  lemma SampleDescribed(content: Text)
    ensures AllPrintable([Sample(content)]) && Describes([SampleTrace()], [Sample(content)])
    ensures EntriesOf([Sample(content)], [SampleTrace()])[0].content == content
  {}

  /** Prompts are read back for every bundle if and only if the working directory does not contain the marker. */
  lemma CwdDecides(id: Text, cwd: Text)
    requires NL !in id
    ensures AlwaysReadBack(id, cwd) <==> !Contains(cwd, MARKER)
  {
    if !Contains(cwd, MARKER) {
      forall items, traces | items != [] && AllPrintable(items) && Describes(traces, items)
        ensures ReadBack(id, items, cwd, traces)
      {
        ReconstructPrinted(id, items, cwd, traces);
      }
    } else {
      SampleDescribed([]);
      SampleDescribed([65]);
      SomeMisread(id, cwd, [Sample([])], [Sample([65])], [SampleTrace()]);
    }
  }

  lemma SomeMisread(id: Text, cwd: Text, one: seq<Item>, two: seq<Item>, traces: seq<Trace>)
    requires NL !in id && Contains(cwd, MARKER) && one != [] && two != []
    requires AllPrintable(one) && AllPrintable(two) && Describes(traces, one) && Describes(traces, two)
    requires EntriesOf(one, traces) != EntriesOf(two, traces)
    ensures !AlwaysReadBack(id, cwd)
  {
    CwdConfuses(id, one, two, cwd, traces);
    assert !ReadBack(id, one, cwd, traces) || !ReadBack(id, two, cwd, traces);
  }
}
