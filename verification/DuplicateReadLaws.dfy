/**
 What the duplicate-read policy drops, on the messages: which read pairs stand
 alone, and which of them go because a listed anchor says the same.
 */
module DuplicateReadLaws {
  import opened Wrappers
  import opened LiveLog
  import opened DuplicateRead

  // ----- relative paths --------------------------------------------------

  function JoinSlash(parts: seq<string>): (r: string) {
    if parts == [] then "" else if |parts| == 1 then parts[0] else parts[0] + ['/'] + JoinSlash(parts[1..])
  }

  /** The segments have no slash and, joined by slashes, are the path. */
  lemma {:induction false} SegmentsSplit(path: string)
    ensures JoinSlash(Segments(path)) == path && forall p | p in Segments(path) :: '/' !in p
  {
    if path != "" {
      SegmentsSplit(path[1..]);
      var rest := Segments(path[1..]);
      if path[0] == '/' {
        assert ([""] + rest)[1..] == rest;
      } else {
        assert ([[path[0]] + rest[0]] + rest[1..])[1..] == rest[1..];
      }
      assert path == [path[0]] + path[1..];
    }
  }

  // ----- read pairs ------------------------------------------------------

  /** The only thing the call message holds is a read of one relative path. */
  predicate IsReadCall(m: Message, id: Id) {
    && m.role == "assistant" && m.content.Array? && |m.content.elements| == 1 && m.content.elements[0].Object?
    && var b := m.content.elements[0].block;
       && b.kind == "toolCall" && b.name == "read" && b.id == Some(id)
       && b.argumentPath.Some? && RelativePath(b.argumentPath.value)
  }

  predicate PlainText(e: Element) { e.Object? && e.block.kind == "text" && e.block.text.Some? && e.block.plain }

  /** The result message is a read without error and holds only text. */
  predicate IsReadResult(m: Message, id: Id) {
    && m.role == "toolResult" && m.toolName == Some("read") && m.isError == Some(false) && m.toolCallId == Some(id)
    && m.content.Array? && m.content.elements != [] && forall e | e in m.content.elements :: PlainText(e)
  }

  /** The message calls a tool under this id, or is the result of such a call. */
  predicate Mentions(m: Message, id: Id) {
    || (exists b | b in Blocks(m.content) :: b.kind == "toolCall" && b.id == Some(id))
    || (m.role == "toolResult" && m.toolCallId == Some(id))
  }

  /** Messages `i` and `i + 1` are a read and its result, and no other message mentions the id. */
  predicate ReadPairAt(ms: seq<Message>, i: nat, id: Id) {
    && i + 1 < |ms| && IsReadCall(ms[i], id) && IsReadResult(ms[i + 1], id)
    && forall j | 0 <= j < |ms| && j != i && j != i + 1 :: !Mentions(ms[j], id)
  }

  // ----- counting mentions -----------------------------------------------

  lemma {:induction false} CountConcat(a: seq<Message>, b: seq<Message>, id: Id)
    ensures Count(a + b, id) == Count(a, id) + Count(b, id)
  {
    if b == [] {
      assert a + b == a;
    } else {
      assert (a + b)[..|a + b| - 1] == a + b[..|b| - 1];
      CountConcat(a, b[..|b| - 1], id);
    }
  }

  lemma {:induction false} BlockCountZero(bs: seq<Block>, id: Id)
    ensures BlockCount(bs, id) == 0 <==> !exists b | b in bs :: b.kind == "toolCall" && b.id == Some(id)
  {
    if bs != [] {
      BlockCountZero(bs[..|bs| - 1], id);
      assert bs == bs[..|bs| - 1] + [bs[|bs| - 1]];
    }
  }

  predicate Unmentioned(ms: seq<Message>, id: Id) { forall j | 0 <= j < |ms| :: !Mentions(ms[j], id) }

  lemma UnmentionedLast(ms: seq<Message>, id: Id)
    requires ms != []
    ensures Unmentioned(ms, id) <==> Unmentioned(ms[..|ms| - 1], id) && !Mentions(ms[|ms| - 1], id)
  {
    assert forall j | 0 <= j < |ms| - 1 :: ms[..|ms| - 1][j] == ms[j];
  }

  lemma MessageZero(m: Message, id: Id)
    ensures BlockCount(Blocks(m.content), id) + ResultCount(m, id) == 0 <==> !Mentions(m, id)
  {
    BlockCountZero(Blocks(m.content), id);
  }

  lemma CountLast(ms: seq<Message>, id: Id)
    requires ms != []
    ensures var m := ms[|ms| - 1];
            Count(ms, id) == Count(ms[..|ms| - 1], id) + (BlockCount(Blocks(m.content), id) + ResultCount(m, id))
  {}

  lemma {:induction false} CountZero(ms: seq<Message>, id: Id)
    ensures Count(ms, id) == 0 <==> Unmentioned(ms, id)
  {
    if ms != [] {
      CountZero(ms[..|ms| - 1], id);
      CountLast(ms, id);
      MessageZero(ms[|ms| - 1], id);
      UnmentionedLast(ms, id);
    }
  }

  lemma OneMessage(m: Message, id: Id)
    ensures Count([m], id) == BlockCount(Blocks(m.content), id) + ResultCount(m, id)
  {
    assert [m][..0] == [];
  }

  lemma CallCounts(m: Message, id: Id)
    requires IsReadCall(m, id)
    ensures Count([m], id) == 1 && Blocks(m.content) == [m.content.elements[0].block]
  {
    OneMessage(m, id);
    var bs := Blocks(m.content);
    assert m.content.elements[1..] == [];
    assert bs == [m.content.elements[0].block];
    assert bs[..0] == [];
  }

  lemma {:induction false} TextBlocks(es: seq<Element>)
    ensures (forall e | e in es :: PlainText(e)) <==>
            && |ObjectBlocks(es)| == |es|
            && forall b | b in ObjectBlocks(es) :: b.kind == "text" && b.text.Some? && b.plain
  {
    if es != [] {
      TextBlocks(es[1..]);
      assert es == [es[0]] + es[1..];
      var rest := ObjectBlocks(es[1..]);
      assert ObjectBlocks(es) == (if es[0].Object? then [es[0].block] else []) + rest;
      assert es[0] in es && forall e :: e in es <==> e == es[0] || e in es[1..];
      if es[0].Object? {
        var bs := [es[0].block] + rest;
        assert bs[0] in bs && forall b :: b in bs <==> b == es[0].block || b in rest;
      }
    }
  }

  lemma ResultIs(m: Message, id: Id)
    ensures IsReadResult(m, id) <==>
            && m.role == "toolResult" && m.toolName == Some("read") && m.isError == Some(false)
            && m.toolCallId == Some(id) && TextOnly(m.content)
    ensures IsReadResult(m, id) ==> Count([m], id) == 1
  {
    OneMessage(m, id);
    if m.content.Array? { TextBlocks(m.content.elements); }
    BlockCountZero(Blocks(m.content), id);
  }

  lemma Around(ms: seq<Message>, i: nat, id: Id)
    requires i + 1 < |ms|
    ensures Unmentioned(ms[..i], id) && Unmentioned(ms[i + 2..], id) <==>
            forall j | 0 <= j < |ms| && j != i && j != i + 1 :: !Mentions(ms[j], id)
  {
    assert forall j | 0 <= j < i :: ms[..i][j] == ms[j];
    assert forall j | i + 2 <= j < |ms| :: ms[i + 2..][j - i - 2] == ms[j];
  }

  lemma CountAround(ms: seq<Message>, i: nat, id: Id)
    requires i + 1 < |ms|
    ensures Count(ms, id) == Count(ms[..i], id) + Count([ms[i]], id) + Count([ms[i + 1]], id) + Count(ms[i + 2..], id)
  {
    var a, b := ms[..i], ms[i + 2..];
    assert ms == a + [ms[i]] + [ms[i + 1]] + b;
    CountConcat(a + [ms[i]] + [ms[i + 1]], b, id);
    CountConcat(a + [ms[i]], [ms[i + 1]], id);
    CountConcat(a, [ms[i]], id);
  }

  lemma PairCounts(ms: seq<Message>, i: nat, id: Id)
    requires i + 1 < |ms| && IsReadCall(ms[i], id) && IsReadResult(ms[i + 1], id)
    ensures Count(ms, id) == 2 <==> forall j | 0 <= j < |ms| && j != i && j != i + 1 :: !Mentions(ms[j], id)
  {
    CountAround(ms, i, id);
    CallCounts(ms[i], id);
    ResultIs(ms[i + 1], id);
    CountZero(ms[..i], id);
    CountZero(ms[i + 2..], id);
    Around(ms, i, id);
  }

  // ----- eligibility -----------------------------------------------------

  lemma CandidateExact(ms: seq<Message>, fp: Content -> string, i: nat, id: Id)
    requires i + 1 < |ms|
    ensures (Candidate(ms, fp, i).Some? && Candidate(ms, fp, i).value.id == id) <==> ReadPairAt(ms, i, id)
    ensures ReadPairAt(ms, i, id) ==> Candidate(ms, fp, i).value.mark == fp(ms[i + 1].content)
  {
    ResultIs(ms[i + 1], id);
    if IsReadCall(ms[i], id) {
      CallCounts(ms[i], id);
      if IsReadResult(ms[i + 1], id) { PairCounts(ms, i, id); }
    } else if CallId(ms[i]) == Some(id) {
      CallIs(ms[i], id);
    }
  }

  lemma CallIs(m: Message, id: Id)
    ensures IsReadCall(m, id) <==>
            && m.role == "assistant" && m.content.Array? && |m.content.elements| == 1 && |Blocks(m.content)| == 1
            && var b := Blocks(m.content)[0];
               b.kind == "toolCall" && b.name == "read" && b.id == Some(id)
               && b.argumentPath.Some? && RelativePath(b.argumentPath.value)
  {
    if m.content.Array? && |m.content.elements| == 1 { assert m.content.elements[1..] == []; }
  }

  /** A read pair of this id stands in the conversation and both its keys are targeted. */
  ghost predicate StandsAlone(o: Observation, id: Id) {
    InTarget(o.target, id) && exists i :: ReadPairAt(o.messages, i, id)
  }

  ghost predicate HasMark(o: Observation, fp: Content -> string, id: Id, mark: string) {
    InTarget(o.target, id) && exists i :: ReadPairAt(o.messages, i, id) && mark == fp(o.messages[i + 1].content)
  }

  lemma OnePair(ms: seq<Message>, i: nat, j: nat, id: Id)
    requires ReadPairAt(ms, i, id) && ReadPairAt(ms, j, id)
    ensures i == j
  {
    CallMentions(ms[i], id);
    CallMentions(ms[j], id);
  }

  lemma CallMentions(m: Message, id: Id)
    requires IsReadCall(m, id)
    ensures Mentions(m, id) && m.role != "toolResult"
  {
    CallCounts(m, id);
    assert Blocks(m.content)[0] in Blocks(m.content);
  }

  lemma {:induction false} EligibleIs(o: Observation, fp: Content -> string, n: nat, id: Id)
    requires n <= |Candidates(o.messages, fp)|
    ensures var eligible := Eligible(Candidates(o.messages, fp)[..n], o.target);
            && (id in eligible <==> InTarget(o.target, id) && exists i: nat | i < n :: ReadPairAt(o.messages, i, id))
            && (id in eligible ==>
                  forall i: nat | i < n && ReadPairAt(o.messages, i, id) ::
                    eligible[id] == fp(o.messages[i + 1].content))
  {
    if n > 0 {
      EligibleIs(o, fp, n - 1, id);
      EligibleStep(Candidates(o.messages, fp), o.target, n - 1);
      CandidateExact(o.messages, fp, n - 1, id);
      forall i: nat | i < n && ReadPairAt(o.messages, i, id) && ReadPairAt(o.messages, n - 1, id) ensures i == n - 1 {
        OnePair(o.messages, i, n - 1, id);
      }
    }
  }

  /** A read is eligible exactly when its pair stands alone and is targeted; its mark is that of the result. */
  lemma EligibleExact(o: Observation, fp: Content -> string, id: Id)
    ensures id in AllEligible(o, fp) <==> StandsAlone(o, id)
    ensures forall mark :: HasMark(o, fp, id, mark) <==> id in AllEligible(o, fp) && AllEligible(o, fp)[id] == mark
  {
    var n := |Candidates(o.messages, fp)|;
    EligibleIs(o, fp, n, id);
    assert Candidates(o.messages, fp)[..n] == Candidates(o.messages, fp);
    assert forall i: nat :: ReadPairAt(o.messages, i, id) ==> i < n;
  }

  // ----- what is dropped -------------------------------------------------

  /** No verification and no recent evidence needs the key, and it is committed. */
  predicate MayGo(o: Observation, known: set<Key>, k: Key) { k !in o.verification && k !in o.recent && k in known }

  /** The entry lists the read under an anchor with the same mark. */
  ghost predicate AnchoredBy(o: Observation, c: Context, e: Entry, id: Id) {
    && e in c.entries && id in e.duplicates
    && exists mark :: HasMark(o, c.fingerprint, id, mark) && HasMark(o, c.fingerprint, e.anchorCallId, mark)
  }

  predicate SameMark(eligible: map<Id, string>, c: Context, e: Entry, id: Id) {
    && e in c.entries && id in e.duplicates && id in eligible && e.anchorCallId in eligible
    && eligible[id] == eligible[e.anchorCallId]
  }

  lemma AnchoredIs(o: Observation, c: Context, e: Entry, id: Id)
    ensures AnchoredBy(o, c, e, id) <==> SameMark(AllEligible(o, c.fingerprint), c, e, id)
  {
    var eligible := AllEligible(o, c.fingerprint);
    EligibleExact(o, c.fingerprint, id);
    EligibleExact(o, c.fingerprint, e.anchorCallId);
    if SameMark(eligible, c, e, id) { assert HasMark(o, c.fingerprint, id, eligible[id]); }
  }

  /**
   A read is dropped exactly when an entry lists it under an anchor, both pairs
   stand alone and are targeted, their results have one fingerprint, and both its
   keys are committed and neither verification nor recent evidence.
   */
  lemma DroppedExact(o: Observation, c: Context, id: Id)
    ensures NewlyExcluded(o, c, ToolCall(id)) <==>
            && MayGo(o, c.known, ToolCall(id)) && MayGo(o, c.known, ToolResult(id))
            && exists e :: AnchoredBy(o, c, e, id)
    ensures NewlyExcluded(o, c, ToolCall(id)) <==> NewlyExcluded(o, c, ToolResult(id))
  {
    var eligible := AllEligible(o, c.fingerprint);
    ExcludedExactly(o, c, id);
    ExclusionIsPairwise(o, c, id);
    forall e ensures AnchoredBy(o, c, e, id) <==> SameMark(eligible, c, e, id) { AnchoredIs(o, c, e, id); }
    if NewlyExcluded(o, c, ToolCall(id)) {
      var i :| 0 <= i < |c.entries| && Drops(o, c.known, eligible, c.entries[i], id) && id in c.entries[i].duplicates;
      assert AnchoredBy(o, c, c.entries[i], id);
    }
    if e :| AnchoredBy(o, c, e, id) {
      var i :| 0 <= i < |c.entries| && c.entries[i] == e;
    }
  }

  // ----- the signals -----------------------------------------------------

  lemma {:induction false} PutFrom(m: seq<Signal>, k: Key, v: string, s: Signal)
    requires s in Put(m, k, v)
    ensures s in m || s == Superseded(k, v)
  {
    if m != [] && m[0].sourceKey != k {
      if s in Put(m[1..], k, v) { PutFrom(m[1..], k, v, s); }
    }
  }

  /** Each exclusion carries the reference of a drop of its pair. */
  lemma {:induction false} ExclusionFrom(drops: seq<Drop>, s: Signal)
    requires s in Exclusions(drops)
    ensures exists d | d in drops ::
              s.evidenceRef == d.evidenceRef && (s.sourceKey == ToolCall(d.id) || s.sourceKey == ToolResult(d.id))
  {
    var n := |drops| - 1;
    var d, before := drops[n], Exclusions(drops[..n]);
    PutFrom(Put(before, ToolCall(d.id), d.evidenceRef), ToolResult(d.id), d.evidenceRef, s);
    if s in Put(before, ToolCall(d.id), d.evidenceRef) { PutFrom(before, ToolCall(d.id), d.evidenceRef, s); }
    if s in before { ExclusionFrom(drops[..n], s); }
  }

  lemma {:induction false} EntryDropFrom(o: Observation, c: Context, eligible: map<Id, string>, e: Entry, n: nat,
      d: Drop)
    requires n <= |e.duplicates| && d in EntryDrops(o, c, eligible, e, n)
    ensures Drops(o, c.known, eligible, e, d.id) && d.id in e.duplicates
    ensures d.evidenceRef == c.reference(e, eligible[e.anchorCallId])
  {
    if d in EntryDrops(o, c, eligible, e, n - 1) { EntryDropFrom(o, c, eligible, e, n - 1, d); }
  }

  lemma {:induction false} DropFrom(o: Observation, c: Context, eligible: map<Id, string>, n: nat, d: Drop)
    returns (e: Entry)
    requires n <= |c.entries| && d in AllDrops(o, c, eligible, n)
    ensures e in c.entries && Drops(o, c.known, eligible, e, d.id) && d.id in e.duplicates
    ensures d.evidenceRef == c.reference(e, eligible[e.anchorCallId])
  {
    e := c.entries[n - 1];
    if d in EntryDrops(o, c, eligible, e, |e.duplicates|) {
      EntryDropFrom(o, c, eligible, e, |e.duplicates|, d);
    } else {
      e := DropFrom(o, c, eligible, n - 1, d);
    }
  }

  /** Every added signal supersedes a dropped key and refers to an entry that anchors its read. */
  lemma SignalExact(o: Observation, c: Context, i: nat) returns (e: Entry)
    requires |o.signals| <= i < |Policy(o, c).signals|
    ensures var s := Policy(o, c).signals[i];
            && NewlyExcluded(o, c, s.sourceKey) && !s.sourceKey.OtherKey? && AnchoredBy(o, c, e, s.sourceKey.id)
            && exists mark :: HasMark(o, c.fingerprint, e.anchorCallId, mark) && s.evidenceRef == c.reference(e, mark)
  {
    var ex, eligible := Exclusions(Dropped(o, c)), AllEligible(o, c.fingerprint);
    var s := Policy(o, c).signals[i];
    assert s == ex[i - |o.signals|];
    ExclusionFrom(Dropped(o, c), s);
    var d :| d in Dropped(o, c) && s.evidenceRef == d.evidenceRef
             && (s.sourceKey == ToolCall(d.id) || s.sourceKey == ToolResult(d.id));
    e := DropFrom(o, c, eligible, |c.entries|, d);
    EligibleExact(o, c.fingerprint, d.id);
    EligibleExact(o, c.fingerprint, e.anchorCallId);
    assert HasMark(o, c.fingerprint, d.id, eligible[d.id]);
    assert HasMark(o, c.fingerprint, e.anchorCallId, eligible[e.anchorCallId]);
    assert KeyIn(ex, s.sourceKey);
  }
}
