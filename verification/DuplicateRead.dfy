/**
 The duplicate-read removal policy: which isolated read pairs are eligible, which
 of them a duplicate scan may drop, and what the observation looks like after.
 The scanner's entries, the content fingerprint and the evidence reference are
 parameters.
 */
module DuplicateRead {
  import opened Wrappers
  import opened LiveLog

  /** A content block, by what the policy reads from it. `argumentPath`: the arguments
      are an object whose one key is a string `path`. `plain`: only `type` and `text`. */
  datatype Block = Block(
    kind: string, id: Option<Id>, name: string, argumentPath: Option<string>, text: Option<string>, plain: bool)

  datatype Element = Object(block: Block) | Primitive

  datatype Content = NotArray | Array(elements: seq<Element>)

  datatype Message = Message(
    role: string, content: Content, toolCallId: Option<Id>, toolName: Option<string>, isError: Option<bool>)

  datatype Entry = Entry(path: string, anchorCallId: Id, duplicates: seq<Id>)

  datatype Signal = Superseded(sourceKey: Key, evidenceRef: string)

  datatype Observation = Observation(
    messages: seq<Message>,
    target: seq<Key>,
    excluded: seq<Key>,
    verification: set<Key>,
    recent: set<Key>,
    signals: seq<Signal>)

  /** What the policy takes from elsewhere. */
  datatype Context = Context(
    known: set<Key>,
    entries: seq<Entry>,
    fingerprint: Content -> string,
    reference: (Entry, string) -> string)

  function Blocks(c: Content): (r: seq<Block>) {
    if c.NotArray? then [] else ObjectBlocks(c.elements)
  }

  function ObjectBlocks(es: seq<Element>): (r: seq<Block>)
    ensures |r| <= |es|
  {
    if es == [] then []
    else (if es[0].Object? then [es[0].block] else []) + ObjectBlocks(es[1..])
  }

  // ----- occurrences of a tool call id -----------------------------------

  function BlockCount(bs: seq<Block>, id: Id): (n: nat) {
    if bs == [] then 0
    else BlockCount(bs[..|bs| - 1], id) +
         (if bs[|bs| - 1].kind == "toolCall" && bs[|bs| - 1].id == Some(id) then 1 else 0)
  }

  function ResultCount(m: Message, id: Id): (n: nat) {
    if m.role == "toolResult" && m.toolCallId == Some(id) then 1 else 0
  }

  function Count(ms: seq<Message>, id: Id): (n: nat) {
    if ms == [] then 0
    else Count(ms[..|ms| - 1], id) + BlockCount(Blocks(ms[|ms| - 1].content), id) + ResultCount(ms[|ms| - 1], id)
  }

  function Get(counts: map<Id, nat>, id: Id): (n: nat) { if id in counts then counts[id] else 0 }

  method CountBlocks(counts: map<Id, nat>, bs: seq<Block>) returns (r: map<Id, nat>)
    ensures forall id :: Get(r, id) == Get(counts, id) + BlockCount(bs, id)
  {
    r := counts;
    for i := 0 to |bs|
      invariant forall id :: Get(r, id) == Get(counts, id) + BlockCount(bs[..i], id)
    {
      assert bs[..i + 1][..i] == bs[..i];
      if bs[i].kind == "toolCall" && bs[i].id.Some? {
        r := r[bs[i].id.value := Get(r, bs[i].id.value) + 1];
      }
    }
    assert bs[..|bs|] == bs;
  }

  /** The `idCounts` loop. */
  method CountIds(ms: seq<Message>) returns (r: map<Id, nat>)
    ensures forall id :: Get(r, id) == Count(ms, id)
  {
    r := map[];
    for i := 0 to |ms|
      invariant forall id :: Get(r, id) == Count(ms[..i], id)
    {
      assert ms[..i + 1][..i] == ms[..i];
      r := CountBlocks(r, Blocks(ms[i].content));
      if ms[i].role == "toolResult" && ms[i].toolCallId.Some? {
        r := r[ms[i].toolCallId.value := Get(r, ms[i].toolCallId.value) + 1];
      }
    }
    assert ms[..|ms|] == ms;
  }

  // ----- eligible pairs --------------------------------------------------

  function Segments(path: string): (r: seq<string>)
    ensures |r| >= 1
  {
    if path == "" then [""]
    else
      var rest := Segments(path[1..]);
      if path[0] == '/' then [""] + rest else [[path[0]] + rest[0]] + rest[1..]
  }

  predicate RelativePath(path: string) {
    path != "" && path[0] != '/' && '\\' !in path && "." !in Segments(path) && ".." !in Segments(path)
  }

  predicate TextOnly(c: Content) {
    && c.Array? && |Blocks(c)| == |c.elements| && Blocks(c) != []
    && forall b | b in Blocks(c) :: b.kind == "text" && b.text.Some? && b.plain
  }

  /** An isolated read call followed by its own successful text result. */
  predicate IsolatedRead(call: Message, result: Message, id: Id, count: nat) {
    && call.role == "assistant" && call.content.Array? && |call.content.elements| == 1
    && |Blocks(call.content)| == 1
    && (var b := Blocks(call.content)[0];
        b.kind == "toolCall" && b.name == "read" && b.id == Some(id)
        && b.argumentPath.Some? && RelativePath(b.argumentPath.value))
    && result.role == "toolResult" && result.toolName == Some("read") && result.isError == Some(false)
    && result.toolCallId == Some(id) && count == 2
    && TextOnly(result.content)
  }

  function CallId(m: Message): (r: Option<Id>) {
    var bs := Blocks(m.content);
    if bs == [] then None else bs[0].id
  }

  datatype Found = Found(id: Id, mark: string)

  /** The read pair at two adjacent messages, when it is eligible by itself. */
  function Candidate(ms: seq<Message>, fp: Content -> string, i: nat): (r: Option<Found>)
    requires i + 1 < |ms|
  {
    var id := CallId(ms[i]);
    if id.Some? && IsolatedRead(ms[i], ms[i + 1], id.value, Count(ms, id.value))
    then Some(Found(id.value, fp(ms[i + 1].content))) else None
  }

  /** The same with the counts looked up. */
  function CandidateBy(call: Message, result: Message, counts: map<Id, nat>,
      fp: Content -> string): (r: Option<Found>) {
    var id := CallId(call);
    if id.Some? && IsolatedRead(call, result, id.value, Get(counts, id.value))
    then Some(Found(id.value, fp(result.content))) else None
  }

  lemma CandidateAgrees(ms: seq<Message>, fp: Content -> string, i: nat, counts: map<Id, nat>)
    requires i + 1 < |ms| && forall id :: Get(counts, id) == Count(ms, id)
    ensures CandidateBy(ms[i], ms[i + 1], counts, fp) == Candidates(ms, fp)[i]
  {}

  function Candidates(ms: seq<Message>, fp: Content -> string): (r: seq<Option<Found>>) {
    seq(if ms == [] then 0 else |ms| - 1, i requires 0 <= i < |ms| - 1 => Candidate(ms, fp, i))
  }

  predicate InTarget(target: seq<Key>, id: Id) { ToolCall(id) in target && ToolResult(id) in target }

  /** The candidates whose pair is targeted, with their fingerprints. */
  function Eligible(found: seq<Option<Found>>, target: seq<Key>): (r: map<Id, string>) {
    if found == [] then map[]
    else
      var before, last := Eligible(found[..|found| - 1], target), found[|found| - 1];
      if last.Some? && InTarget(target, last.value.id) then before[last.value.id := last.value.mark] else before
  }

  function AllEligible(o: Observation, fp: Content -> string): (r: map<Id, string>) {
    Eligible(Candidates(o.messages, fp), o.target)
  }

  lemma EligibleStep(found: seq<Option<Found>>, target: seq<Key>, i: nat)
    requires i < |found|
    ensures Eligible(found[..i + 1], target) ==
            if found[i].Some? && InTarget(target, found[i].value.id)
            then Eligible(found[..i], target)[found[i].value.id := found[i].value.mark]
            else Eligible(found[..i], target)
  {
    assert found[..i + 1][..i] == found[..i];
  }

  /** The loop over adjacent messages. */
  method FindEligible(ms: seq<Message>, target: seq<Key>, fp: Content -> string) returns (eligible: map<Id, string>)
    ensures eligible == Eligible(Candidates(ms, fp), target)
  {
    var counts := CountIds(ms);
    eligible := map[];
    ghost var found := Candidates(ms, fp);
    var index := 0;
    while index + 1 < |ms|
      invariant index <= |found|
      invariant eligible == Eligible(found[..index], target)
    {
      EligibleStep(found, target, index);
      CandidateAgrees(ms, fp, index, counts);
      var pair := CandidateBy(ms[index], ms[index + 1], counts, fp);
      if pair.Some? && InTarget(target, pair.value.id) {
        eligible := eligible[pair.value.id := pair.value.mark];
      }
      index := index + 1;
    }
    assert found[..index] == found;
  }

  // ----- dropped duplicates ----------------------------------------------

  predicate Unprotected(o: Observation, known: set<Key>, k: Key) {
    k !in o.verification && k !in o.recent && k in known
  }

  /** The duplicate `id` of an entry may be dropped. */
  predicate Drops(o: Observation, known: set<Key>, eligible: map<Id, string>, e: Entry, id: Id) {
    && e.anchorCallId in eligible && id in eligible && eligible[id] == eligible[e.anchorCallId]
    && Unprotected(o, known, ToolCall(id)) && Unprotected(o, known, ToolResult(id))
  }

  datatype Drop = Drop(id: Id, evidenceRef: string)

  /** The drops of the first `n` duplicates of an entry. */
  function EntryDrops(o: Observation, c: Context, eligible: map<Id, string>, e: Entry, n: nat): (r: seq<Drop>)
    requires n <= |e.duplicates|
  {
    if n == 0 then []
    else
      EntryDrops(o, c, eligible, e, n - 1) +
      (if Drops(o, c.known, eligible, e, e.duplicates[n - 1])
       then [Drop(e.duplicates[n - 1], c.reference(e, eligible[e.anchorCallId]))] else [])
  }

  function AllDrops(o: Observation, c: Context, eligible: map<Id, string>, n: nat): (r: seq<Drop>)
    requires n <= |c.entries|
  {
    if n == 0 then []
    else AllDrops(o, c, eligible, n - 1) + EntryDrops(o, c, eligible, c.entries[n - 1], |c.entries[n - 1].duplicates|)
  }

  function Dropped(o: Observation, c: Context): (r: seq<Drop>) {
    AllDrops(o, c, AllEligible(o, c.fingerprint), |c.entries|)
  }

  /** The scanner loop. */
  method FindDrops(o: Observation, c: Context, eligible: map<Id, string>) returns (drops: seq<Drop>)
    ensures drops == AllDrops(o, c, eligible, |c.entries|)
  {
    drops := [];
    for i := 0 to |c.entries|
      invariant drops == AllDrops(o, c, eligible, i)
    {
      var e := c.entries[i];
      ghost var before := drops;
      if e.anchorCallId in eligible {
        for j := 0 to |e.duplicates|
          invariant drops == before + EntryDrops(o, c, eligible, e, j)
        {
          if Drops(o, c.known, eligible, e, e.duplicates[j]) {
            drops := drops + [Drop(e.duplicates[j], c.reference(e, eligible[e.anchorCallId]))];
          }
        }
      } else {
        NoAnchor(o, c, eligible, e, |e.duplicates|);
      }
    }
  }

  lemma {:induction false} NoAnchor(o: Observation, c: Context, eligible: map<Id, string>, e: Entry, n: nat)
    requires n <= |e.duplicates| && e.anchorCallId !in eligible
    ensures EntryDrops(o, c, eligible, e, n) == []
  {
    if n > 0 { NoAnchor(o, c, eligible, e, n - 1); }
  }

  // ----- the policy ------------------------------------------------------

  /** An insertion-ordered map entry per key: a later value replaces an earlier one in place. */
  function Put(m: seq<Signal>, k: Key, v: string): (r: seq<Signal>)
    ensures forall x :: KeyIn(r, x) <==> KeyIn(m, x) || x == k
  {
    if m == [] then assert forall x :: KeyIn([Superseded(k, v)], x) <==> x == k by { OneKey(Superseded(k, v)); }
      [Superseded(k, v)]
    else if m[0].sourceKey == k then
      KeyInCons(m[0], m[1..]);
      KeyInCons(Superseded(k, v), m[1..]);
      [Superseded(k, v)] + m[1..]
    else
      KeyInCons(m[0], m[1..]);
      KeyInCons(m[0], Put(m[1..], k, v));
      [m[0]] + Put(m[1..], k, v)
  }

  predicate KeyIn(m: seq<Signal>, k: Key) { exists i | 0 <= i < |m| :: m[i].sourceKey == k }

  lemma OneKey(s: Signal)
    ensures forall x :: KeyIn([s], x) <==> x == s.sourceKey
  {
    forall x ensures KeyIn([s], x) <==> x == s.sourceKey { assert [s][0] == s; }
  }

  lemma KeyInCons(s: Signal, m: seq<Signal>)
    ensures forall x :: KeyIn([s] + m, x) <==> x == s.sourceKey || KeyIn(m, x)
  {
    forall x ensures KeyIn([s] + m, x) <==> x == s.sourceKey || KeyIn(m, x) {
      assert ([s] + m)[0] == s;
      if KeyIn(m, x) {
        var i :| 0 <= i < |m| && m[i].sourceKey == x;
        assert ([s] + m)[i + 1] == m[i];
      }
    }
  }

  /** The `excluded` map: both keys of every dropped pair. */
  function Exclusions(drops: seq<Drop>): (r: seq<Signal>)
    ensures forall x :: KeyIn(r, x) <==> PairKey(drops, x)
  {
    if drops == [] then []
    else
      var d := drops[|drops| - 1];
      var r := Put(Put(Exclusions(drops[..|drops| - 1]), ToolCall(d.id), d.evidenceRef), ToolResult(d.id),
                   d.evidenceRef);
      PairKeyLast(drops);
      r
  }

  /** A key of some dropped pair. */
  predicate PairKey(drops: seq<Drop>, k: Key) {
    !k.OtherKey? && HasId(drops, k.id)
  }

  predicate HasId(drops: seq<Drop>, id: Id) { exists i | 0 <= i < |drops| :: drops[i].id == id }

  lemma PairKeyLast(drops: seq<Drop>)
    requires drops != []
    ensures var d := drops[|drops| - 1];
            forall x :: PairKey(drops, x) <==>
              PairKey(drops[..|drops| - 1], x) || x == ToolCall(d.id) || x == ToolResult(d.id)
  {
    var n := |drops| - 1;
    forall x
      ensures PairKey(drops, x) <==>
              PairKey(drops[..n], x) || x == ToolCall(drops[n].id) || x == ToolResult(drops[n].id)
    {
      if PairKey(drops[..n], x) {
        var i :| 0 <= i < n && drops[..n][i].id == x.id;
        assert drops[i].id == x.id;
      }
      if PairKey(drops, x) {
        var i :| 0 <= i < |drops| && drops[i].id == x.id;
        if i < n { assert drops[..n][i].id == x.id; }
      }
    }
  }

  function Without(s: seq<Key>, ex: seq<Signal>): (r: seq<Key>)
    ensures forall k :: k in r <==> k in s && !KeyIn(ex, k)
  {
    if s == [] then [] else (if KeyIn(ex, s[0]) then [] else [s[0]]) + Without(s[1..], ex)
  }

  /** `[...new Set(s)]` */
  function Dedup(s: seq<Key>): (r: seq<Key>)
    ensures forall k :: k in r <==> k in s
  {
    if s == [] then []
    else
      var r := Dedup(s[..|s| - 1]);
      assert forall k :: k in s <==> k in s[..|s| - 1] || k == s[|s| - 1];
      if s[|s| - 1] in r then r else r + [s[|s| - 1]]
  }

  function SignalKeys(m: seq<Signal>): (r: seq<Key>)
    ensures |r| == |m| && forall i | 0 <= i < |m| :: r[i] == m[i].sourceKey
  {
    seq(|m|, i requires 0 <= i < |m| => m[i].sourceKey)
  }

  function Exclude(o: Observation, ex: seq<Signal>): (r: Observation) {
    if ex == [] then o
    else o.(target := Without(o.target, ex), excluded := Dedup(o.excluded + SignalKeys(ex)), signals := o.signals + ex)
  }

  function Policy(o: Observation, c: Context): (r: Observation) { Exclude(o, Exclusions(Dropped(o, c))) }

  /** `applyC1DuplicateReadPolicy` */
  method ApplyDuplicateReadPolicy(o: Observation, c: Context) returns (r: Observation)
    ensures r == Policy(o, c)
  {
    var eligible := FindEligible(o.messages, o.target, c.fingerprint);
    var drops := FindDrops(o, c, eligible);
    var excluded: seq<Signal> := [];
    for i := 0 to |drops|
      invariant excluded == Exclusions(drops[..i])
    {
      assert drops[..i + 1][..i] == drops[..i];
      excluded := Put(excluded, ToolCall(drops[i].id), drops[i].evidenceRef);
      excluded := Put(excluded, ToolResult(drops[i].id), drops[i].evidenceRef);
    }
    assert drops[..|drops|] == drops;
    return Exclude(o, excluded);
  }

  // ----- what the policy guarantees --------------------------------------

  /** The keys the policy newly excludes. */
  predicate NewlyExcluded(o: Observation, c: Context, k: Key) { KeyIn(Exclusions(Dropped(o, c)), k) }

  lemma IdAppend(a: seq<Drop>, b: seq<Drop>, id: Id)
    ensures HasId(a + b, id) <==> HasId(a, id) || HasId(b, id)
  {
    if HasId(a, id) {
      var i :| 0 <= i < |a| && a[i].id == id;
      assert (a + b)[i].id == id;
    }
    if HasId(b, id) {
      var i :| 0 <= i < |b| && b[i].id == id;
      assert (a + b)[|a| + i].id == id;
    }
  }

  lemma {:induction false} EntryDropsExact(o: Observation, c: Context, eligible: map<Id, string>, e: Entry, n: nat,
      id: Id)
    requires n <= |e.duplicates|
    ensures HasId(EntryDrops(o, c, eligible, e, n), id) <==>
            Drops(o, c.known, eligible, e, id) && id in e.duplicates[..n]
  {
    if n > 0 {
      var last := e.duplicates[n - 1];
      EntryDropsExact(o, c, eligible, e, n - 1, id);
      assert e.duplicates[..n] == e.duplicates[..n - 1] + [last];
      if Drops(o, c.known, eligible, e, last) {
        var d := Drop(last, c.reference(e, eligible[e.anchorCallId]));
        IdAppend(EntryDrops(o, c, eligible, e, n - 1), [d], id);
        assert HasId([d], id) <==> id == last by { assert [d][0] == d; }
      } else {
        assert EntryDrops(o, c, eligible, e, n) == EntryDrops(o, c, eligible, e, n - 1);
      }
    }
  }

  /** Some entry among the first `n` drops this id. */
  predicate Droppable(o: Observation, c: Context, eligible: map<Id, string>, n: nat, id: Id)
    requires n <= |c.entries|
  {
    exists i | 0 <= i < n :: Drops(o, c.known, eligible, c.entries[i], id) && id in c.entries[i].duplicates
  }

  lemma {:induction false} AllDropsExact(o: Observation, c: Context, eligible: map<Id, string>, n: nat, id: Id)
    requires n <= |c.entries|
    ensures HasId(AllDrops(o, c, eligible, n), id) <==> Droppable(o, c, eligible, n, id)
  {
    if n > 0 {
      var e := c.entries[n - 1];
      AllDropsExact(o, c, eligible, n - 1, id);
      EntryDropsExact(o, c, eligible, e, |e.duplicates|, id);
      assert e.duplicates[..|e.duplicates|] == e.duplicates;
      IdAppend(AllDrops(o, c, eligible, n - 1), EntryDrops(o, c, eligible, e, |e.duplicates|), id);
    }
  }

  lemma {:induction false} EligibleInTarget(found: seq<Option<Found>>, target: seq<Key>, id: Id)
    requires id in Eligible(found, target)
    ensures InTarget(target, id)
  {
    if found != [] && id in Eligible(found[..|found| - 1], target) {
      EligibleInTarget(found[..|found| - 1], target, id);
    }
  }

  /** A newly excluded key belongs to a dropped pair, whose keys were all unprotected, committed and targeted. */
  lemma ExclusionIsSafe(o: Observation, c: Context, k: Key)
    requires NewlyExcluded(o, c, k)
    ensures !k.OtherKey? && Unprotected(o, c.known, k) && k in o.target
  {
    var eligible := AllEligible(o, c.fingerprint);
    AllDropsExact(o, c, eligible, |c.entries|, k.id);
    var i :| 0 <= i < |c.entries| && Drops(o, c.known, eligible, c.entries[i], k.id);
    EligibleInTarget(Candidates(o.messages, c.fingerprint), o.target, k.id);
  }

  /** A call is excluded exactly when its result is. */
  lemma ExclusionIsPairwise(o: Observation, c: Context, id: Id)
    ensures NewlyExcluded(o, c, ToolCall(id)) <==> NewlyExcluded(o, c, ToolResult(id))
  {}

  /** The target loses exactly the newly excluded keys, in order; the exclusions gain exactly them. */
  lemma TargetShrinksByExclusions(o: Observation, c: Context, k: Key)
    ensures k in Policy(o, c).target <==> k in o.target && !NewlyExcluded(o, c, k)
    ensures k in Policy(o, c).excluded <==> k in o.excluded || NewlyExcluded(o, c, k)
    ensures o.signals <= Policy(o, c).signals
    ensures Policy(o, c).messages == o.messages
  {
    var ex := Exclusions(Dropped(o, c));
    assert KeyIn(ex, k) <==> k in SignalKeys(ex);
  }

  /** Shrinking the target forgets the pairs that left it and nothing else. */
  lemma {:induction false} EligibleShrinks(found: seq<Option<Found>>, target: seq<Key>, less: seq<Key>, id: Id)
    requires InTarget(less, id) ==> InTarget(target, id)
    ensures id in Eligible(found, less) <==> id in Eligible(found, target) && InTarget(less, id)
    ensures id in Eligible(found, less) ==> Eligible(found, less)[id] == Eligible(found, target)[id]
  {
    if found != [] { EligibleShrinks(found[..|found| - 1], target, less, id); }
  }

  /** What the first pass drops is no longer eligible in the second. */
  lemma NothingLeftToDrop(o: Observation, c: Context, e: Entry, id: Id)
    requires e in c.entries && id in e.duplicates
    ensures !Drops(Policy(o, c), c.known, AllEligible(Policy(o, c), c.fingerprint), e, id)
  {
    var p := Policy(o, c);
    var eligible, eligible' := AllEligible(o, c.fingerprint), AllEligible(p, c.fingerprint);
    ShrunkPair(o, c, id);
    ShrunkPair(o, c, e.anchorCallId);
    EligibleShrinks(Candidates(o.messages, c.fingerprint), o.target, p.target, id);
    EligibleShrinks(Candidates(o.messages, c.fingerprint), o.target, p.target, e.anchorCallId);
    if Drops(o, c.known, eligible, e, id) {
      var i :| 0 <= i < |c.entries| && c.entries[i] == e;
      AllDropsExact(o, c, eligible, |c.entries|, id);
      assert NewlyExcluded(o, c, ToolCall(id));
    }
  }

  lemma ShrunkPair(o: Observation, c: Context, id: Id)
    ensures InTarget(Policy(o, c).target, id) <==> InTarget(o.target, id) && !NewlyExcluded(o, c, ToolCall(id))
    ensures Policy(o, c).messages == o.messages
    ensures Policy(o, c).verification == o.verification && Policy(o, c).recent == o.recent
  {
    TargetShrinksByExclusions(o, c, ToolCall(id));
    TargetShrinksByExclusions(o, c, ToolResult(id));
    ExclusionIsPairwise(o, c, id);
  }

  lemma {:induction false} NoDrops(o: Observation, c: Context, eligible: map<Id, string>, n: nat)
    requires n <= |c.entries|
    requires forall e, id | e in c.entries && id in e.duplicates :: !Drops(o, c.known, eligible, e, id)
    ensures AllDrops(o, c, eligible, n) == []
  {
    if n > 0 {
      NoDrops(o, c, eligible, n - 1);
      NoEntryDrops(o, c, eligible, c.entries[n - 1], |c.entries[n - 1].duplicates|);
    }
  }

  lemma {:induction false} NoEntryDrops(o: Observation, c: Context, eligible: map<Id, string>, e: Entry, n: nat)
    requires n <= |e.duplicates|
    requires forall id | id in e.duplicates :: !Drops(o, c.known, eligible, e, id)
    ensures EntryDrops(o, c, eligible, e, n) == []
  {
    if n > 0 { NoEntryDrops(o, c, eligible, e, n - 1); }
  }

  /** For any scanner result, applying the policy again changes nothing. */
  lemma PolicyIdempotent(o: Observation, c: Context)
    ensures Policy(Policy(o, c), c) == Policy(o, c)
  {
    var p := Policy(o, c);
    forall e, id | e in c.entries && id in e.duplicates
      ensures !Drops(p, c.known, AllEligible(p, c.fingerprint), e, id)
    {
      NothingLeftToDrop(o, c, e, id);
    }
    NoDrops(p, c, AllEligible(p, c.fingerprint), |c.entries|);
  }

  // ----- surviving copies ------------------------------------------------

  lemma ExcludedExactly(o: Observation, c: Context, id: Id)
    ensures NewlyExcluded(o, c, ToolCall(id)) <==> Droppable(o, c, AllEligible(o, c.fingerprint), |c.entries|, id)
  {
    AllDropsExact(o, c, AllEligible(o, c.fingerprint), |c.entries|, id);
  }

  /** The read pair `kept` has the same text as `id` by its fingerprint. */
  ghost predicate SameText(o: Observation, c: Context, id: Id, kept: Id) {
    var eligible := AllEligible(o, c.fingerprint);
    id in eligible && kept in eligible && eligible[id] == eligible[kept]
  }

  /**
   Every dropped read has an eligible anchor with the same fingerprint, and that
   anchor stays in the target exactly when it is not dropped itself.
   */
  lemma DroppedHasAnchor(o: Observation, c: Context, id: Id) returns (e: Entry)
    requires NewlyExcluded(o, c, ToolCall(id))
    ensures e in c.entries && id in e.duplicates && SameText(o, c, id, e.anchorCallId)
    ensures InTarget(Policy(o, c).target, e.anchorCallId) <==> !NewlyExcluded(o, c, ToolCall(e.anchorCallId))
  {
    var eligible := AllEligible(o, c.fingerprint);
    ExcludedExactly(o, c, id);
    var i :| 0 <= i < |c.entries| && Drops(o, c.known, eligible, c.entries[i], id) && id in c.entries[i].duplicates;
    e := c.entries[i];
    EligibleInTarget(Candidates(o.messages, c.fingerprint), o.target, e.anchorCallId);
    ShrunkPair(o, c, e.anchorCallId);
  }

  /** A scan whose anchors are nobody's duplicates leaves a copy of every dropped read in the target. */
  lemma CopySurvives(o: Observation, c: Context, id: Id) returns (kept: Id)
    requires NewlyExcluded(o, c, ToolCall(id))
    requires forall e, f | e in c.entries && f in c.entries :: e.anchorCallId !in f.duplicates
    ensures SameText(o, c, id, kept) && InTarget(Policy(o, c).target, kept)
  {
    var e := DroppedHasAnchor(o, c, id);
    kept := e.anchorCallId;
    ExcludedExactly(o, c, kept);
  }

  /** Without that, two entries that anchor each other's duplicate lose both copies. */
  lemma MutualAnchorsLoseBoth(o: Observation, c: Context, e: Entry, f: Entry)
    requires e in c.entries && f in c.entries && f.anchorCallId in e.duplicates && e.anchorCallId in f.duplicates
    requires Drops(o, c.known, AllEligible(o, c.fingerprint), e, f.anchorCallId)
    requires Drops(o, c.known, AllEligible(o, c.fingerprint), f, e.anchorCallId)
    ensures ToolResult(e.anchorCallId) !in Policy(o, c).target && ToolResult(f.anchorCallId) !in Policy(o, c).target
  {
    var i :| 0 <= i < |c.entries| && c.entries[i] == e;
    var j :| 0 <= j < |c.entries| && c.entries[j] == f;
    ExcludedExactly(o, c, e.anchorCallId);
    ExcludedExactly(o, c, f.anchorCallId);
    TargetShrinksByExclusions(o, c, ToolResult(e.anchorCallId));
    TargetShrinksByExclusions(o, c, ToolResult(f.anchorCallId));
    ExclusionIsPairwise(o, c, e.anchorCallId);
    ExclusionIsPairwise(o, c, f.anchorCallId);
  }
}
