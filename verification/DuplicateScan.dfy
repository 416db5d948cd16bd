/**
 The duplicate-read scan that feeds the duplicate-read policy: reads grouped by
 path, older duplicates of a later read without an edit in between, and per path
 the newest read that anchors one. The result: whatever the conversation, a read
 that the policy drops leaves a copy with the same text in the target.
 */
module DuplicateScan {
  import opened Wrappers
  import opened LiveLog
  import opened DuplicateRead

  datatype ScanRead = ScanRead(callId: Id, order: nat, contentHash: string)

  /** Path of a call, text of a result message, and the content hash. */
  datatype Environment = Environment(pathOf: Block -> Option<string>, textOf: Message -> string, hash: string -> string)

  // ----- the tool calls in scan order ------------------------------------

  predicate Scanned(b: Block) { b.kind == "toolCall" && b.id.Some? && b.id.value != "" }

  function ScannedBlocks(bs: seq<Block>): (r: seq<Block>)
    ensures forall b | b in r :: Scanned(b)
  {
    if bs == [] then []
    else ScannedBlocks(bs[..|bs| - 1]) + (if Scanned(bs[|bs| - 1]) then [bs[|bs| - 1]] else [])
  }

  function CallBlocks(ms: seq<Message>): (r: seq<Block>)
    ensures forall b | b in r :: Scanned(b)
  {
    if ms == [] then []
    else CallBlocks(ms[..|ms| - 1])
         + (if ms[|ms| - 1].role == "assistant" then ScannedBlocks(Blocks(ms[|ms| - 1].content)) else [])
  }

  /** The text of the last result of a call. */
  function ResultText(env: Environment, ms: seq<Message>, id: Id): (r: Option<string>) {
    if ms == [] then None
    else
      var m := ms[|ms| - 1];
      if m.role == "toolResult" && m.toolCallId == Some(id) then Some(env.textOf(m))
      else ResultText(env, ms[..|ms| - 1], id)
  }

  predicate ReadTool(name: string) { name == "read" }

  predicate EditTool(name: string) { name == "edit" || name == "write" }

  /** The read that a call contributes to a path. */
  function ReadAt(env: Environment, ms: seq<Message>, b: Block, order: nat, path: string): (r: Option<ScanRead>)
    requires Scanned(b)
  {
    var text := ResultText(env, ms, b.id.value);
    if ReadTool(b.name) && env.pathOf(b) == Some(path) && text.Some?
    then Some(ScanRead(b.id.value, order, env.hash(text.value))) else None
  }

  function ReadList(read: Option<ScanRead>): (r: seq<ScanRead>) { if read.Some? then [read.value] else [] }

  function ReadsOf(env: Environment, ms: seq<Message>, calls: seq<Block>, path: string): (r: seq<ScanRead>)
    requires forall b | b in calls :: Scanned(b)
  {
    if calls == [] then []
    else
      var n := |calls| - 1;
      assert calls[n] in calls;
      ReadsOf(env, ms, calls[..n], path) + ReadList(ReadAt(env, ms, calls[n], n + 1, path))
  }

  function EditAt(env: Environment, b: Block, order: nat, path: string): (r: set<nat>) {
    if !ReadTool(b.name) && EditTool(b.name) && env.pathOf(b) == Some(path) then {order} else {}
  }

  function EditsOf(env: Environment, calls: seq<Block>, path: string): (r: set<nat>) {
    if calls == [] then {}
    else
      var n := |calls| - 1;
      EditsOf(env, calls[..n], path) + EditAt(env, calls[n], n + 1, path)
  }

  function AddPath(env: Environment, ms: seq<Message>, b: Block, order: nat, paths: seq<string>): (r: seq<string>)
    requires Scanned(b)
  {
    var path := env.pathOf(b);
    if path.Some? && path.value !in paths && ReadAt(env, ms, b, order, path.value).Some?
    then paths + [path.value] else paths
  }

  /** The paths that have a read, in order of their first one. */
  function PathsOf(env: Environment, ms: seq<Message>, calls: seq<Block>): (r: seq<string>)
    requires forall b | b in calls :: Scanned(b)
  {
    if calls == [] then []
    else
      var n := |calls| - 1;
      assert calls[n] in calls;
      AddPath(env, ms, calls[n], n + 1, PathsOf(env, ms, calls[..n]))
  }

  // ----- one path --------------------------------------------------------

  predicate EditBetween(edits: set<nat>, from: nat, to: nat) { exists e | e in edits :: from < e < to }

  predicate Duplicates(rs: seq<ScanRead>, edits: set<nat>, i: nat, j: nat)
    requires i < |rs| && j < |rs|
  {
    rs[j].contentHash == rs[i].contentHash && !EditBetween(edits, rs[i].order, rs[j].order)
  }

  /** The first read at or after `j` that duplicates read `i`, or the number of reads. */
  function FirstLater(rs: seq<ScanRead>, edits: set<nat>, i: nat, j: nat): (k: nat)
    requires i < |rs| && j <= |rs|
    ensures j <= k <= |rs|
    ensures k < |rs| ==> Duplicates(rs, edits, i, k)
    decreases |rs| - j
  {
    if j == |rs| then j
    else if Duplicates(rs, edits, i, j) then j
    else FirstLater(rs, edits, i, j + 1)
  }

  predicate HasLater(rs: seq<ScanRead>, edits: set<nat>, i: nat)
    requires i < |rs|
  {
    FirstLater(rs, edits, i, i + 1) < |rs|
  }

  /** The anchor after the first `n` reads were examined, as an index. */
  function Anchor(rs: seq<ScanRead>, edits: set<nat>, n: nat): (r: Option<nat>)
    requires n <= |rs|
    ensures r.Some? ==> r.value < |rs|
  {
    if n == 0 then None
    else
      var before, later := Anchor(rs, edits, n - 1), FirstLater(rs, edits, n - 1, n);
      if later == |rs| then before
      else if before.None? || rs[later].order > rs[before.value].order then Some(later)
      else before
  }

  function Older(rs: seq<ScanRead>, edits: set<nat>, n: nat): (r: seq<Id>)
    requires n <= |rs|
  {
    if n == 0 then []
    else Older(rs, edits, n - 1) + (if HasLater(rs, edits, n - 1) then [rs[n - 1].callId] else [])
  }

  function PathEntry(path: string, rs: seq<ScanRead>, edits: set<nat>): (r: Option<Entry>) {
    var anchor := Anchor(rs, edits, |rs|);
    if anchor.None? then None else Some(Entry(path, rs[anchor.value].callId, Older(rs, edits, |rs|)))
  }

  /** The loop over the reads of a path. */
  method SweepPath(path: string, rs: seq<ScanRead>, edits: set<nat>) returns (r: Option<Entry>)
    ensures r == PathEntry(path, rs, edits)
  {
    var duplicates: seq<Id>, anchor: Option<nat> := [], None;
    for index := 0 to |rs|
      invariant anchor == Anchor(rs, edits, index) && duplicates == Older(rs, edits, index)
    {
      var later := FirstLater(rs, edits, index, index + 1);
      if later < |rs| {
        duplicates := duplicates + [rs[index].callId];
        if anchor.None? || rs[later].order > rs[anchor.value].order { anchor := Some(later); }
      }
    }
    return if anchor.None? then None else Some(Entry(path, rs[anchor.value].callId, duplicates));
  }

  // ----- the whole scan --------------------------------------------------

  function EntriesOf(env: Environment, ms: seq<Message>, calls: seq<Block>, paths: seq<string>): (r: seq<Entry>)
    requires forall b | b in calls :: Scanned(b)
  {
    if paths == [] then []
    else
      var n := |paths| - 1;
      var entry := PathEntry(paths[n], ReadsOf(env, ms, calls, paths[n]), EditsOf(env, calls, paths[n]));
      EntriesOf(env, ms, calls, paths[..n]) + (if entry.Some? then [entry.value] else [])
  }

  function Scan(env: Environment, ms: seq<Message>): (r: seq<Entry>) {
    EntriesOf(env, ms, CallBlocks(ms), PathsOf(env, ms, CallBlocks(ms)))
  }

  function ListAt<T>(m: map<string, seq<T>>, key: string): (r: seq<T>) { if key in m then m[key] else [] }

  function SetAt(m: map<string, set<nat>>, key: string): (r: set<nat>) { if key in m then m[key] else {} }

  lemma PrefixScanned(calls: seq<Block>, i: nat)
    requires i < |calls| && forall b | b in calls :: Scanned(b)
    ensures calls[..i + 1][..i] == calls[..i] && Scanned(calls[i])
    ensures (forall b | b in calls[..i] :: Scanned(b)) && (forall b | b in calls[..i + 1] :: Scanned(b))
  {
    assert calls[i] in calls;
  }

  lemma ReadsStep(env: Environment, ms: seq<Message>, calls: seq<Block>, i: nat, p: string)
    requires i < |calls| && (forall b | b in calls[..i + 1] :: Scanned(b)) && (forall b | b in calls[..i] :: Scanned(b))
    requires Scanned(calls[i])
    ensures ReadsOf(env, ms, calls[..i + 1], p) ==
            ReadsOf(env, ms, calls[..i], p) + ReadList(ReadAt(env, ms, calls[i], i + 1, p))
  {
    assert calls[..i + 1][..i] == calls[..i];
  }

  lemma EditsStep(env: Environment, calls: seq<Block>, i: nat, p: string)
    requires i < |calls|
    ensures EditsOf(env, calls[..i + 1], p) == EditsOf(env, calls[..i], p) + EditAt(env, calls[i], i + 1, p)
  {
    assert calls[..i + 1][..i] == calls[..i];
  }

  lemma PathsStep(env: Environment, ms: seq<Message>, calls: seq<Block>, i: nat)
    requires i < |calls| && (forall b | b in calls[..i + 1] :: Scanned(b)) && (forall b | b in calls[..i] :: Scanned(b))
    requires Scanned(calls[i])
    ensures PathsOf(env, ms, calls[..i + 1]) == AddPath(env, ms, calls[i], i + 1, PathsOf(env, ms, calls[..i]))
  {
    assert calls[..i + 1][..i] == calls[..i];
  }

  /** One tool call: a read or an edit of its path, or neither. */
  method GroupCall(env: Environment, ms: seq<Message>, b: Block, order: nat, paths: seq<string>,
      readsByPath: map<string, seq<ScanRead>>, edits: map<string, set<nat>>)
    returns (paths': seq<string>, readsByPath': map<string, seq<ScanRead>>, edits': map<string, set<nat>>)
    requires Scanned(b) && forall p :: p in readsByPath <==> p in paths
    ensures paths' == AddPath(env, ms, b, order, paths) && forall p :: p in readsByPath' <==> p in paths'
    ensures forall p :: ListAt(readsByPath', p) == ListAt(readsByPath, p) + ReadList(ReadAt(env, ms, b, order, p))
    ensures forall p :: SetAt(edits', p) == SetAt(edits, p) + EditAt(env, b, order, p)
  {
    paths', readsByPath', edits' := paths, readsByPath, edits;
    var path := env.pathOf(b);
    if path.Some? {
      if ReadTool(b.name) {
        var read := ReadAt(env, ms, b, order, path.value);
        if read.Some? {
          if path.value !in readsByPath { paths' := paths + [path.value]; }
          readsByPath' := readsByPath[path.value := ListAt(readsByPath, path.value) + [read.value]];
        }
      } else if EditTool(b.name) {
        edits' := edits[path.value := SetAt(edits, path.value) + {order}];
      }
    }
  }

  /** The loop over the tool calls: reads and edits by path, paths in insertion order. */
  method GroupCalls(env: Environment, ms: seq<Message>, calls: seq<Block>)
    returns (paths: seq<string>, readsByPath: map<string, seq<ScanRead>>, edits: map<string, set<nat>>)
    requires forall b | b in calls :: Scanned(b)
    ensures paths == PathsOf(env, ms, calls)
    ensures forall p ::
              ListAt(readsByPath, p) == ReadsOf(env, ms, calls, p) && SetAt(edits, p) == EditsOf(env, calls, p)
  {
    paths, readsByPath, edits := [], map[], map[];
    for i := 0 to |calls|
      invariant forall b | b in calls[..i] :: Scanned(b)
      invariant paths == PathsOf(env, ms, calls[..i])
      invariant forall p :: p in readsByPath <==> p in paths
      invariant forall p :: ListAt(readsByPath, p) == ReadsOf(env, ms, calls[..i], p)
      invariant forall p :: SetAt(edits, p) == EditsOf(env, calls[..i], p)
    {
      PrefixScanned(calls, i);
      paths, readsByPath, edits := GroupCall(env, ms, calls[i], i + 1, paths, readsByPath, edits);
      PathsStep(env, ms, calls, i);
      forall p ensures ListAt(readsByPath, p) == ReadsOf(env, ms, calls[..i + 1], p) {
        ReadsStep(env, ms, calls, i, p);
      }
      forall p ensures SetAt(edits, p) == EditsOf(env, calls[..i + 1], p) {
        EditsStep(env, calls, i, p);
      }
    }
    assert calls[..|calls|] == calls;
  }

  /** `scanDuplicateReads` */
  method ScanDuplicateReads(env: Environment, ms: seq<Message>) returns (entries: seq<Entry>)
    ensures entries == Scan(env, ms)
  {
    var calls := CallBlocks(ms);
    var paths, readsByPath, edits := GroupCalls(env, ms, calls);
    entries := SweepPaths(env, ms, calls, paths, readsByPath, edits);
  }

  lemma EntriesStep(env: Environment, ms: seq<Message>, calls: seq<Block>, paths: seq<string>, i: nat)
    requires (forall b | b in calls :: Scanned(b)) && i < |paths|
    ensures var e := PathEntry(paths[i], ReadsOf(env, ms, calls, paths[i]), EditsOf(env, calls, paths[i]));
            EntriesOf(env, ms, calls, paths[..i + 1]) ==
            EntriesOf(env, ms, calls, paths[..i]) + (if e.Some? then [e.value] else [])
  {
    assert paths[..i + 1][..i] == paths[..i];
  }

  /** The loop over the paths. */
  method SweepPaths(env: Environment, ms: seq<Message>, calls: seq<Block>, paths: seq<string>,
      readsByPath: map<string, seq<ScanRead>>, edits: map<string, set<nat>>) returns (entries: seq<Entry>)
    requires forall b | b in calls :: Scanned(b)
    requires forall p ::
               ListAt(readsByPath, p) == ReadsOf(env, ms, calls, p) && SetAt(edits, p) == EditsOf(env, calls, p)
    ensures entries == EntriesOf(env, ms, calls, paths)
  {
    entries := [];
    for i := 0 to |paths|
      invariant entries == EntriesOf(env, ms, calls, paths[..i])
    {
      EntriesStep(env, ms, calls, paths, i);
      var entry := SweepPath(paths[i], ListAt(readsByPath, paths[i]), SetAt(edits, paths[i]));
      if entry.Some? { entries := entries + [entry.value]; }
    }
    assert paths[..|paths|] == paths;
  }

  // ----- the anchor is nobody's older duplicate --------------------------

  ghost predicate Increasing(rs: seq<ScanRead>) { forall i, j | 0 <= i < j < |rs| :: rs[i].order < rs[j].order }

  /** No later read examined so far is newer than the anchor. */
  lemma {:induction false} AnchorNewest(rs: seq<ScanRead>, edits: set<nat>, n: nat, i: nat)
    requires i < n <= |rs| && HasLater(rs, edits, i)
    ensures Anchor(rs, edits, n).Some?
    ensures rs[FirstLater(rs, edits, i, i + 1)].order <= rs[Anchor(rs, edits, n).value].order
  {
    if i < n - 1 { AnchorNewest(rs, edits, n - 1, i); }
  }

  /** The anchor of a path has no later duplicate itself. */
  lemma AnchorIsLast(rs: seq<ScanRead>, edits: set<nat>, a: nat)
    requires Increasing(rs) && Anchor(rs, edits, |rs|) == Some(a)
    ensures a < |rs| && !HasLater(rs, edits, a)
  {
    if HasLater(rs, edits, a) { AnchorNewest(rs, edits, |rs|, a); }
  }

  lemma {:induction false} OlderHasLater(rs: seq<ScanRead>, edits: set<nat>, n: nat, id: Id) returns (i: nat)
    requires n <= |rs| && id in Older(rs, edits, n)
    ensures i < n && rs[i].callId == id && HasLater(rs, edits, i)
  {
    if HasLater(rs, edits, n - 1) && rs[n - 1].callId == id {
      i := n - 1;
    } else {
      i := OlderHasLater(rs, edits, n - 1, id);
    }
  }

  /** Each read of a path is the read of the call its order names. */
  ghost predicate FromCalls(env: Environment, calls: seq<Block>, path: string, rs: seq<ScanRead>) {
    && Increasing(rs)
    && forall i | 0 <= i < |rs| ::
         1 <= rs[i].order <= |calls| && calls[rs[i].order - 1].id == Some(rs[i].callId)
         && env.pathOf(calls[rs[i].order - 1]) == Some(path)
  }

  lemma {:induction false} ReadsFromCalls(env: Environment, ms: seq<Message>, calls: seq<Block>, path: string)
    requires forall b | b in calls :: Scanned(b)
    ensures FromCalls(env, calls, path, ReadsOf(env, ms, calls, path))
  {
    if calls != [] {
      var n := |calls| - 1;
      PrefixScanned(calls, n);
      ReadsFromCalls(env, ms, calls[..n], path);
    }
  }

  /** The calls of an id that occurs at most once are one call. */
  ghost predicate OneCall(calls: seq<Block>, id: Id) {
    forall i, j | 0 <= i < |calls| && 0 <= j < |calls| && calls[i].id == Some(id) && calls[j].id == Some(id) :: i == j
  }

  /** An anchor whose id is used once is no older duplicate of any entry. */
  lemma AnchorNotOlder(env: Environment, calls: seq<Block>, p: string, q: string, rs: seq<ScanRead>, ss: seq<ScanRead>,
      edits: set<nat>, edits': set<nat>, a: nat)
    requires FromCalls(env, calls, p, rs) && FromCalls(env, calls, q, ss) && Anchor(rs, edits, |rs|) == Some(a)
    requires p == q ==> rs == ss && edits == edits'
    requires a < |rs| && OneCall(calls, rs[a].callId)
    ensures rs[a].callId !in Older(ss, edits', |ss|)
  {
    AnchorIsLast(rs, edits, a);
    if rs[a].callId in Older(ss, edits', |ss|) {
      var i := OlderHasLater(ss, edits', |ss|, rs[a].callId);
      SameCall(env, calls, p, q, rs, ss, a, i);
    }
  }

  /** Reads of an id that is used once come from one call, so from one path. */
  lemma SameCall(env: Environment, calls: seq<Block>, p: string, q: string, rs: seq<ScanRead>, ss: seq<ScanRead>,
      a: nat, i: nat)
    requires FromCalls(env, calls, p, rs) && FromCalls(env, calls, q, ss)
    requires a < |rs| && i < |ss| && rs[a].callId == ss[i].callId && OneCall(calls, rs[a].callId)
    ensures p == q && rs[a].order == ss[i].order
  {
    assert calls[rs[a].order - 1].id == calls[ss[i].order - 1].id == Some(rs[a].callId);
  }

  /** Where an entry of the scan comes from. */
  ghost predicate EntryOf(env: Environment, ms: seq<Message>, calls: seq<Block>, e: Entry)
    requires forall b | b in calls :: Scanned(b)
  {
    PathEntry(e.path, ReadsOf(env, ms, calls, e.path), EditsOf(env, calls, e.path)) == Some(e)
  }

  lemma {:induction false} EntryIs(env: Environment, ms: seq<Message>, calls: seq<Block>, paths: seq<string>, e: Entry)
    requires (forall b | b in calls :: Scanned(b)) && e in EntriesOf(env, ms, calls, paths)
    ensures EntryOf(env, ms, calls, e)
  {
    if paths != [] && e in EntriesOf(env, ms, calls, paths[..|paths| - 1]) {
      EntryIs(env, ms, calls, paths[..|paths| - 1], e);
    }
  }

  lemma EntriesApart(env: Environment, ms: seq<Message>, calls: seq<Block>, e: Entry, f: Entry)
    requires (forall b | b in calls :: Scanned(b)) && EntryOf(env, ms, calls, e) && EntryOf(env, ms, calls, f)
    requires OneCall(calls, e.anchorCallId)
    ensures e.anchorCallId !in f.duplicates
  {
    var rs, edits := ReadsOf(env, ms, calls, e.path), EditsOf(env, calls, e.path);
    var ss, edits' := ReadsOf(env, ms, calls, f.path), EditsOf(env, calls, f.path);
    ReadsFromCalls(env, ms, calls, e.path);
    ReadsFromCalls(env, ms, calls, f.path);
    AnchorNotOlder(env, calls, e.path, f.path, rs, ss, edits, edits', Anchor(rs, edits, |rs|).value);
  }

  // ----- eligible ids are used once --------------------------------------

  function Uses(calls: seq<Block>, id: Id): (n: nat) {
    if calls == [] then 0 else Uses(calls[..|calls| - 1], id) + (if calls[|calls| - 1].id == Some(id) then 1 else 0)
  }

  lemma {:induction false} UsesConcat(a: seq<Block>, b: seq<Block>, id: Id)
    ensures Uses(a + b, id) == Uses(a, id) + Uses(b, id)
  {
    if b == [] {
      assert a + b == a;
    } else {
      assert (a + b)[..|a + b| - 1] == a + b[..|b| - 1];
      UsesConcat(a, b[..|b| - 1], id);
    }
  }

  lemma {:induction false} UsesPositive(calls: seq<Block>, id: Id, i: nat)
    requires i < |calls| && calls[i].id == Some(id)
    ensures Uses(calls, id) >= 1
  {
    if i < |calls| - 1 { UsesPositive(calls[..|calls| - 1], id, i); }
  }

  lemma TwoUses(calls: seq<Block>, id: Id, i: nat, j: nat)
    requires i < j < |calls| && calls[i].id == Some(id) && calls[j].id == Some(id)
    ensures Uses(calls, id) >= 2
  {
    assert calls == calls[..j] + calls[j..];
    UsesConcat(calls[..j], calls[j..], id);
    UsesPositive(calls[..j], id, i);
    UsesPositive(calls[j..], id, 0);
  }

  lemma UsedOnce(calls: seq<Block>, id: Id)
    requires Uses(calls, id) <= 1
    ensures OneCall(calls, id)
  {
    forall i, j | 0 <= i < |calls| && 0 <= j < |calls| && calls[i].id == Some(id) && calls[j].id == Some(id)
      ensures i == j
    {
      if i < j { TwoUses(calls, id, i, j); }
      if j < i { TwoUses(calls, id, j, i); }
    }
  }

  lemma {:induction false} ScannedUses(bs: seq<Block>, id: Id)
    ensures Uses(ScannedBlocks(bs), id) <= BlockCount(bs, id)
  {
    if bs != [] {
      var n := |bs| - 1;
      var front := ScannedBlocks(bs[..n]);
      ScannedUses(bs[..n], id);
      assert (front + [bs[n]])[..|front|] == front && front + [] == front;
    }
  }

  function Results(ms: seq<Message>, id: Id): (n: nat) {
    if ms == [] then 0 else Results(ms[..|ms| - 1], id) + ResultCount(ms[|ms| - 1], id)
  }

  lemma {:induction false} UsesBound(ms: seq<Message>, id: Id)
    ensures Uses(CallBlocks(ms), id) + Results(ms, id) <= Count(ms, id)
  {
    if ms != [] {
      var n := |ms| - 1;
      UsesBound(ms[..n], id);
      ScannedUses(Blocks(ms[n].content), id);
      UsesConcat(CallBlocks(ms[..n]), ScannedBlocks(Blocks(ms[n].content)), id);
      assert CallBlocks(ms[..n]) + [] == CallBlocks(ms[..n]);
    }
  }

  lemma {:induction false} ResultCounted(ms: seq<Message>, id: Id, i: nat)
    requires i < |ms| && ResultCount(ms[i], id) == 1
    ensures Results(ms, id) >= 1
  {
    if i < |ms| - 1 { ResultCounted(ms[..|ms| - 1], id, i); }
  }

  lemma {:induction false} EligibleFound(found: seq<Option<Found>>, target: seq<Key>, id: Id) returns (i: nat)
    requires id in Eligible(found, target)
    ensures i < |found| && found[i].Some? && found[i].value.id == id
  {
    var n := |found| - 1;
    if found[n].Some? && found[n].value.id == id {
      i := n;
    } else {
      i := EligibleFound(found[..n], target, id);
    }
  }

  lemma CandidateFacts(ms: seq<Message>, fp: Content -> string, i: nat, id: Id)
    requires i + 1 < |ms| && Candidate(ms, fp, i).Some? && Candidate(ms, fp, i).value.id == id
    ensures Count(ms, id) == 2 && ResultCount(ms[i + 1], id) == 1
  {}

  /** An eligible read is one call in the scan. */
  lemma EligibleOnce(o: Observation, fp: Content -> string, id: Id)
    requires id in AllEligible(o, fp)
    ensures OneCall(CallBlocks(o.messages), id)
  {
    var i := EligibleFound(Candidates(o.messages, fp), o.target, id);
    CandidateFacts(o.messages, fp, i, id);
    ResultCounted(o.messages, id, i + 1);
    UsesBound(o.messages, id);
    UsedOnce(CallBlocks(o.messages), id);
  }

  // ----- the policy on the scanner's result ------------------------------

  /**
   With the entries of the scan, every read the policy drops leaves an eligible
   read with the same fingerprint in the target.
   */
  lemma CopyAlwaysSurvives(env: Environment, o: Observation, c: Context, id: Id) returns (kept: Id)
    requires c.entries == Scan(env, o.messages) && NewlyExcluded(o, c, ToolCall(id))
    ensures SameText(o, c, id, kept) && InTarget(Policy(o, c).target, kept)
  {
    var calls := CallBlocks(o.messages);
    var paths := PathsOf(env, o.messages, calls);
    var e := DroppedHasAnchor(o, c, id);
    kept := e.anchorCallId;
    EligibleOnce(o, c.fingerprint, kept);
    EntryIs(env, o.messages, calls, paths, e);
    forall f | f in c.entries ensures kept !in f.duplicates {
      EntryIs(env, o.messages, calls, paths, f);
      EntriesApart(env, o.messages, calls, e, f);
    }
    ExcludedExactly(o, c, kept);
  }
}
