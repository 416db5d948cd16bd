/**
 The live-binding driver: one object, any number of legs, a failure possible at
 every await. What the environment answers is the adversary's choice: the sink's
 acknowledgements by checkpoint ordinal, and for every call of every leg the
 executor, the transport, the response, the tool loop and the budget guard.
 */
module LiveDriver {
  import opened Wrappers
  import opened LiveLog
  import opened LiveProtocol
  import LiveProjection
  import Sorting

  datatype Outcome = Continue | Complete | Failed

  datatype LiveRequest = LiveRequest(request: ToolRequest, argumentsParse: bool)

  /** `wellFormed` gathers the checks on the response that involve no collection. */
  datatype Response = Response(
    wellFormed: bool,
    requests: seq<LiveRequest>,
    executions: seq<ToolExecution>,
    usage: Option<Usage>,
    outcome: Outcome)

  datatype Execution = Execution(
    removed: seq<Key>,
    restored: set<Id>,
    bound: set<Key>,
    preHash: Option<string>,
    postHash: Option<string>,
    contextChanged: bool)

  /**
   The environment's answers during one call. `None` or `false` is a thrown error.
   `reports` are the tool executor's callbacks in order, `returned` its result.
   */
  datatype CallScript = CallScript(
    execution: Option<Execution>,
    permitted: bool,
    response: Option<Response>,
    reserved: bool,
    reports: seq<ToolExecution>,
    returned: Option<seq<ToolExecution>>,
    unambiguous: Id -> bool,
    nextObservation: bool)

  datatype Begin = Begins | Refused(trips: bool)

  /** A leg and its environment. `setsUp`: kill switch, first observation and carry map are built without a throw. */
  datatype Leg = Leg(
    studyId: Id,
    runId: Id,
    maxCalls: int,
    begin: Begin,
    setsUp: bool,
    authorized: bool,
    hasTools: bool,
    initialCarry: set<Id>,
    calls: nat -> CallScript,
    closes: bool,
    evidenceAccepted: bool)

  // ----- the carry map ---------------------------------------------------

  function PairKeys(ids: set<Id>): (r: set<Key>)
    ensures forall id :: (ToolCall(id) in r <==> id in ids) && (ToolResult(id) in r <==> id in ids)
    ensures forall k | k in r :: !k.OtherKey?
  {
    (set id | id in ids :: ToolCall(id)) + (set id | id in ids :: ToolResult(id))
  }

  /** The pair is removed in this call and not bound to the provider. */
  predicate Evicted(id: Id, removed: seq<Key>, bound: set<Key>) {
    ToolCall(id) in removed && ToolResult(id) in removed && ToolCall(id) !in bound
  }

  function Commit(carry: set<Id>, removed: seq<Key>, bound: set<Key>): (r: set<Id>)
    ensures forall id :: id in r <==> ToolCall(id) !in bound && (id in carry || Evicted(id, removed, bound))
  {
    (set id | id in carry && ToolCall(id) !in bound) +
    (set k | k in removed && k.ToolCall? && Evicted(k.id, removed, bound) :: k.id)
  }

  /** The carry after some recorded rows. */
  function CarryAfter(carry: set<Id>, rows: seq<Receipt>): (r: set<Id>) {
    if rows == [] then carry
    else
      var n := |rows| - 1;
      Commit(CarryAfter(carry, rows[..n]), rows[n].removed, rows[n].bound)
  }

  /** Carried keys are both keys of pairs in the carry. */
  predicate CarriedFrom(carried: set<Key>, carry: set<Id>) {
    forall k | k in carried :: !k.OtherKey? && k.id in carry && ToolCall(k.id) in carried && ToolResult(k.id) in carried
  }

  /** Rows of one leg: ordinals from 1, carried keys from the carry of the rows before. */
  predicate CarryRun(carry: set<Id>, rows: seq<Receipt>) {
    if rows == [] then true
    else
      var n := |rows| - 1;
      && CarryRun(carry, rows[..n])
      && CarriedFrom(rows[n].carried, CarryAfter(carry, rows[..n]))
      && rows[n].callOrdinal == n + 1
  }

  lemma CarryRunAppend(carry: set<Id>, rows: seq<Receipt>, row: Receipt)
    requires CarryRun(carry, rows) && CarriedFrom(row.carried, CarryAfter(carry, rows)) && row.callOrdinal == |rows| + 1
    ensures CarryRun(carry, rows + [row])
    ensures CarryAfter(carry, rows + [row]) == Commit(CarryAfter(carry, rows), row.removed, row.bound)
  {
    assert (rows + [row])[..|rows|] == rows;
  }

  /** The carry-commit loops; `None` when a pair fingerprint is ambiguous. */
  method CommitCarry(carry: set<Id>, removed: seq<Key>, bound: set<Key>, unambiguous: Id -> bool)
    returns (r: Option<set<Id>>)
    ensures r.Some? <==> forall k | k in removed && k.ToolCall? && Evicted(k.id, removed, bound) :: unambiguous(k.id)
    ensures r.Some? ==> r.value == Commit(carry, removed, bound)
  {
    var ids := carry;
    for i := 0 to |removed|
      invariant forall j | 0 <= j < i && removed[j].ToolCall? && Evicted(removed[j].id, removed, bound) ::
          unambiguous(removed[j].id)
      invariant forall id :: id in ids <==> id in carry || (ToolCall(id) in removed[..i] && Evicted(id, removed, bound))
    {
      var key := removed[i];
      assert removed[..i + 1] == removed[..i] + [key];
      if key.ToolCall? && ToolResult(key.id) in removed && key !in bound {
        assert key in removed;
        if !unambiguous(key.id) { return None; }
        ids := ids + {key.id};
      }
    }
    assert removed[..|removed|] == removed;
    forall k | k in removed && k.ToolCall? && Evicted(k.id, removed, bound) ensures unambiguous(k.id) {
      var j :| 0 <= j < |removed| && removed[j] == k;
    }
    return Some(set id | id in ids && ToolCall(id) !in bound);
  }

  // ----- validation of a model response ----------------------------------

  function Requests(rs: seq<LiveRequest>): (r: seq<ToolRequest>)
    ensures |r| == |rs| && forall i | 0 <= i < |rs| :: r[i] == rs[i].request
  {
    if rs == [] then [] else [rs[0].request] + Requests(rs[1..])
  }

  predicate StableRequests(rs: seq<LiveRequest>) {
    && (forall i | 0 <= i < |rs| ::
          rs[i].request.toolCallId != "" && rs[i].request.toolName != "" && rs[i].argumentsParse)
    && (forall i, j | 0 <= i < j < |rs| :: rs[i].request.toolCallId != rs[j].request.toolCallId)
  }

  predicate MatchedExecutions(rs: seq<LiveRequest>, xs: seq<ToolExecution>) {
    && (forall i | 0 <= i < |xs| :: ToolRequest(xs[i].toolCallId, xs[i].toolName) in Requests(rs))
    && (forall i, j | 0 <= i < j < |xs| :: xs[i].toolCallId != xs[j].toolCallId)
  }

  /** `validateModelResponse` accepts exactly these responses. */
  predicate ValidResponse(r: Response) {
    r.wellFormed && StableRequests(r.requests) && MatchedExecutions(r.requests, r.executions) && r.usage.Some?
  }

  method ValidateRequests(rs: seq<LiveRequest>) returns (byId: Option<map<Id, ToolRequest>>)
    ensures byId.Some? <==> StableRequests(rs)
    ensures byId.Some? ==> forall id :: id in byId.value <==> exists q | q in rs :: q.request.toolCallId == id
    ensures byId.Some? ==>
            forall q | q in rs :: q.request.toolCallId in byId.value && byId.value[q.request.toolCallId] == q.request
  {
    var seen: map<Id, ToolRequest> := map[];
    for i := 0 to |rs|
      invariant StableRequests(rs[..i])
      invariant forall id :: id in seen <==> exists j | 0 <= j < i :: rs[j].request.toolCallId == id
      invariant forall j | 0 <= j < i ::
          rs[j].request.toolCallId in seen && seen[rs[j].request.toolCallId] == rs[j].request
    {
      var q := rs[i].request;
      if q.toolCallId == "" || q.toolName == "" || !rs[i].argumentsParse || q.toolCallId in seen {
        return None;
      }
      assert rs[..i + 1] == rs[..i] + [rs[i]];
      seen := seen[q.toolCallId := q];
    }
    assert rs[..|rs|] == rs;
    return Some(seen);
  }

  lemma RequestById(rs: seq<LiveRequest>, byId: map<Id, ToolRequest>, x: ToolExecution)
    requires forall id :: id in byId <==> exists q | q in rs :: q.request.toolCallId == id
    requires forall q | q in rs :: q.request.toolCallId in byId && byId[q.request.toolCallId] == q.request
    ensures ToolRequest(x.toolCallId, x.toolName) in Requests(rs) <==>
            x.toolCallId in byId && byId[x.toolCallId].toolName == x.toolName
  {
    var target := ToolRequest(x.toolCallId, x.toolName);
    if target in Requests(rs) {
      var i :| 0 <= i < |rs| && Requests(rs)[i] == target;
      assert rs[i] in rs;
    } else if x.toolCallId in byId {
      var q :| q in rs && q.request.toolCallId == x.toolCallId;
      var i :| 0 <= i < |rs| && rs[i] == q;
      assert Requests(rs)[i] == q.request;
    }
  }

  lemma MatchedStep(rs: seq<LiveRequest>, xs: seq<ToolExecution>, i: nat)
    requires i < |xs| && MatchedExecutions(rs, xs[..i])
    ensures MatchedExecutions(rs, xs[..i + 1]) <==>
            ToolRequest(xs[i].toolCallId, xs[i].toolName) in Requests(rs) && !ToolSeen(xs[..i], xs[i].toolCallId)
    ensures MatchedExecutions(rs, xs) ==> MatchedExecutions(rs, xs[..i + 1])
  {
    var next := xs[..i + 1];
    assert next == xs[..i] + [xs[i]];
    if MatchedExecutions(rs, next) {
      assert next[i] == xs[i];
      forall j | 0 <= j < i ensures xs[..i][j].toolCallId != xs[i].toolCallId { assert next[j] == xs[..i][j]; }
    }
  }

  method ValidateExecutions(rs: seq<LiveRequest>, byId: map<Id, ToolRequest>, xs: seq<ToolExecution>) returns (ok: bool)
    requires forall id :: id in byId <==> exists q | q in rs :: q.request.toolCallId == id
    requires forall q | q in rs :: q.request.toolCallId in byId && byId[q.request.toolCallId] == q.request
    ensures ok <==> MatchedExecutions(rs, xs)
  {
    var seen: set<Id> := {};
    for i := 0 to |xs|
      invariant MatchedExecutions(rs, xs[..i])
      invariant forall id :: id in seen <==> ToolSeen(xs[..i], id)
    {
      var x := xs[i];
      RequestById(rs, byId, x);
      MatchedStep(rs, xs, i);
      if x.toolCallId in seen || x.toolCallId !in byId || byId[x.toolCallId].toolName != x.toolName {
        return false;
      }
      assert xs[..i + 1] == xs[..i] + [x];
      SeenAppend(xs[..i], x);
      seen := seen + {x.toolCallId};
    }
    assert xs[..|xs|] == xs;
    return true;
  }

  lemma SeenAppend(xs: seq<ToolExecution>, x: ToolExecution)
    ensures forall id :: ToolSeen(xs + [x], id) <==> ToolSeen(xs, id) || id == x.toolCallId
  {
    forall id ensures ToolSeen(xs + [x], id) <==> ToolSeen(xs, id) || id == x.toolCallId {
      assert (xs + [x])[|xs|] == x;
      if ToolSeen(xs, id) {
        var i :| 0 <= i < |xs| && xs[i].toolCallId == id;
        assert (xs + [x])[i] == xs[i];
      }
    }
  }

  method ValidateModelResponse(r: Response) returns (usage: Option<Usage>)
    ensures usage.Some? <==> ValidResponse(r)
    ensures usage.Some? ==> usage == r.usage
  {
    if !r.wellFormed { return None; }
    var byId := ValidateRequests(r.requests);
    if byId.None? { return None; }
    var ok := ValidateExecutions(r.requests, byId.value, r.executions);
    return if ok then r.usage else None;
  }

  // ----- the driver ------------------------------------------------------

  function Digit(n: nat): (c: char)
    requires n < 10
  {
    "0123456789"[n]
  }

  function ModelCallId(runId: Id, k: nat): (r: Id)
    requires k < 100
  {
    runId + "-model-call-" + [Digit(k / 10), Digit(k % 10)]
  }

  /** Two calls of a leg have two ids. */
  lemma ModelCallIdsApart(runId: Id, j: nat, k: nat)
    requires j < 100 && k < 100 && ModelCallId(runId, j) == ModelCallId(runId, k)
    ensures j == k
  {
    var stem := runId + "-model-call-";
    assert ModelCallId(runId, j)[|stem|..] == [Digit(j / 10), Digit(j % 10)];
    assert ModelCallId(runId, k)[|stem|..] == [Digit(k / 10), Digit(k % 10)];
    DigitsApart(j / 10, k / 10);
    DigitsApart(j % 10, k % 10);
  }

  lemma DigitsApart(m: nat, n: nat)
    requires m < 10 && n < 10 && Digit(m) == Digit(n)
    ensures m == n
  {}

  function CaptureFor(leg: Leg, k: nat): (c: Capture)
    requires k < 100
  {
    Capture(leg.studyId, leg.runId, ModelCallId(leg.runId, k))
  }

  function ReceiptFor(leg: Leg, k: nat, x: Execution, carry: set<Id>, response: Response, usage: Usage): (r: Receipt)
    requires k < 100
    ensures CountsRequests(r)
  {
    Receipt(leg.studyId, leg.runId, k, ModelCallId(leg.runId, k), usage, |response.requests|,
            Requests(response.requests), x.removed, PairKeys(carry - x.restored), x.bound,
            x.preHash, x.postHash, x.contextChanged)
  }

  /** What the environment answered in call `k`, up to a validated response. */
  ghost predicate Answered(leg: Leg, k: nat) {
    var s := leg.calls(k);
    s.execution.Some? && s.response.Some? && s.response.value.usage.Some?
  }

  /** The receipt of call `k` says what the executor did and what the provider answered. */
  ghost predicate ReceiptTells(leg: Leg, k: nat, carry: set<Id>, r: Receipt)
    requires Answered(leg, k)
  {
    var x, response := leg.calls(k).execution.value, leg.calls(k).response.value;
    && r.studyId == leg.studyId && r.runId == leg.runId && r.callOrdinal == k
    && (k < 100 ==> r.modelCallId == ModelCallId(leg.runId, k))
    && r.usage.input == response.usage.value.input && r.usage.output == response.usage.value.output
    && r.usage.total == response.usage.value.total
    && r.toolCalls == |r.toolRequests| == |response.requests|
    && (forall i | 0 <= i < |response.requests| :: r.toolRequests[i] == response.requests[i].request)
    && r.removed == x.removed && r.bound == x.bound && r.contextChanged == x.contextChanged
    && r.preHash == x.preHash && r.postHash == x.postHash
    && (forall id :: ToolCall(id) in r.carried <==> id in carry && id !in x.restored)
    && (forall id :: ToolResult(id) in r.carried <==> id in carry && id !in x.restored)
    && (forall key | key in r.carried :: !key.OtherKey?)
  }

  lemma ReceiptForTells(leg: Leg, k: nat, carry: set<Id>)
    requires k < 100 && Answered(leg, k)
    ensures var s := leg.calls(k);
            ReceiptTells(leg, k, carry, ReceiptFor(leg, k, s.execution.value, carry, s.response.value,
                                                   s.response.value.usage.value))
  {}

  /** The executions of a call: the tool executor's, or those that came with the response. */
  function Executions(leg: Leg, s: CallScript): (r: seq<ToolExecution>)
    requires s.response.Some?
  {
    if leg.hasTools && s.response.value.requests != [] then (if s.returned.Some? then s.returned.value else [])
    else s.response.value.executions
  }

  /** The recorded tools are the executions of the call, each once. */
  ghost predicate ToolsTell(executions: seq<ToolExecution>, tools: seq<ToolExecution>) {
    |tools| == |executions| && forall x :: x in tools <==> x in executions
  }

  lemma {:induction false} SameElements<T>(s: seq<T>, t: seq<T>)
    requires |s| == |t| && forall i, j | 0 <= i < j < |s| :: s[i] != s[j]
    requires forall x | x in s :: x in t
    ensures forall x | x in t :: x in s
  {
    if s != [] {
      var n := |s| - 1;
      assert s[n] in s;
      var i :| 0 <= i < |t| && t[i] == s[n];
      var rest := t[..i] + t[i + 1..];
      forall x | x in s[..n] ensures x in rest {
        assert x in s && x != s[n];
        var j :| 0 <= j < |t| && t[j] == x;
        assert rest[if j < i then j else j - 1] == x;
      }
      SameElements(s[..n], rest);
      assert s == s[..n] + [s[n]] && t == t[..i] + [t[i]] + t[i + 1..];
    }
  }

  lemma ToolsTellAll(rs: seq<LiveRequest>, executions: seq<ToolExecution>, tools: seq<ToolExecution>)
    requires MatchedExecutions(rs, executions) && |tools| == |executions|
    requires forall i | 0 <= i < |executions| :: executions[i] in tools
    ensures ToolsTell(executions, tools)
  {
    assert forall x | x in executions :: x in tools;
    SameElements(executions, tools);
  }

  /** Every row of a leg tells its call, with the carry of the rows before it. */
  ghost predicate RowTells(leg: Leg, evidence: seq<Evidence>, i: nat)
    requires i < |evidence|
  {
    && Answered(leg, i + 1)
    && ReceiptTells(leg, i + 1, CarryAfter(leg.initialCarry, Receipts(evidence[..i])), evidence[i].receipt)
    && ToolsTell(Executions(leg, leg.calls(i + 1)), evidence[i].toolEvents)
  }

  ghost predicate RowsTell(leg: Leg, evidence: seq<Evidence>) {
    forall i | 0 <= i < |evidence| :: RowTells(leg, evidence, i)
  }

  lemma RowsTellAppend(leg: Leg, evidence: seq<Evidence>, e: Evidence)
    requires RowsTell(leg, evidence) && Answered(leg, |evidence| + 1)
    requires ReceiptTells(leg, |evidence| + 1, CarryAfter(leg.initialCarry, Receipts(evidence)), e.receipt)
    requires ToolsTell(Executions(leg, leg.calls(|evidence| + 1)), e.toolEvents)
    ensures RowsTell(leg, evidence + [e])
  {
    var rows := evidence + [e];
    forall i | 0 <= i < |rows| ensures RowTells(leg, rows, i) {
      if i < |evidence| {
        assert RowTells(leg, evidence, i);
        assert rows[..i] == evidence[..i];
      } else {
        assert rows[..i] == evidence;
      }
    }
  }

  function FindTool(tools: seq<ToolExecution>, id: Id): (r: Option<ToolExecution>)
    ensures r.Some? <==> ToolSeen(tools, id)
    ensures r.Some? ==> r.value in tools && r.value.toolCallId == id
  {
    if tools == [] then None else if tools[0].toolCallId == id then Some(tools[0]) else FindTool(tools[1..], id)
  }

  datatype CallResult = CallResult(evidence: Evidence, outcome: Outcome, carry: set<Id>)

  datatype LegResult = LegResult(evidence: seq<Evidence>, outcome: Outcome)

  function Receipts(evidence: seq<Evidence>): (r: seq<Receipt>)
    ensures |r| == |evidence| && forall i | 0 <= i < |r| :: r[i] == evidence[i].receipt
  {
    seq(|evidence|, i requires 0 <= i < |evidence| => evidence[i].receipt)
  }

  function RecordedCall(leg: Leg, k: nat, evidence: Evidence): (c: Call)
    requires k < 100
  {
    Call(leg.runId, k, CaptureFor(leg, k), Some(evidence.receipt), evidence.toolEvents, true)
  }

  /** The accounted calls of a completed leg. */
  function RecordedCalls(leg: Leg, evidence: seq<Evidence>): (r: seq<Call>)
    requires |evidence| < 100
  {
    seq(|evidence|, i requires 0 <= i < |evidence| => RecordedCall(leg, i + 1, evidence[i]))
  }

  /** Where a leg stands after some recorded calls: its rows, its carry, its accounted calls. */
  ghost predicate Progress(leg: Leg, prior: seq<Call>, log: seq<Checkpoint>, runs: seq<Id>, evidence: seq<Evidence>,
      carry: set<Id>)
  {
    && |evidence| < 100
    && CarryRun(leg.initialCarry, Receipts(evidence))
    && carry == CarryAfter(leg.initialCarry, Receipts(evidence))
    && (Distinct(runs) ==> CallsOf(log) == prior + RecordedCalls(leg, evidence))
    && RowsTell(leg, evidence)
  }

  /**
   A completed leg: every call recorded, in order, as it was answered, and nothing
   else added to the accounting; only the last response asked to stop.
   */
  ghost predicate Completed(leg: Leg, prior: seq<Call>, log: seq<Checkpoint>, runs: seq<Id>, r: LegResult) {
    && r.outcome != Continue
    && 1 <= |r.evidence| <= leg.maxCalls <= 24
    && CarryRun(leg.initialCarry, Receipts(r.evidence))
    && (Distinct(runs) ==> CallsOf(log) == prior + RecordedCalls(leg, r.evidence))
    && RowsTell(leg, r.evidence) && StopsAt(leg, |r.evidence|)
    && r.outcome == leg.calls(|r.evidence|).response.value.outcome
  }

  lemma LegEnds(leg: Leg, prior: seq<Call>, log: seq<Checkpoint>, runs: seq<Id>, r: LegResult, carry: set<Id>)
    requires Progress(leg, prior, log, runs, r.evidence, carry) && Ongoing(leg, |r.evidence|)
    requires 1 <= |r.evidence| <= leg.maxCalls <= 24 && Accepted(leg, leg.calls(|r.evidence|))
    requires r.outcome == leg.calls(|r.evidence|).response.value.outcome && r.outcome != Continue
    ensures Completed(leg, prior, log, runs, r)
  {}

  lemma DistinctOpened(runs: seq<Id>, runId: Id, k: nat)
    requires Distinct(OpenedBy(runs, runId, k))
    ensures Distinct(runs)
  {
    DistinctAppend(runs, runId);
  }

  lemma ProgressStep(leg: Leg, prior: seq<Call>, evidence: seq<Evidence>, call: CallResult)
    requires |evidence| < 24 && CarryRun(leg.initialCarry, Receipts(evidence))
    requires var r := call.evidence.receipt;
             r.callOrdinal == |evidence| + 1 && CarriedFrom(r.carried, CarryAfter(leg.initialCarry, Receipts(evidence)))
             && call.carry == Commit(CarryAfter(leg.initialCarry, Receipts(evidence)), r.removed, r.bound)
    ensures CarryRun(leg.initialCarry, Receipts(evidence + [call.evidence]))
    ensures call.carry == CarryAfter(leg.initialCarry, Receipts(evidence + [call.evidence]))
    ensures prior + RecordedCalls(leg, evidence) + [RecordedCall(leg, |evidence| + 1, call.evidence)]
            == prior + RecordedCalls(leg, evidence + [call.evidence])
  {
    CarryRunAppend(leg.initialCarry, Receipts(evidence), call.evidence.receipt);
    ReceiptsAppend(evidence, call.evidence);
    RecordedCallsAppend(leg, prior, evidence, call.evidence);
  }

  lemma ReceiptsAppend(evidence: seq<Evidence>, e: Evidence)
    ensures Receipts(evidence + [e]) == Receipts(evidence) + [e.receipt]
  {}

  lemma RecordedCallsAppend(leg: Leg, prior: seq<Call>, evidence: seq<Evidence>, e: Evidence)
    requires |evidence| < 24
    ensures prior + RecordedCalls(leg, evidence) + [RecordedCall(leg, |evidence| + 1, e)]
            == prior + RecordedCalls(leg, evidence + [e])
  {
    assert RecordedCalls(leg, evidence + [e]) == RecordedCalls(leg, evidence) + [RecordedCall(leg, |evidence| + 1, e)];
  }

  // ----- environments without failures -----------------------------------

  ghost predicate Acknowledges(sink: nat -> bool) { forall n :: sink(n) }

  /** The tool loop of the call goes through. */
  predicate ToolsAccepted(leg: Leg, s: CallScript, response: Response) {
    if response.requests == [] then true
    else if leg.hasTools then
      && response.executions == [] && s.returned.Some? && |s.returned.value| == |response.requests|
      && MatchedExecutions(response.requests, s.reports) && MatchedExecutions(response.requests, s.returned.value)
      && forall x | x in s.reports :: x in s.returned.value
    else !leg.authorized
  }

  /** Every pair that the call evicts has an unambiguous fingerprint. */
  predicate Unambiguous(s: CallScript)
    requires s.execution.Some?
  {
    var x := s.execution.value;
    forall k | k in x.removed && k.ToolCall? && Evicted(k.id, x.removed, x.bound) :: s.unambiguous(k.id)
  }

  /** The call goes through if every append is acknowledged. */
  ghost predicate Accepted(leg: Leg, s: CallScript) {
    && s.execution.Some? && s.permitted && s.reserved
    && s.response.Some? && ValidResponse(s.response.value) && ToolsAccepted(leg, s, s.response.value)
    && Unambiguous(s)
  }

  /** The call was accepted, asked to continue and has a next observation. */
  ghost predicate GoesOn(leg: Leg, k: nat) {
    var s := leg.calls(k);
    Accepted(leg, s) && s.response.value.outcome == Continue && s.nextObservation
  }

  /** Call `n` is accepted and asks to stop, and every call before it goes on. */
  ghost predicate StopsAt(leg: Leg, n: nat) {
    && (forall k | 1 <= k < n :: GoesOn(leg, k))
    && Accepted(leg, leg.calls(n)) && leg.calls(n).response.value.outcome != Continue
  }

  /** What a leg needs of its environment, the sink apart. */
  ghost predicate Succeeds(leg: Leg) {
    && 1 <= leg.maxCalls <= 24 && leg.begin == Begins && leg.setsUp && leg.closes && leg.evidenceAccepted
    && exists n | 1 <= n <= leg.maxCalls :: StopsAt(leg, n)
  }

  /** Every call before `k` went on. */
  ghost predicate Ongoing(leg: Leg, k: nat) { forall j | 1 <= j < k :: GoesOn(leg, j) }

  lemma OngoingStep(leg: Leg, k: nat)
    requires 1 <= k && Ongoing(leg, k) && GoesOn(leg, k)
    ensures Ongoing(leg, k + 1)
  {}

  /** A leg that has come to call `k` stops there or later, if it stops. */
  lemma StopsLater(leg: Leg, k: nat, n: nat)
    requires 1 <= n && 1 <= k && Ongoing(leg, k) && StopsAt(leg, n)
    ensures k <= n && (k < n ==> GoesOn(leg, k)) && Accepted(leg, leg.calls(k))
  {
    assert !GoesOn(leg, n);
  }

  lemma CannotStop(leg: Leg, k: nat)
    requires 1 <= k <= leg.maxCalls && Ongoing(leg, k)
    requires || !Accepted(leg, leg.calls(k))
             || (leg.calls(k).response.value.outcome == Continue
                 && (k == leg.maxCalls || !leg.calls(k).nextObservation))
    ensures !Succeeds(leg)
  {
    if n :| 1 <= n <= leg.maxCalls && StopsAt(leg, n) { StopsLater(leg, k, n); }
  }

  lemma AfterCall(leg: Leg, k: nat)
    requires 1 <= k <= leg.maxCalls && Ongoing(leg, k)
    ensures !Accepted(leg, leg.calls(k)) ==> !Succeeds(leg)
    ensures Accepted(leg, leg.calls(k)) && leg.calls(k).response.value.outcome == Continue ==>
              if k == leg.maxCalls || !leg.calls(k).nextObservation then !Succeeds(leg) else Ongoing(leg, k + 1)
  {
    if !Accepted(leg, leg.calls(k)) {
      CannotStop(leg, k);
    } else if leg.calls(k).response.value.outcome == Continue {
      if k == leg.maxCalls || !leg.calls(k).nextObservation { CannotStop(leg, k); } else { OngoingStep(leg, k); }
    }
  }

  lemma {:induction false} FindStable(rs: seq<LiveRequest>, x: ToolExecution)
    requires StableRequests(rs) && ToolRequest(x.toolCallId, x.toolName) in Requests(rs)
    ensures FindRequest(Requests(rs), x.toolCallId) == Some(ToolRequest(x.toolCallId, x.toolName))
  {
    if rs[0].request.toolCallId != x.toolCallId {
      assert Requests(rs)[1..] == Requests(rs[1..]);
      FindStable(rs[1..], x);
    } else {
      var i :| 0 <= i < |rs| && Requests(rs)[i] == ToolRequest(x.toolCallId, x.toolName);
      assert i == 0 || rs[0].request.toolCallId != rs[i].request.toolCallId;
    }
  }

  lemma MatchedReports(rs: seq<LiveRequest>, xs: seq<ToolExecution>, i: nat)
    requires StableRequests(rs) && MatchedExecutions(rs, xs) && i < |xs|
    ensures FindRequest(Requests(rs), xs[i].toolCallId) == Some(ToolRequest(xs[i].toolCallId, xs[i].toolName))
    ensures !ToolSeen(xs[..i], xs[i].toolCallId)
  {
    FindStable(rs, xs[i]);
  }

  /** A report is recorded when it matches; the recorded ones match. */
  lemma ReportStep(rs: seq<LiveRequest>, xs: seq<ToolExecution>, i: nat)
    requires i < |xs| && MatchedExecutions(rs, xs[..i])
    ensures xs[..i + 1] == xs[..i] + [xs[i]]
    ensures var matches := && FindRequest(Requests(rs), xs[i].toolCallId)
                              == Some(ToolRequest(xs[i].toolCallId, xs[i].toolName))
                           && !ToolSeen(xs[..i], xs[i].toolCallId);
            && (StableRequests(rs) && MatchedExecutions(rs, xs) ==> matches)
            && (matches ==> MatchedExecutions(rs, xs[..i + 1]))
  {
    MatchedStep(rs, xs, i);
    if StableRequests(rs) && MatchedExecutions(rs, xs) { MatchedReports(rs, xs, i); }
  }

  predicate DistinctIds(xs: seq<ToolExecution>) {
    forall a, b | 0 <= a < b < |xs| :: xs[a].toolCallId != xs[b].toolCallId
  }

  /** The recorded tools after the first `i` returned ones were recorded or compared. */
  ghost predicate Folded(reported: seq<ToolExecution>, returned: seq<ToolExecution>, i: nat,
      recorded: seq<ToolExecution>)
    requires i <= |returned|
  {
    && reported <= recorded && DistinctIds(recorded)
    && (forall j | 0 <= j < i :: returned[j] in recorded)
    && (forall x | x in recorded :: x in reported || x in returned)
  }

  lemma FoldedStep(reported: seq<ToolExecution>, returned: seq<ToolExecution>, i: nat, recorded: seq<ToolExecution>)
    requires i < |returned| && Folded(reported, returned, i, recorded) && DistinctIds(returned)
    ensures returned[i] in recorded ==> Folded(reported, returned, i + 1, recorded)
    ensures !ToolSeen(recorded, returned[i].toolCallId) ==> Folded(reported, returned, i + 1, recorded + [returned[i]])
    ensures (forall x | x in reported :: x in returned) && ToolSeen(recorded, returned[i].toolCallId) ==>
              FindTool(recorded, returned[i].toolCallId) == Some(returned[i])
  {
    if (forall x | x in reported :: x in returned) && ToolSeen(recorded, returned[i].toolCallId) {
      var known := FindTool(recorded, returned[i].toolCallId).value;
      assert known in returned;
      var j :| 0 <= j < |returned| && returned[j] == known;
      assert j == i;
    }
  }

  lemma {:induction false} DistinctWithin(xs: seq<ToolExecution>, ys: seq<ToolExecution>)
    requires DistinctIds(xs) && forall x | x in xs :: x in ys
    ensures |xs| <= |ys|
  {
    if xs != [] {
      var n := |xs| - 1;
      assert xs[n] in xs;
      var i :| 0 <= i < |ys| && ys[i] == xs[n];
      var rest := ys[..i] + ys[i + 1..];
      forall x | x in xs[..n] ensures x in rest {
        assert x in xs && x != xs[n];
        var j :| 0 <= j < |ys| && ys[j] == x;
        assert rest[if j < i then j else j - 1] == x;
      }
      DistinctWithin(xs[..n], rest);
    }
  }

  lemma FoldedAll(reported: seq<ToolExecution>, returned: seq<ToolExecution>, recorded: seq<ToolExecution>)
    requires Folded(reported, returned, |returned|, recorded) && DistinctIds(returned)
    requires forall x | x in reported :: x in returned
    ensures |recorded| == |returned|
  {
    DistinctWithin(recorded, returned);
    DistinctWithin(returned, recorded);
  }

  lemma ReceiveStep(c: Call, receipt: Receipt)
    requires HasKey(c, receipt.runId, receipt.callOrdinal) && c.receipt.None?
    requires receipt.studyId == c.permit.studyId && receipt.modelCallId == c.permit.modelCallId
    ensures CallStep(c, ResponseReceived(receipt.callOrdinal, receipt)) == Some(c.(receipt := Some(receipt)))
  {}

  /** `file` is `log`, or `log` and one more line. */
  ghost predicate OneAhead(log: seq<Checkpoint>, file: seq<Checkpoint>) { log <= file && |file| <= |log| + 1 }

  /** The run ids opened so far, or those with this leg's. */
  ghost predicate MayOpen(runs: seq<Id>, ids: seq<Id>, runId: Id, k: nat) {
    ids == runs || ids == OpenedBy(runs, runId, k)
  }

  class Driver {
    const sink: nat -> bool
    const written: nat -> bool
    var checkpointOrdinal: nat
    var terminal: bool
    var log: seq<Checkpoint>
    var file: seq<Checkpoint>
    ghost var runs: seq<Id>
    ghost var fileRuns: seq<Id>

    ghost predicate Valid()
      reads this
    {
      Sound() && (!terminal ==> InStep())
    }

    /** The acknowledged log and the durable file are both logs of a driver; the file may be one line ahead. */
    ghost predicate Sound()
      reads this
    {
      Good(log, runs) && Good(file, fileRuns) && OneAhead(log, file)
    }

    /** Every append so far was acknowledged. */
    ghost predicate InStep()
      reads this
    {
      checkpointOrdinal == |log| && file == log && fileRuns == runs
    }

    /** Every append so far was acknowledged and the log is inside a call. */
    ghost predicate Inside(prior: seq<Call>, c: Call)
      reads this
    {
      InStep() && InCall(log, runs, prior, c)
    }

    /** Every append so far was acknowledged and call `k` is next. */
    ghost predicate Before(runId: Id, k: nat)
      reads this
    {
      InStep() && AtCall(log, runs, runId, k)
    }

    constructor (acknowledges: nat -> bool, writes: nat -> bool)
      ensures Valid() && log == [] && runs == [] && file == [] && fileRuns == [] && !terminal
      ensures sink == acknowledges && written == writes
    {
      sink, written := acknowledges, writes;
      checkpointOrdinal, terminal, log, runs, file, fileRuns := 0, false, [], [], [], [];
    }

    /** The line of a failed append may have reached the file before the failure. */
    method AppendCheckpoint(e: Event) returns (ok: bool)
      modifies this`checkpointOrdinal, this`log, this`file
      ensures checkpointOrdinal == old(checkpointOrdinal) + 1
      ensures ok == sink(checkpointOrdinal)
      ensures log == if ok then old(log) + [Checkpoint(checkpointOrdinal, e)] else old(log)
      ensures file ==
              if ok || written(checkpointOrdinal) then old(file) + [Checkpoint(checkpointOrdinal, e)] else old(file)
    {
      checkpointOrdinal := checkpointOrdinal + 1;
      ok := sink(checkpointOrdinal);
      if ok || written(checkpointOrdinal) { file := file + [Checkpoint(checkpointOrdinal, e)]; }
      if ok { log := log + [Checkpoint(checkpointOrdinal, e)]; }
    }

    /** `recordTool`: a reported execution must match a request and be new. */
    method RecordTool(receipt: Receipt, recorded: seq<ToolExecution>, x: ToolExecution, ghost prior: seq<Call>,
        ghost c: Call)
      returns (ok: bool, next: seq<ToolExecution>)
      requires Inside(prior, c) && HasKey(c, receipt.runId, receipt.callOrdinal)
      requires c.receipt == Some(receipt) && c.tools == recorded && !c.recorded
      modifies this`checkpointOrdinal, this`log, this`file
      ensures old(log) <= log && Sound()
      ensures ok <==>
        && FindRequest(receipt.toolRequests, x.toolCallId) == Some(ToolRequest(x.toolCallId, x.toolName))
        && !ToolSeen(recorded, x.toolCallId) && sink(old(checkpointOrdinal) + 1)
      ensures ok ==> next == recorded + [x] && Inside(prior, c.(tools := next))
    {
      var request := FindRequest(receipt.toolRequests, x.toolCallId);
      if request.None? || request.value.toolName != x.toolName || ToolSeen(recorded, x.toolCallId) {
        return false, recorded;
      }
      var e := ToolExecutionRecorded(receipt.callOrdinal, receipt.runId, x);
      CallEventStep(log, runs, prior, c, e);
      ok := AppendCheckpoint(e);
      next := if ok then recorded + [x] else recorded;
    }

    /** The executor's callbacks; the first failing one escapes the tool loop. */
    method RecordReports(receipt: Receipt, rs: seq<LiveRequest>, reports: seq<ToolExecution>, ghost prior: seq<Call>,
        ghost c: Call)
      returns (ok: bool, recorded: seq<ToolExecution>)
      requires Inside(prior, c) && HasKey(c, receipt.runId, receipt.callOrdinal)
      requires c.receipt == Some(receipt) && c.tools == [] && !c.recorded && receipt.toolRequests == Requests(rs)
      modifies this`checkpointOrdinal, this`log, this`file
      ensures old(log) <= log && Sound()
      ensures ok ==> recorded == reports && Inside(prior, c.(tools := recorded)) && MatchedExecutions(rs, reports)
      ensures Acknowledges(sink) && StableRequests(rs) && MatchedExecutions(rs, reports) ==> ok
    {
      recorded := [];
      for i := 0 to |reports|
        invariant recorded == reports[..i] && Inside(prior, c.(tools := recorded))
        invariant old(log) <= log && MatchedExecutions(rs, reports[..i])
      {
        ReportStep(rs, reports, i);
        ok, recorded := RecordTool(receipt, recorded, reports[i], prior, c.(tools := recorded));
        if !ok { return; }
      }
      assert reports[..|reports|] == reports;
      ok := true;
    }

    /** A returned execution: recorded when it was not reported, otherwise compared. */
    method RecordOrCompare(receipt: Receipt, recorded: seq<ToolExecution>, x: ToolExecution,
                           ghost prior: seq<Call>, ghost c: Call)
      returns (ok: bool, next: seq<ToolExecution>)
      requires Inside(prior, c) && HasKey(c, receipt.runId, receipt.callOrdinal)
      requires c.receipt == Some(receipt) && c.tools == recorded && !c.recorded
      modifies this`checkpointOrdinal, this`log, this`file
      ensures old(log) <= log && Sound()
      ensures ok ==> Inside(prior, c.(tools := next)) && x in next
      ensures ok ==> next == if ToolSeen(recorded, x.toolCallId) then recorded else recorded + [x]
      ensures FindTool(recorded, x.toolCallId) == Some(x) ==> ok
      ensures (&& FindTool(recorded, x.toolCallId).None? && Acknowledges(sink)
               && FindRequest(receipt.toolRequests, x.toolCallId) == Some(ToolRequest(x.toolCallId, x.toolName))) ==> ok
    {
      var known := FindTool(recorded, x.toolCallId);
      if known.None? {
        ok, next := RecordTool(receipt, recorded, x, prior, c);
      } else {
        ok := known.value.toolName == x.toolName && known.value.success == x.success && known.value.path == x.path;
        next := recorded;
      }
    }

    /** Records what the executor returned but did not report, and compares the rest. */
    method RecordReturned(receipt: Receipt, rs: seq<LiveRequest>, reported: seq<ToolExecution>,
        returned: seq<ToolExecution>,
                          ghost prior: seq<Call>, ghost c: Call)
      returns (ok: bool, recorded: seq<ToolExecution>)
      requires Inside(prior, c) && HasKey(c, receipt.runId, receipt.callOrdinal)
      requires c.receipt == Some(receipt) && c.tools == reported && !c.recorded && receipt.toolRequests == Requests(rs)
      requires StableRequests(rs) && MatchedExecutions(rs, returned) && DistinctIds(reported)
      modifies this`checkpointOrdinal, this`log, this`file
      ensures old(log) <= log && Sound()
      ensures ok ==> Inside(prior, c.(tools := recorded))
      ensures ok ==> reported <= recorded && forall i | 0 <= i < |returned| :: returned[i] in recorded
      ensures Acknowledges(sink) && (forall x | x in reported :: x in returned) ==> ok && |recorded| == |returned|
    {
      recorded := reported;
      for i := 0 to |returned|
        invariant Inside(prior, c.(tools := recorded))
        invariant old(log) <= log && Folded(reported, returned, i, recorded)
      {
        MatchedReports(rs, returned, i);
        FoldedStep(reported, returned, i, recorded);
        ok, recorded := RecordOrCompare(receipt, recorded, returned[i], prior, c.(tools := recorded));
        if !ok { return; }
      }
      ok := true;
      if forall x | x in reported :: x in returned { FoldedAll(reported, returned, recorded); }
    }

    /** From the receipt to the recorded tools; `None` is a failed leg. */
    method RecordTools(leg: Leg, receipt: Receipt, response: Response, s: CallScript, ghost prior: seq<Call>,
        ghost c: Call)
      returns (r: Option<seq<ToolExecution>>)
      requires Inside(prior, c) && HasKey(c, receipt.runId, receipt.callOrdinal)
      requires c.receipt == Some(receipt) && c.tools == [] && !c.recorded
      requires receipt.toolRequests == Requests(response.requests)
      modifies this`checkpointOrdinal, this`log, this`file, this`terminal
      ensures old(log) <= log && Sound()
      ensures r.Some? ==> terminal == old(terminal) && Inside(prior, c.(tools := r.value))
      ensures r.Some? && leg.hasTools ==> |r.value| == |response.requests|
      ensures r.Some? && s.response == Some(response) ==> ToolsTell(Executions(leg, s), r.value)
      ensures r.Some? && response.requests != [] && leg.authorized ==> leg.hasTools
      ensures r.Some? ==> s.reserved && ToolsAccepted(leg, s, response)
      ensures Acknowledges(sink) && s.reserved && ValidResponse(response) && ToolsAccepted(leg, s, response) ==> r.Some?
    {
      if response.requests != [] && leg.authorized && !leg.hasTools {
        terminal := true;
        return None;
      }
      if !s.reserved { return None; }
      var ok, recorded, executions := true, [], response.executions;
      if leg.hasTools && response.requests != [] {
        if response.executions != [] { return None; }
        ok, recorded := RecordReports(receipt, response.requests, s.reports, prior, c);
        if !ok || s.returned.None? || |s.returned.value| != |response.requests| { return None; }
        executions := s.returned.value;
      }
      var usage := ValidateModelResponse(response.(executions := executions));
      if usage.None? { return None; }
      ok, recorded := RecordReturned(receipt, response.requests, recorded, executions, prior, c.(tools := recorded));
      if !ok || |recorded| != |executions| { return None; }
      NoExecutions(response.requests, executions);
      ToolsTellAll(response.requests, executions, recorded);
      return Some(recorded);
    }

    /** `onOutboundPermitted` */
    method Permit(capture: Capture, k: nat) returns (ok: bool)
      requires Before(capture.runId, k)
      modifies this`checkpointOrdinal, this`log, this`file, this`runs, this`fileRuns
      ensures old(log) <= log && Sound()
      ensures ok == sink(checkpointOrdinal)
      ensures !ok ==> runs == old(runs) && MayOpen(old(runs), fileRuns, capture.runId, k)
      ensures ok ==> Inside(CallsOf(old(log)), NewCall(capture, k)) && runs == OpenedBy(old(runs), capture.runId, k)
    {
      PermitStep(log, runs, capture, k);
      ok := AppendCheckpoint(OutboundPermitted(k, capture));
      if ok { runs := OpenedBy(runs, capture.runId, k); }
      if |file| > |old(file)| { fileRuns := OpenedBy(fileRuns, capture.runId, k); }
    }

    /** The RESPONSE_RECEIVED checkpoint. */
    method Receive(receipt: Receipt, ghost prior: seq<Call>, ghost c: Call) returns (ok: bool)
      requires Inside(prior, c) && HasKey(c, receipt.runId, receipt.callOrdinal) && c.receipt.None?
      requires CountsRequests(receipt) && receipt.studyId == c.permit.studyId
      requires receipt.modelCallId == c.permit.modelCallId
      modifies this`checkpointOrdinal, this`log, this`file
      ensures old(log) <= log && Sound()
      ensures ok == sink(checkpointOrdinal)
      ensures ok ==> Inside(prior, c.(receipt := Some(receipt)))
    {
      var e := ResponseReceived(receipt.callOrdinal, receipt);
      ReceiveStep(c, receipt);
      CallEventStep(log, runs, prior, c, e);
      ok := AppendCheckpoint(e);
    }

    /** The RESPONSE_RECORDED checkpoint. */
    method Record(evidence: Evidence, ghost prior: seq<Call>, ghost c: Call) returns (ok: bool)
      requires Inside(prior, c) && HasKey(c, evidence.receipt.runId, evidence.receipt.callOrdinal)
      requires c.receipt == Some(evidence.receipt) && c.tools == evidence.toolEvents && !c.recorded
      modifies this`checkpointOrdinal, this`log, this`file
      ensures old(log) <= log && Sound()
      ensures ok == sink(checkpointOrdinal)
      ensures ok ==> Before(c.runId, c.callOrdinal + 1)
      ensures ok && Distinct(runs) ==> Account(log) == Some(prior + [c.(recorded := true)])
    {
      var e := ResponseRecorded(evidence.receipt.callOrdinal, evidence);
      CallEventStep(log, runs, prior, c, e);
      ok := AppendCheckpoint(e);
      if ok { NextCall(log, runs, prior, c.(recorded := true)); }
    }

    /** Permit, response and receipt; the executor's answer is `x`. */
    method Exchange(leg: Leg, k: nat, x: Execution, s: CallScript, carry: set<Id>) returns (r: Option<Receipt>)
      requires 1 <= k <= 24 && Before(leg.runId, k)
      modifies this`checkpointOrdinal, this`log, this`file, this`runs, this`fileRuns
      ensures old(log) <= log && Sound()
      ensures MayOpen(old(runs), runs, leg.runId, k) && MayOpen(old(runs), fileRuns, leg.runId, k)
      ensures r.Some? ==>
        && s.response.Some? && s.response.value.usage.Some?
        && r.value == ReceiptFor(leg, k, x, carry, s.response.value, s.response.value.usage.value)
      ensures r.Some? ==>
        Inside(CallsOf(old(log)), Received(leg, k, r.value)) && runs == OpenedBy(old(runs), leg.runId, k)
      ensures r.Some? ==> s.permitted && ValidResponse(s.response.value)
      ensures Acknowledges(sink) && s.permitted && s.response.Some? && ValidResponse(s.response.value) ==> r.Some?
    {
      if !s.permitted { return None; }
      var capture := CaptureFor(leg, k);
      ghost var prior := CallsOf(log);
      var ok := Permit(capture, k);
      if !ok || s.response.None? { return None; }
      var usage := ValidateModelResponse(s.response.value);
      if usage.None? { return None; }
      var receipt := ReceiptFor(leg, k, x, carry, s.response.value, usage.value);
      ok := Receive(receipt, prior, NewCall(capture, k));
      if !ok { return None; }
      return Some(receipt);
    }

    /** Tools and the final checkpoint of a call whose receipt is on record. */
    method Finish(leg: Leg, receipt: Receipt, s: CallScript, response: Response, ghost prior: seq<Call>, ghost c: Call)
      returns (r: Option<Evidence>)
      requires Inside(prior, c) && HasKey(c, receipt.runId, receipt.callOrdinal)
      requires c.receipt == Some(receipt) && c.tools == [] && !c.recorded
      requires receipt.toolRequests == Requests(response.requests)
      modifies this`checkpointOrdinal, this`log, this`file, this`terminal
      ensures old(log) <= log && Sound()
      ensures r.Some? ==> terminal == old(terminal) && Before(c.runId, c.callOrdinal + 1)
      ensures r.Some? ==> r.value.receipt == receipt && (leg.hasTools ==> |r.value.toolEvents| == |response.requests|)
      ensures r.Some? && s.response == Some(response) ==> ToolsTell(Executions(leg, s), r.value.toolEvents)
      ensures r.Some? && Distinct(runs) ==>
        Account(log) == Some(prior + [c.(tools := r.value.toolEvents, recorded := true)])
      ensures r.Some? ==> s.reserved && ToolsAccepted(leg, s, response)
      ensures Acknowledges(sink) && s.reserved && ValidResponse(response) && ToolsAccepted(leg, s, response) ==> r.Some?
    {
      var tools := RecordTools(leg, receipt, response, s, prior, c);
      if tools.None? { return None; }
      var ok := Record(Evidence(receipt, tools.value), prior, c.(tools := tools.value));
      if !ok { return None; }
      return Some(Evidence(receipt, tools.value));
    }

    /** Permit, exchange, tools and final checkpoint of a call. */
    method Converse(leg: Leg, k: nat, carry: set<Id>) returns (r: Option<Evidence>)
      requires 1 <= k <= 24 && Before(leg.runId, k) && leg.calls(k).execution.Some?
      modifies this`checkpointOrdinal, this`log, this`file, this`runs, this`fileRuns, this`terminal
      ensures old(log) <= log && Sound()
      ensures MayOpen(old(runs), runs, leg.runId, k) && MayOpen(old(runs), fileRuns, leg.runId, k)
      ensures r.Some? ==>
        terminal == old(terminal) && Before(leg.runId, k + 1) && runs == OpenedBy(old(runs), leg.runId, k)
      ensures r.Some? && Distinct(runs) ==>
        Account(log) == Some(CallsOf(old(log)) + [RecordedCall(leg, k, r.value)])
      ensures r.Some? ==>
        var s := leg.calls(k);
        && s.permitted && s.reserved && s.response.Some? && ValidResponse(s.response.value)
        && ToolsAccepted(leg, s, s.response.value)
        && r.value.receipt ==
           ReceiptFor(leg, k, s.execution.value, carry, s.response.value, s.response.value.usage.value)
        && ToolsTell(Executions(leg, s), r.value.toolEvents)
        && (leg.hasTools ==> |r.value.toolEvents| == |s.response.value.requests|)
      ensures Acknowledges(sink) && Accepted(leg, leg.calls(k)) ==> r.Some?
    {
      var s := leg.calls(k);
      ghost var prior := CallsOf(log);
      var exchanged := Exchange(leg, k, s.execution.value, s, carry);
      if exchanged.None? { return None; }
      r := Finish(leg, exchanged.value, s, s.response.value, prior, Received(leg, k, exchanged.value));
    }

    /** One pass of the call loop up to the carry commit. */
    method RunCall(leg: Leg, k: nat, carry: set<Id>) returns (r: Option<CallResult>)
      requires 1 <= k <= 24 && Before(leg.runId, k)
      modifies this`checkpointOrdinal, this`log, this`file, this`runs, this`fileRuns, this`terminal
      ensures old(log) <= log && Sound()
      ensures MayOpen(old(runs), runs, leg.runId, k) && MayOpen(old(runs), fileRuns, leg.runId, k)
      ensures r.Some? ==>
        terminal == old(terminal) && Before(leg.runId, k + 1) && runs == OpenedBy(old(runs), leg.runId, k)
      ensures r.Some? && Distinct(runs) ==>
        Account(log) == Some(CallsOf(old(log)) + [RecordedCall(leg, k, r.value.evidence)])
      ensures r.Some? ==>
        var receipt := r.value.evidence.receipt;
        && receipt.callOrdinal == k && CarriedFrom(receipt.carried, carry)
        && r.value.carry == Commit(carry, receipt.removed, receipt.bound)
        && (leg.hasTools ==> |r.value.evidence.toolEvents| == receipt.toolCalls)
        && Answered(leg, k) && ReceiptTells(leg, k, carry, receipt)
        && ToolsTell(Executions(leg, leg.calls(k)), r.value.evidence.toolEvents)
      ensures r.Some? ==> leg.calls(k).response.Some? && r.value.outcome == leg.calls(k).response.value.outcome
      ensures r.Some? ==> Accepted(leg, leg.calls(k))
      ensures Acknowledges(sink) && Accepted(leg, leg.calls(k)) ==> r.Some?
    {
      var s := leg.calls(k);
      if s.execution.None? { return None; }
      var evidence := Converse(leg, k, carry);
      if evidence.None? { return None; }
      ReceiptForTells(leg, k, carry);
      var next := CommitCarry(carry, s.execution.value.removed, s.execution.value.bound, s.unambiguous);
      if next.None? { return None; }
      return Some(CallResult(evidence.value, s.response.value.outcome, next.value));
    }

    /** One pass of the call loop, with the rows so far. */
    method ExtendLeg(leg: Leg, k: nat, evidence: seq<Evidence>, carry: set<Id>, ghost prior: seq<Call>)
      returns (r: Option<CallResult>)
      requires 1 <= k <= leg.maxCalls <= 24 && Before(leg.runId, k) && |evidence| == k - 1
      requires Progress(leg, prior, log, runs, evidence, carry) && Ongoing(leg, k)
      requires k == 1 ==> prior == CallsOf(log)
      modifies this`checkpointOrdinal, this`log, this`file, this`runs, this`fileRuns, this`terminal
      ensures old(log) <= log && Sound()
      ensures MayOpen(old(runs), runs, leg.runId, k) && MayOpen(old(runs), fileRuns, leg.runId, k)
      ensures r.Some? ==>
              terminal == old(terminal) && Before(leg.runId, k + 1) && runs == OpenedBy(old(runs), leg.runId, k)
      ensures r.Some? ==> Progress(leg, prior, log, runs, evidence + [r.value.evidence], r.value.carry)
      ensures r.Some? ==> leg.calls(k).response.Some? && r.value.outcome == leg.calls(k).response.value.outcome
      ensures r.None? && Acknowledges(sink) ==> !Succeeds(leg)
      ensures r.Some? && r.value.outcome == Continue ==>
        if k == leg.maxCalls || !leg.calls(k).nextObservation then !Succeeds(leg) else Ongoing(leg, k + 1)
      ensures r.Some? && r.value.outcome != Continue ==>
        Completed(leg, prior, log, runs, LegResult(evidence + [r.value.evidence], r.value.outcome))
    {
      r := RunCall(leg, k, carry);
      if r.Some? {
        ProgressStep(leg, prior, evidence, r.value);
        RowsTellAppend(leg, evidence, r.value.evidence);
        if Distinct(runs) { DistinctOpened(old(runs), leg.runId, k); }
        if r.value.outcome != Continue {
          LegEnds(leg, prior, log, runs, LegResult(evidence + [r.value.evidence], r.value.outcome), r.value.carry);
        }
      }
      AfterCall(leg, k);
    }

    /** The call loop of `runLeg`; `None` is an error that reaches its catch block. */
    method RunCalls(leg: Leg) returns (r: Option<LegResult>)
      requires Valid() && !terminal && 1 <= leg.maxCalls <= 24
      modifies this`checkpointOrdinal, this`log, this`file, this`runs, this`fileRuns, this`terminal
      ensures old(log) <= log && Sound()
      ensures MayOpen(old(runs), runs, leg.runId, 1) && MayOpen(old(runs), fileRuns, leg.runId, 1)
      ensures r.Some? ==> InStep() && !terminal && runs == old(runs) + [leg.runId]
      ensures r.Some? ==> Completed(leg, CallsOf(old(log)), log, runs, r.value)
      ensures r.None? && Acknowledges(sink) ==> !Succeeds(leg)
    {
      var evidence: seq<Evidence> := [];
      var carry := leg.initialCarry;
      for k := 1 to leg.maxCalls + 1
        invariant Before(leg.runId, k) && !terminal && |evidence| == k - 1 && old(log) <= log
        invariant runs == if k == 1 then old(runs) else old(runs) + [leg.runId]
        invariant k == 1 ==> log == old(log)
        invariant Progress(leg, CallsOf(old(log)), log, runs, evidence, carry)
        invariant Ongoing(leg, k) && (k == leg.maxCalls + 1 ==> !Succeeds(leg))
      {
        var call := ExtendLeg(leg, k, evidence, carry, CallsOf(old(log)));
        if call.None? { return None; }
        evidence := evidence + [call.value.evidence];
        carry := call.value.carry;
        if call.value.outcome != Continue {
          return Some(LegResult(evidence, call.value.outcome));
        }
        if k == leg.maxCalls || !leg.calls(k).nextObservation { return None; }
      }
      return None;
    }

    /** `runLeg`: any error inside its try block, that is after `beginLeg` and the leg's set-up, latches the study. */
    method RunLeg(leg: Leg) returns (r: Option<LegResult>)
      requires Valid()
      modifies this`checkpointOrdinal, this`log, this`file, this`runs, this`fileRuns, this`terminal
      ensures Valid() && old(log) <= log
      ensures old(terminal) ==> r.None? && terminal && unchanged(this)
      ensures MayOpen(old(runs), runs, leg.runId, 1)
      ensures fileRuns == old(fileRuns) || fileRuns == old(runs) + [leg.runId]
      ensures r.None? && !terminal ==> unchanged(this)
      ensures r.None? && leg.begin == Begins && leg.setsUp && 1 <= leg.maxCalls <= 24 ==> terminal
      ensures r.Some? ==> !terminal && Completed(leg, CallsOf(old(log)), log, runs, r.value)
      ensures r.Some? ==> Succeeds(leg)
      ensures !old(terminal) && Acknowledges(sink) ==> (r.Some? <==> Succeeds(leg))
    {
      if terminal { return None; }
      if leg.maxCalls < 1 || leg.maxCalls > 24 { return None; }
      match leg.begin {
        case Refused(trips) =>
          terminal := trips;
          return None;
        case Begins =>
      }
      if !leg.setsUp { return None; }
      r := RunCalls(leg);
      if r.None? || !leg.closes || !leg.evidenceAccepted {
        terminal := true;
        return None;
      }
    }
  }

  ghost function Received(leg: Leg, k: nat, receipt: Receipt): (c: Call)
    requires k < 100
  {
    NewCall(CaptureFor(leg, k), k).(receipt := Some(receipt))
  }

  lemma NoExecutions(rs: seq<LiveRequest>, xs: seq<ToolExecution>)
    requires MatchedExecutions(rs, xs)
    ensures xs != [] ==> rs != []
  {
    if xs != [] { assert ToolRequest(xs[0].toolCallId, xs[0].toolName) in Requests(rs); }
  }

  function RunIds(legs: seq<Leg>): (r: seq<Id>)
    ensures |r| == |legs| && forall i | 0 <= i < |legs| :: r[i] == legs[i].runId
  {
    seq(|legs|, i requires 0 <= i < |legs| => legs[i].runId)
  }

  /** What both readers of a log and their totals must agree on. */
  ghost predicate Reconciled(log: seq<Checkpoint>) {
    && Account(log).Some?
    && TotalsOf(Account(log).value).toolExecutions <= TotalsOf(Account(log).value).toolRequests
    && forall runId: Id :: ReadAlike(log, runId)
  }

  /** The projection of a run has the counts and the incomplete ordinals of the strict accounting. */
  ghost predicate ReadAlike(log: seq<Checkpoint>, runId: Id)
    requires Account(log).Some?
  {
    var p, calls := LiveProjection.Project(log, runId), Where(Account(log).value, LiveProjection.OfRun(runId));
    && LiveProjection.SameCounts(p, TotalsOf(calls))
    && p.incomplete == Sorting.Sort(LiveProjection.Unrecorded(calls), LiveProjection.AtMost)
  }

  /** Every log of the driver that the accounting accepts is read alike by both readers. */
  lemma GoodReconciles(log: seq<Checkpoint>, runs: seq<Id>)
    requires Good(log, runs)
    ensures Distinct(runs) <==> Reconciled(log)
  {
    if Distinct(runs) {
      ExecutionsWithinRequests(log);
      forall runId: Id ensures ReadAlike(log, runId) {
        LiveProjection.ReadersAgree(log, runId);
      }
    }
  }

  /** Opened runs come from the first `i` legs, and are distinct if the legs' run ids are. */
  ghost predicate OpenedAmong(ids: seq<Id>, i: nat, runs: seq<Id>)
    requires i <= |ids|
  {
    (forall id | id in runs :: id in ids[..i]) && (Distinct(ids) ==> Distinct(runs))
  }

  lemma OpenedStep(ids: seq<Id>, i: nat, runs: seq<Id>)
    requires i < |ids| && OpenedAmong(ids, i, runs)
    ensures OpenedAmong(ids, i + 1, runs) && OpenedAmong(ids, i + 1, runs + [ids[i]])
  {
    assert ids[..i + 1] == ids[..i] + [ids[i]];
    assert Distinct(ids) ==> ids[i] !in ids[..i];
    DistinctAppend(runs, ids[i]);
  }

  /**
   A whole study on one driver: whatever fails, distinct run ids give an
   acknowledged log and a durable file that the strict accounting accepts and both
   readers count alike. Either is rejected only when two legs with one run id both
   had their first permit in it. The file is at most one line ahead.
   */
  method RunStudy(legs: seq<Leg>, acknowledges: nat -> bool, writes: nat -> bool) returns (d: Driver)
    ensures fresh(d) && d.Valid() && GapFree(d.log) && GapFree(d.file) && OneAhead(d.log, d.file)
    ensures Account(d.log).Some? <==> Distinct(d.runs)
    ensures Account(d.file).Some? <==> Distinct(d.fileRuns)
    ensures forall id | id in d.runs || id in d.fileRuns :: id in RunIds(legs)
    ensures Distinct(RunIds(legs)) ==> Reconciled(d.log) && Reconciled(d.file)
  {
    d := new Driver(acknowledges, writes);
    for i := 0 to |legs|
      invariant d.Valid() && fresh(d)
      invariant OpenedAmong(RunIds(legs), i, d.runs) && OpenedAmong(RunIds(legs), i, d.fileRuns)
    {
      OpenedStep(RunIds(legs), i, d.runs);
      OpenedStep(RunIds(legs), i, d.fileRuns);
      var r := d.RunLeg(legs[i]);
    }
    GoodReconciles(d.log, d.runs);
    GoodReconciles(d.file, d.fileRuns);
  }

  // ----- what a leg is charged -------------------------------------------

  /** The usage that the provider reported for call `k`. */
  function UsageOf(leg: Leg, k: nat): (u: Usage) {
    var response := leg.calls(k).response;
    if response.Some? && response.value.usage.Some? then response.value.usage.value else Usage(0, 0, 0)
  }

  function RequestsOf(leg: Leg, k: nat): (n: nat) {
    if leg.calls(k).response.Some? then |leg.calls(k).response.value.requests| else 0
  }

  function ExecutionsOf(leg: Leg, k: nat): (n: nat) {
    if leg.calls(k).response.Some? then |Executions(leg, leg.calls(k))| else 0
  }

  /** A sum over the first `n` calls of a leg. */
  function OverCalls(n: nat, f: nat -> nat): (r: nat) { if n == 0 then 0 else OverCalls(n - 1, f) + f(n) }

  ghost predicate ChargedAs(leg: Leg, n: nat, t: Totals) {
    && t.outboundPermits == t.normalizedResponses == t.responsesRecorded == n
    && t.inputTokens == OverCalls(n, k => UsageOf(leg, k).input)
    && t.outputTokens == OverCalls(n, k => UsageOf(leg, k).output)
    && t.totalTokens == OverCalls(n, k => UsageOf(leg, k).total)
    && t.toolRequests == OverCalls(n, k => RequestsOf(leg, k))
    && t.toolExecutions == OverCalls(n, k => ExecutionsOf(leg, k))
  }

  lemma PlusAssoc(a: Totals, b: Totals, c: Totals)
    ensures Plus(Plus(a, b), c) == Plus(a, Plus(b, c))
  {}

  lemma ZeroPlus(t: Totals)
    ensures Plus(ZERO, t) == t
  {
    var sum := Plus(ZERO, t);
    assert sum.outboundPermits == t.outboundPermits && sum.inputTokens == t.inputTokens;
  }

  lemma {:induction false} TotalsConcat(a: seq<Call>, b: seq<Call>)
    ensures TotalsOf(a + b) == Plus(TotalsOf(a), TotalsOf(b))
  {
    if a == [] {
      assert a + b == b;
      ZeroPlus(TotalsOf(b));
    } else {
      assert (a + b)[1..] == a[1..] + b && (a + b)[0] == a[0];
      TotalsConcat(a[1..], b);
      PlusAssoc(CallTotals(a[0]), TotalsOf(a[1..]), TotalsOf(b));
    }
  }

  lemma CallCharged(leg: Leg, n: nat, evidence: seq<Evidence>)
    requires n < |evidence| < 100 && RowTells(leg, evidence, n)
    ensures var t := CallTotals(RecordedCall(leg, n + 1, evidence[n]));
            && t.outboundPermits == t.normalizedResponses == t.responsesRecorded == 1
            && t.inputTokens == UsageOf(leg, n + 1).input && t.outputTokens == UsageOf(leg, n + 1).output
            && t.totalTokens == UsageOf(leg, n + 1).total
            && t.toolRequests == RequestsOf(leg, n + 1) && t.toolExecutions == ExecutionsOf(leg, n + 1)
  {}

  lemma ChargedStep(leg: Leg, n: nat, before: Totals, t: Totals)
    requires ChargedAs(leg, n, before)
    requires t.outboundPermits == t.normalizedResponses == t.responsesRecorded == 1
    requires t.inputTokens == UsageOf(leg, n + 1).input && t.outputTokens == UsageOf(leg, n + 1).output
    requires t.totalTokens == UsageOf(leg, n + 1).total
    requires t.toolRequests == RequestsOf(leg, n + 1) && t.toolExecutions == ExecutionsOf(leg, n + 1)
    ensures ChargedAs(leg, n + 1, Plus(before, t))
  {}

  lemma RowsTellFront(leg: Leg, evidence: seq<Evidence>)
    requires evidence != [] && RowsTell(leg, evidence)
    ensures RowsTell(leg, evidence[..|evidence| - 1]) && RowTells(leg, evidence, |evidence| - 1)
  {
    var front := evidence[..|evidence| - 1];
    forall i | 0 <= i < |front| ensures RowTells(leg, front, i) {
      assert RowTells(leg, evidence, i);
      assert front[..i] == evidence[..i];
    }
  }

  lemma LastTotal(leg: Leg, evidence: seq<Evidence>)
    requires 0 < |evidence| < 100
    ensures var n := |evidence| - 1;
            TotalsOf(RecordedCalls(leg, evidence)) ==
            Plus(TotalsOf(RecordedCalls(leg, evidence[..n])), CallTotals(RecordedCall(leg, n + 1, evidence[n])))
  {
    var n := |evidence| - 1;
    var front, last := RecordedCalls(leg, evidence[..n]), RecordedCall(leg, n + 1, evidence[n]);
    assert RecordedCalls(leg, evidence) == front + [last];
    TotalsConcat(front, [last]);
    OneTotal(last);
  }

  lemma {:induction false} LegCharged(leg: Leg, evidence: seq<Evidence>)
    requires |evidence| < 100 && RowsTell(leg, evidence)
    ensures ChargedAs(leg, |evidence|, TotalsOf(RecordedCalls(leg, evidence)))
  {
    if evidence != [] {
      var n := |evidence| - 1;
      var front, last := evidence[..n], RecordedCall(leg, n + 1, evidence[n]);
      RowsTellFront(leg, evidence);
      LegCharged(leg, front);
      CallCharged(leg, n, evidence);
      ChargedStep(leg, n, TotalsOf(RecordedCalls(leg, front)), CallTotals(last));
      LastTotal(leg, evidence);
    }
  }

  lemma OneTotal(c: Call)
    ensures TotalsOf([c]) == CallTotals(c)
  {
    assert [c][1..] == [];
    PlusZero(CallTotals(c), TotalsOf([]));
  }

  /**
   A completed leg adds to every total of the accounting exactly what its calls
   were answered: the tokens the provider reported, the requests of the responses,
   the executions of the tool executor.
   */
  lemma CompletedCharges(leg: Leg, prior: seq<Call>, log: seq<Checkpoint>, runs: seq<Id>, r: LegResult)
    requires Completed(leg, prior, log, runs, r) && Distinct(runs)
    ensures ChargedAs(leg, |r.evidence|, TotalsOf(RecordedCalls(leg, r.evidence)))
    ensures TotalsOf(CallsOf(log)) == Plus(TotalsOf(prior), TotalsOf(RecordedCalls(leg, r.evidence)))
  {
    LegCharged(leg, r.evidence);
    TotalsConcat(prior, RecordedCalls(leg, r.evidence));
  }
}
