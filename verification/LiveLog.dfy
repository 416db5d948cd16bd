/**
 The checkpoint log of a live study: its events, the strict accounting that
 accepts or rejects a log, and the totals it derives from an accepted one.
 */
module LiveLog {
  import opened Wrappers

  type Id = string

  datatype Usage = Usage(input: nat, output: nat, total: nat)

  datatype ToolRequest = ToolRequest(toolCallId: Id, toolName: Id)

  datatype ToolExecution = ToolExecution(toolCallId: Id, toolName: Id, path: Option<string>, success: bool)

  /** A source key: the call or the result of a tool pair, or anything else. */
  datatype Key = ToolCall(id: Id) | ToolResult(id: Id) | OtherKey(name: string)

  datatype Capture = Capture(studyId: Id, runId: Id, modelCallId: Id)

  /** The response receipt, with the transition evidence the dose projection reads. */
  datatype Receipt = Receipt(
    studyId: Id,
    runId: Id,
    callOrdinal: nat,
    modelCallId: Id,
    usage: Usage,
    toolCalls: nat,
    toolRequests: seq<ToolRequest>,
    removed: seq<Key>,
    carried: set<Key>,
    bound: set<Key>,
    preHash: Option<string>,
    postHash: Option<string>,
    contextChanged: bool)

  datatype Evidence = Evidence(receipt: Receipt, toolEvents: seq<ToolExecution>)

  datatype Event =
    | OutboundPermitted(callOrdinal: nat, capture: Capture)
    | ResponseReceived(callOrdinal: nat, receipt: Receipt)
    | ToolExecutionRecorded(callOrdinal: nat, runId: Id, execution: ToolExecution)
    | ResponseRecorded(callOrdinal: nat, evidence: Evidence)

  datatype Checkpoint = Checkpoint(checkpointOrdinal: nat, event: Event)

  // ----- strict accounting -----------------------------------------------

  datatype Call = Call(
    runId: Id,
    callOrdinal: nat,
    permit: Capture,
    receipt: Option<Receipt>,
    tools: seq<ToolExecution>,
    recorded: bool)

  function EventRun(e: Event): (r: Id) {
    match e
    case OutboundPermitted(_, capture) => capture.runId
    case ResponseReceived(_, receipt) => receipt.runId
    case ToolExecutionRecorded(_, runId, _) => runId
    case ResponseRecorded(_, evidence) => evidence.receipt.runId
  }

  predicate HasKey(c: Call, runId: Id, k: nat) { c.runId == runId && c.callOrdinal == k }

  predicate NoKey(calls: seq<Call>, runId: Id, k: nat) { forall i | 0 <= i < |calls| :: !HasKey(calls[i], runId, k) }

  /** The position of the call with this key, or the number of calls. */
  function Find(calls: seq<Call>, runId: Id, k: nat): (i: nat)
    ensures i <= |calls|
    ensures i < |calls| ==> HasKey(calls[i], runId, k)
    ensures i == |calls| ==> NoKey(calls, runId, k)
  {
    if calls == [] then 0 else if HasKey(calls[0], runId, k) then 0 else 1 + Find(calls[1..], runId, k)
  }

  function FindRequest(requests: seq<ToolRequest>, toolCallId: Id): (r: Option<ToolRequest>)
    ensures r.Some? ==> r.value in requests && r.value.toolCallId == toolCallId
  {
    if requests == [] then None
    else if requests[0].toolCallId == toolCallId then Some(requests[0])
    else FindRequest(requests[1..], toolCallId)
  }

  predicate ToolSeen(tools: seq<ToolExecution>, toolCallId: Id) {
    exists i | 0 <= i < |tools| :: tools[i].toolCallId == toolCallId
  }

  /** One event against the call it belongs to; `None` stands for a thrown error. */
  function CallStep(c: Call, e: Event): (r: Option<Call>)
    requires !e.OutboundPermitted?
    ensures r.Some? ==> r.value.runId == c.runId && r.value.callOrdinal == c.callOrdinal && r.value.permit == c.permit
  {
    match e
    case ResponseReceived(_, receipt) =>
      if c.receipt.Some? || receipt.callOrdinal != c.callOrdinal || receipt.studyId != c.permit.studyId
         || receipt.modelCallId != c.permit.modelCallId
      then None else Some(c.(receipt := Some(receipt)))
    case ToolExecutionRecorded(_, _, x) =>
      if c.receipt.None? then None
      else
        var request := FindRequest(c.receipt.value.toolRequests, x.toolCallId);
        if request.None? || request.value.toolName != x.toolName || c.recorded || ToolSeen(c.tools, x.toolCallId)
        then None else Some(c.(tools := c.tools + [x]))
    case ResponseRecorded(_, evidence) =>
      if c.receipt.None? || c.recorded || c.tools != evidence.toolEvents
      then None else Some(c.(recorded := true))
  }

  function EventStep(calls: seq<Call>, e: Event): (r: Option<seq<Call>>) {
    var i := Find(calls, EventRun(e), e.callOrdinal);
    if e.OutboundPermitted? then
      if i < |calls| then None
      else Some(calls + [Call(e.capture.runId, e.callOrdinal, e.capture, None, [], false)])
    else if i == |calls| then None
    else
      var c :- CallStep(calls[i], e);
      Some(calls[i := c])
  }

  /** The call records of a log; `None` when the accounting throws. */
  function Account(log: seq<Checkpoint>): (r: Option<seq<Call>>) {
    if log == [] then Some([])
    else
      var n := |log| - 1;
      var calls :- Account(log[..n]);
      if log[n].checkpointOrdinal != n + 1 then None else EventStep(calls, log[n].event)
  }

  lemma AccountAppend(log: seq<Checkpoint>, c: Checkpoint)
    ensures Account(log + [c]) ==
            (match Account(log)
             case None => None
             case Some(calls) => if c.checkpointOrdinal != |log| + 1 then None else EventStep(calls, c.event))
  {
    assert (log + [c])[..|log|] == log;
  }

  lemma {:induction false} AccountPrefix(log: seq<Checkpoint>, i: nat)
    requires i <= |log| && Account(log[..i]).None?
    ensures Account(log).None?
  {
    if i < |log| {
      var n := |log| - 1;
      assert log[..n][..i] == log[..i];
      AccountPrefix(log[..n], i);
    } else {
      assert log[..i] == log;
    }
  }

  /** `deriveC1CallAccounting`: the loop over the checkpoints. */
  method DeriveCalls(log: seq<Checkpoint>) returns (r: Option<seq<Call>>)
    ensures r == Account(log)
  {
    var calls: seq<Call> := [];
    var index := 0;
    while index < |log|
      invariant 0 <= index <= |log|
      invariant Account(log[..index]) == Some(calls)
    {
      assert log[..index + 1] == log[..index] + [log[index]];
      AccountAppend(log[..index], log[index]);
      if log[index].checkpointOrdinal != index + 1 {
        AccountPrefix(log, index + 1);
        return None;
      }
      var next := EventStep(calls, log[index].event);
      if next.None? {
        AccountPrefix(log, index + 1);
        return None;
      }
      calls := next.value;
      index := index + 1;
    }
    assert log[..index] == log;
    return Some(calls);
  }

  // ----- totals ----------------------------------------------------------

  datatype Totals = Totals(
    outboundPermits: nat,
    normalizedResponses: nat,
    responsesRecorded: nat,
    toolRequests: nat,
    toolExecutions: nat,
    inputTokens: nat,
    outputTokens: nat,
    totalTokens: nat)

  function CallTotals(c: Call): (t: Totals) {
    var recorded := if c.recorded then 1 else 0;
    match c.receipt
    case None => Totals(1, 0, recorded, 0, |c.tools|, 0, 0, 0)
    case Some(r) => Totals(1, 1, recorded, r.toolCalls, |c.tools|, r.usage.input, r.usage.output, r.usage.total)
  }

  function Plus(a: Totals, b: Totals): (t: Totals) {
    Totals(
      a.outboundPermits + b.outboundPermits, a.normalizedResponses + b.normalizedResponses,
      a.responsesRecorded + b.responsesRecorded, a.toolRequests + b.toolRequests,
      a.toolExecutions + b.toolExecutions, a.inputTokens + b.inputTokens,
      a.outputTokens + b.outputTokens, a.totalTokens + b.totalTokens)
  }

  const ZERO := Totals(0, 0, 0, 0, 0, 0, 0, 0)

  lemma PlusZero(t: Totals, z: Totals)
    requires z == ZERO
    ensures Plus(t, z) == t
  {
    var sum := Plus(t, z);
    assert sum.outboundPermits == t.outboundPermits && sum.inputTokens == t.inputTokens;
  }

  function TotalsOf(calls: seq<Call>): (t: Totals) {
    if calls == [] then ZERO else Plus(CallTotals(calls[0]), TotalsOf(calls[1..]))
  }

  function Where(calls: seq<Call>, p: Call -> bool): (r: seq<Call>)
    ensures forall c | c in r :: c in calls && p(c)
  {
    if calls == [] then [] else (if p(calls[0]) then [calls[0]] else []) + Where(calls[1..], p)
  }

  lemma TotalsPrepend(c: Call, calls: seq<Call>)
    ensures TotalsOf([c] + calls) == Plus(CallTotals(c), TotalsOf(calls))
  {
    assert ([c] + calls)[1..] == calls;
  }

  /** The calls of completed legs, or of the others. */
  function InLegs(completed: set<Id>, want: bool): Call -> bool { (c: Call) => (c.runId in completed) == want }

  lemma WhereFirst(calls: seq<Call>, p: Call -> bool)
    requires calls != []
    ensures p(calls[0]) ==> TotalsOf(Where(calls, p)) == Plus(CallTotals(calls[0]), TotalsOf(Where(calls[1..], p)))
    ensures !p(calls[0]) ==> Where(calls, p) == Where(calls[1..], p)
  {
    TotalsPrepend(calls[0], Where(calls[1..], p));
  }

  ghost predicate Partitions(all: Totals, left: Totals, right: Totals) { all == Plus(left, right) }

  lemma PlusStep(c: Totals, t: Totals, f: Totals, t': Totals, f': Totals, rest: Totals)
    requires Partitions(rest, t, f)
    requires (t' == Plus(c, t) && f' == f) || (t' == t && f' == Plus(c, f))
    ensures Partitions(Plus(c, rest), t', f')
  {}

  lemma {:induction false} TotalsPartition(calls: seq<Call>, p: Call -> bool, q: Call -> bool)
    requires forall c | c in calls :: p(c) != q(c)
    ensures Partitions(TotalsOf(calls), TotalsOf(Where(calls, p)), TotalsOf(Where(calls, q)))
  {
    if calls != [] {
      var rest := calls[1..];
      TotalsPartition(rest, p, q);
      WhereFirst(calls, p);
      WhereFirst(calls, q);
      assert calls[0] in calls;
      PlusStep(CallTotals(calls[0]), TotalsOf(Where(rest, p)), TotalsOf(Where(rest, q)),
               TotalsOf(Where(calls, p)), TotalsOf(Where(calls, q)), TotalsOf(rest));
    } else {
      PlusZero(TotalsOf(calls), TotalsOf(calls));
    }
  }

  /** All recorded totals split exactly into those of completed and of incomplete legs. */
  lemma TotalsSplit(calls: seq<Call>, completed: set<Id>)
    ensures TotalsOf(calls) ==
            Plus(TotalsOf(Where(calls, InLegs(completed, true))), TotalsOf(Where(calls, InLegs(completed, false))))
  {
    TotalsPartition(calls, InLegs(completed, true), InLegs(completed, false));
  }

  // ----- recorded executions never exceed requests -----------------------

  /** Each recorded execution answers its own request. */
  ghost predicate ToolsFit(c: Call) {
    && (c.receipt.None? ==> c.tools == [])
    && (forall i, j | 0 <= i < j < |c.tools| :: c.tools[i].toolCallId != c.tools[j].toolCallId)
    && (forall i | 0 <= i < |c.tools| ::
          FindRequest(c.receipt.value.toolRequests, c.tools[i].toolCallId).Some?)
  }

  lemma CallStepFits(c: Call, e: Event)
    requires ToolsFit(c) && !e.OutboundPermitted? && CallStep(c, e).Some?
    ensures ToolsFit(CallStep(c, e).value)
  {}

  lemma {:induction false} AccountedToolsFit(log: seq<Checkpoint>)
    requires Account(log).Some?
    ensures forall i | 0 <= i < |Account(log).value| :: ToolsFit(Account(log).value[i])
  {
    if log != [] {
      var n := |log| - 1;
      AccountedToolsFit(log[..n]);
      var calls, e := Account(log[..n]).value, log[n].event;
      var i := Find(calls, EventRun(e), e.callOrdinal);
      if !e.OutboundPermitted? { CallStepFits(calls[i], e); }
    }
  }

  function RequestIds(requests: seq<ToolRequest>): (r: set<Id>)
    ensures |r| <= |requests|
    ensures forall id :: id in r <==> FindRequest(requests, id).Some?
  {
    if requests == [] then {} else {requests[0].toolCallId} + RequestIds(requests[1..])
  }

  lemma {:induction false} DistinctFit(tools: seq<ToolExecution>, ids: set<Id>)
    requires forall i, j | 0 <= i < j < |tools| :: tools[i].toolCallId != tools[j].toolCallId
    requires forall i | 0 <= i < |tools| :: tools[i].toolCallId in ids
    ensures |tools| <= |ids|
  {
    if tools != [] {
      var n := |tools| - 1;
      DistinctFit(tools[..n], ids - {tools[n].toolCallId});
    }
  }

  lemma FitBound(c: Call)
    requires ToolsFit(c) && (c.receipt.Some? ==> CountsRequests(c.receipt.value))
    ensures |c.tools| <= CallTotals(c).toolRequests
  {
    if c.receipt.Some? {
      DistinctFit(c.tools, RequestIds(c.receipt.value.toolRequests));
    }
  }

  lemma {:induction false} FitBounds(calls: seq<Call>)
    requires forall i | 0 <= i < |calls| :: ToolsFit(calls[i])
    requires forall i | 0 <= i < |calls| :: calls[i].receipt.Some? ==> CountsRequests(calls[i].receipt.value)
    ensures TotalsOf(calls).toolExecutions <= TotalsOf(calls).toolRequests
  {
    if calls != [] {
      FitBound(calls[0]);
      FitBounds(calls[1..]);
    }
  }

  // ----- logs as the driver writes them ----------------------------------

  predicate CountsRequests(r: Receipt) { r.toolCalls == |r.toolRequests| }

  /** A receipt counts its own requests; recorded evidence repeats the receipt. */
  predicate EventShaped(calls: seq<Call>, e: Event) {
    match e
    case ResponseReceived(_, receipt) => CountsRequests(receipt)
    case ResponseRecorded(k, evidence) =>
      var i := Find(calls, evidence.receipt.runId, k);
      i < |calls| ==> calls[i].receipt == Some(evidence.receipt)
    case _ => true
  }

  predicate Shaped(log: seq<Checkpoint>) {
    if log == [] then true
    else
      var n := |log| - 1;
      Shaped(log[..n]) && (Account(log[..n]).Some? ==> EventShaped(Account(log[..n]).value, log[n].event))
  }

  lemma ShapedAppend(log: seq<Checkpoint>, c: Checkpoint)
    ensures Shaped(log + [c]) <==>
            Shaped(log) && (Account(log).Some? ==> EventShaped(Account(log).value, c.event))
  {
    assert (log + [c])[..|log|] == log;
  }

  lemma {:induction false} ShapedCounts(log: seq<Checkpoint>)
    requires Account(log).Some? && Shaped(log)
    ensures forall c | c in Account(log).value :: c.receipt.Some? ==> CountsRequests(c.receipt.value)
  {
    if log != [] {
      ShapedCounts(log[..|log| - 1]);
    }
  }

  /** Over any accepted driver log, recorded tool executions never exceed requests. */
  lemma ExecutionsWithinRequests(log: seq<Checkpoint>)
    requires Account(log).Some? && Shaped(log)
    ensures TotalsOf(Account(log).value).toolExecutions <= TotalsOf(Account(log).value).toolRequests
  {
    AccountedToolsFit(log);
    ShapedCounts(log);
    FitBounds(Account(log).value);
  }
}
