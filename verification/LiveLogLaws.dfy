/**
 The strict accounting, stated on the log: what the log says of each call, which
 logs are accepted, and what the accepted ones add up to.
 */
module LiveLogLaws {
  import opened Wrappers
  import opened LiveLog
  import opened Sums

  // ----- what a log says of one call -------------------------------------

  predicate OfCall(e: Event, runId: Id, k: nat) { EventRun(e) == runId && e.callOrdinal == k }

  function PermitOf(log: seq<Checkpoint>, runId: Id, k: nat): (r: Option<Capture>) {
    if log == [] then None
    else
      var e := log[|log| - 1].event;
      if e.OutboundPermitted? && OfCall(e, runId, k) then Some(e.capture) else PermitOf(log[..|log| - 1], runId, k)
  }

  function ReceiptOf(log: seq<Checkpoint>, runId: Id, k: nat): (r: Option<Receipt>) {
    if log == [] then None
    else
      var e := log[|log| - 1].event;
      if e.ResponseReceived? && OfCall(e, runId, k) then Some(e.receipt) else ReceiptOf(log[..|log| - 1], runId, k)
  }

  /** The executions recorded for a call, in log order. */
  function ToolsOf(log: seq<Checkpoint>, runId: Id, k: nat): (r: seq<ToolExecution>) {
    if log == [] then []
    else
      var e := log[|log| - 1].event;
      ToolsOf(log[..|log| - 1], runId, k)
      + (if e.ToolExecutionRecorded? && OfCall(e, runId, k) then [e.execution] else [])
  }

  predicate RecordedIn(log: seq<Checkpoint>, runId: Id, k: nat) {
    exists i | 0 <= i < |log| :: log[i].event.ResponseRecorded? && OfCall(log[i].event, runId, k)
  }

  /** The permits of a log, in order. */
  function Permits(log: seq<Checkpoint>): (r: seq<Event>)
    ensures forall e | e in r :: e.OutboundPermitted?
  {
    if log == [] then []
    else Permits(log[..|log| - 1]) + (if log[|log| - 1].event.OutboundPermitted? then [log[|log| - 1].event] else [])
  }

  // ----- which logs are accepted -----------------------------------------

  /** The first request with the execution's id has its tool name. */
  predicate Asks(r: Receipt, x: ToolExecution) {
    exists i | 0 <= i < |r.toolRequests| ::
      && r.toolRequests[i] == ToolRequest(x.toolCallId, x.toolName)
      && forall j | 0 <= j < i :: r.toolRequests[j].toolCallId != x.toolCallId
  }

  /** The event fits what the log before it says of its call. */
  predicate Fits(before: seq<Checkpoint>, e: Event) {
    var runId, k := EventRun(e), e.callOrdinal;
    var permit, receipt := PermitOf(before, runId, k), ReceiptOf(before, runId, k);
    match e
    case OutboundPermitted(_, _) => permit.None?
    case ResponseReceived(_, r) =>
      && permit.Some? && receipt.None? && r.callOrdinal == k
      && r.studyId == permit.value.studyId && r.modelCallId == permit.value.modelCallId
    case ToolExecutionRecorded(_, _, x) =>
      && receipt.Some? && Asks(receipt.value, x) && !RecordedIn(before, runId, k)
      && forall y | y in ToolsOf(before, runId, k) :: y.toolCallId != x.toolCallId
    case ResponseRecorded(_, evidence) =>
      && receipt.Some? && !RecordedIn(before, runId, k)
      && evidence.toolEvents == ToolsOf(before, runId, k)
  }

  ghost predicate WellKept(log: seq<Checkpoint>) {
    forall i | 0 <= i < |log| :: log[i].checkpointOrdinal == i + 1 && Fits(log[..i], log[i].event)
  }

  /** The call is what the log says of it. */
  predicate Says(log: seq<Checkpoint>, c: Call) {
    && PermitOf(log, c.runId, c.callOrdinal) == Some(c.permit)
    && c.receipt == ReceiptOf(log, c.runId, c.callOrdinal) && c.tools == ToolsOf(log, c.runId, c.callOrdinal)
    && (c.recorded <==> RecordedIn(log, c.runId, c.callOrdinal))
  }

  /** One call for each permit, in order, each as the log says. */
  ghost predicate Mirrors(log: seq<Checkpoint>, calls: seq<Call>) {
    && |calls| == |Permits(log)|
    && (forall i | 0 <= i < |calls| ::
          Permits(log)[i] == OutboundPermitted(calls[i].callOrdinal, calls[i].permit)
          && calls[i].runId == calls[i].permit.runId)
    && (forall i | 0 <= i < |calls| :: Says(log, calls[i]))
    && (forall i, j | 0 <= i < j < |calls| :: !HasKey(calls[j], calls[i].runId, calls[i].callOrdinal))
    && (forall runId, k :: if PermitOf(log, runId, k).Some? then Keyed(calls, runId, k) else Silent(log, runId, k))
  }

  /** The log says nothing of the call. */
  predicate Silent(log: seq<Checkpoint>, runId: Id, k: nat) {
    ReceiptOf(log, runId, k).None? && ToolsOf(log, runId, k) == [] && !RecordedIn(log, runId, k)
  }

  ghost predicate Keyed(calls: seq<Call>, runId: Id, k: nat) {
    exists i :: 0 <= i < |calls| && HasKey(calls[i], runId, k)
  }

  lemma SaysAppend(log: seq<Checkpoint>, c: Checkpoint, runId: Id, k: nat)
    ensures var e, own := c.event, OfCall(c.event, runId, k);
            && PermitOf(log + [c], runId, k) ==
               (if own && e.OutboundPermitted? then Some(e.capture) else PermitOf(log, runId, k))
            && ReceiptOf(log + [c], runId, k) ==
               (if own && e.ResponseReceived? then Some(e.receipt) else ReceiptOf(log, runId, k))
            && ToolsOf(log + [c], runId, k) ==
               ToolsOf(log, runId, k) + (if own && e.ToolExecutionRecorded? then [e.execution] else [])
            && (RecordedIn(log + [c], runId, k) <==> RecordedIn(log, runId, k) || (own && e.ResponseRecorded?))
  {
    var l := log + [c];
    assert l[..|log|] == log;
    if RecordedIn(log, runId, k) {
      var i :| 0 <= i < |log| && log[i].event.ResponseRecorded? && OfCall(log[i].event, runId, k);
      assert l[i] == log[i];
    }
    if OfCall(c.event, runId, k) && c.event.ResponseRecorded? { assert l[|log|] == c; }
  }

  lemma {:induction false} FindIs(requests: seq<ToolRequest>, x: ToolExecution)
    ensures FindRequest(requests, x.toolCallId) == Some(ToolRequest(x.toolCallId, x.toolName)) <==>
            exists i | 0 <= i < |requests| ::
              && requests[i] == ToolRequest(x.toolCallId, x.toolName)
              && forall j | 0 <= j < i :: requests[j].toolCallId != x.toolCallId
  {
    if requests != [] && requests[0].toolCallId != x.toolCallId {
      FindIs(requests[1..], x);
      if i :| 0 <= i < |requests[1..]| && requests[1..][i] == ToolRequest(x.toolCallId, x.toolName)
              && forall j | 0 <= j < i :: requests[1..][j].toolCallId != x.toolCallId {
        assert requests[i + 1] == requests[1..][i];
        assert forall j | 1 <= j < i + 1 :: requests[j] == requests[1..][j - 1];
      }
      if i :| 0 <= i < |requests| && requests[i] == ToolRequest(x.toolCallId, x.toolName)
              && forall j | 0 <= j < i :: requests[j].toolCallId != x.toolCallId {
        assert requests[1..][i - 1] == requests[i];
      }
    }
  }

  /** The step of one call is defined exactly when the event fits. */
  lemma CallStepFitsExactly(log: seq<Checkpoint>, c: Call, e: Event)
    requires Says(log, c) && OfCall(e, c.runId, c.callOrdinal) && !e.OutboundPermitted?
    ensures CallStep(c, e).Some? <==> Fits(log, e)
  {
    if e.ToolExecutionRecorded? && c.receipt.Some? {
      FindIs(c.receipt.value.toolRequests, e.execution);
      ToolSeenIs(c.tools, e.execution.toolCallId);
    }
  }

  lemma ToolSeenIs(tools: seq<ToolExecution>, id: Id)
    ensures ToolSeen(tools, id) <==> exists y | y in tools :: y.toolCallId == id
  {}

  lemma CallStepSays(log: seq<Checkpoint>, c: Call, p: Checkpoint)
    requires Says(log, c) && OfCall(p.event, c.runId, c.callOrdinal) && !p.event.OutboundPermitted?
    requires CallStep(c, p.event).Some?
    ensures Says(log + [p], CallStep(c, p.event).value)
  {
    SaysAppend(log, p, c.runId, c.callOrdinal);
  }

  lemma OtherSays(log: seq<Checkpoint>, c: Call, p: Checkpoint)
    requires Says(log, c) && !OfCall(p.event, c.runId, c.callOrdinal)
    ensures Says(log + [p], c)
  {
    SaysAppend(log, p, c.runId, c.callOrdinal);
  }

  lemma PermitsAppend(log: seq<Checkpoint>, p: Checkpoint)
    ensures Permits(log + [p]) == Permits(log) + (if p.event.OutboundPermitted? then [p.event] else [])
  {
    assert (log + [p])[..|log|] == log;
  }

  lemma FoundKey(log: seq<Checkpoint>, calls: seq<Call>, runId: Id, k: nat)
    requires Mirrors(log, calls)
    ensures var i := Find(calls, runId, k);
            && (i < |calls| <==> PermitOf(log, runId, k).Some?)
            && (i < |calls| ==> HasKey(calls[i], runId, k) && Says(log, calls[i]))
            && (i == |calls| ==> Silent(log, runId, k))
  {
    var i := Find(calls, runId, k);
    if i < |calls| { assert Says(log, calls[i]); }
    if PermitOf(log, runId, k).Some? { assert Keyed(calls, runId, k); }
  }

  lemma NotKeyedYet(log: seq<Checkpoint>, calls: seq<Call>, runId: Id, k: nat)
    requires Mirrors(log, calls) && PermitOf(log, runId, k).None?
    ensures NoKey(calls, runId, k)
  {
    FoundKey(log, calls, runId, k);
  }

  lemma PermitStepMirrors(log: seq<Checkpoint>, calls: seq<Call>, p: Checkpoint)
    requires Mirrors(log, calls) && p.event.OutboundPermitted? && Fits(log, p.event)
    ensures Mirrors(log + [p],
                    calls + [Call(p.event.capture.runId, p.event.callOrdinal, p.event.capture, None, [], false)])
  {
    var e := p.event;
    var c := Call(e.capture.runId, e.callOrdinal, e.capture, None, [], false);
    PermitsAppend(log, p);
    NotKeyedYet(log, calls, c.runId, c.callOrdinal);
    SaysAppend(log, p, c.runId, c.callOrdinal);
    assert Silent(log, c.runId, c.callOrdinal);
    assert Says(log + [p], c);
    forall i | 0 <= i < |calls| ensures Says(log + [p], calls[i]) { OtherSays(log, calls[i], p); }
    forall runId, k
      ensures if PermitOf(log + [p], runId, k).Some? then Keyed(calls + [c], runId, k)
              else Silent(log + [p], runId, k)
    {
      KeyedAppend(log, calls, p, c, runId, k);
    }
  }

  lemma KeyedAppend(log: seq<Checkpoint>, calls: seq<Call>, p: Checkpoint, c: Call, runId: Id, k: nat)
    requires Mirrors(log, calls) && p.event.OutboundPermitted?
    requires HasKey(c, p.event.capture.runId, p.event.callOrdinal)
    ensures if PermitOf(log + [p], runId, k).Some? then Keyed(calls + [c], runId, k) else Silent(log + [p], runId, k)
  {
    SaysAppend(log, p, runId, k);
    if Keyed(calls, runId, k) {
      var i :| 0 <= i < |calls| && HasKey(calls[i], runId, k);
      assert HasKey((calls + [c])[i], runId, k);
    }
    if OfCall(p.event, runId, k) { assert HasKey((calls + [c])[|calls|], runId, k); }
  }

  lemma CallStepMirrors(log: seq<Checkpoint>, calls: seq<Call>, p: Checkpoint, i: nat, c: Call)
    requires Mirrors(log, calls) && !p.event.OutboundPermitted? && i < |calls|
    requires OfCall(p.event, calls[i].runId, calls[i].callOrdinal) && CallStep(calls[i], p.event) == Some(c)
    ensures Mirrors(log + [p], calls[i := c])
  {
    PermitsAppend(log, p);
    CallStepSays(log, calls[i], p);
    forall j | 0 <= j < |calls| && j != i ensures Says(log + [p], calls[j]) { OtherSays(log, calls[j], p); }
    forall runId, k
      ensures if PermitOf(log + [p], runId, k).Some? then Keyed(calls[i := c], runId, k)
              else Silent(log + [p], runId, k)
    {
      KeyedUpdate(log, calls, p, i, c, runId, k);
    }
  }

  lemma KeyedUpdate(log: seq<Checkpoint>, calls: seq<Call>, p: Checkpoint, i: nat, c: Call, runId: Id, k: nat)
    requires Mirrors(log, calls) && !p.event.OutboundPermitted? && i < |calls|
    requires OfCall(p.event, calls[i].runId, calls[i].callOrdinal) && HasKey(c, calls[i].runId, calls[i].callOrdinal)
    ensures if PermitOf(log + [p], runId, k).Some? then Keyed(calls[i := c], runId, k) else Silent(log + [p], runId, k)
  {
    SaysAppend(log, p, runId, k);
    assert Says(log, calls[i]);
    if Keyed(calls, runId, k) {
      var j :| 0 <= j < |calls| && HasKey(calls[j], runId, k);
      assert HasKey(calls[i := c][j], runId, k);
    }
  }

  /** One event is accepted exactly when it fits, and the calls go on mirroring the log. */
  lemma EventStepExact(log: seq<Checkpoint>, calls: seq<Call>, p: Checkpoint)
    requires Mirrors(log, calls)
    ensures EventStep(calls, p.event).Some? <==> Fits(log, p.event)
    ensures EventStep(calls, p.event).Some? ==> Mirrors(log + [p], EventStep(calls, p.event).value)
  {
    var e := p.event;
    var i := Find(calls, EventRun(e), e.callOrdinal);
    FoundKey(log, calls, EventRun(e), e.callOrdinal);
    if e.OutboundPermitted? {
      if i == |calls| { PermitStepMirrors(log, calls, p); }
    } else if i < |calls| {
      CallStepFitsExactly(log, calls[i], e);
      if CallStep(calls[i], e).Some? { CallStepMirrors(log, calls, p, i, CallStep(calls[i], e).value); }
    }
  }

  lemma WellKeptLast(log: seq<Checkpoint>)
    requires log != []
    ensures var n := |log| - 1;
            WellKept(log) <==> WellKept(log[..n]) && log[n].checkpointOrdinal == n + 1 && Fits(log[..n], log[n].event)
  {
    var n := |log| - 1;
    assert forall i | 0 <= i < n :: log[..n][i] == log[i] && log[..n][..i] == log[..i];
  }

  /**
   The accounting accepts a log exactly when its ordinals have no gap and every
   event fits what the log before it says of its call; the calls are then the
   permitted ones, in order, with the receipt, the tools and the record of the log.
   */
  lemma {:induction false} AccountExact(log: seq<Checkpoint>)
    ensures Account(log).Some? <==> WellKept(log)
    ensures Account(log).Some? ==> Mirrors(log, Account(log).value)
  {
    if log != [] {
      var n := |log| - 1;
      AccountExact(log[..n]);
      WellKeptLast(log);
      if Account(log[..n]).Some? {
        EventStepExact(log[..n], Account(log[..n]).value, log[n]);
        assert log == log[..n] + [log[n]];
      }
    }
  }

  // ----- totals ----------------------------------------------------------

  function Received(): Call -> nat { (c: Call) => if c.receipt.Some? then 1 else 0 }
  function Recorded(): Call -> nat { (c: Call) => if c.recorded then 1 else 0 }
  function Requested(): Call -> nat { (c: Call) => if c.receipt.Some? then c.receipt.value.toolCalls else 0 }
  function Executed(): Call -> nat { (c: Call) => |c.tools| }
  function Input(): Call -> nat { (c: Call) => if c.receipt.Some? then c.receipt.value.usage.input else 0 }
  function Output(): Call -> nat { (c: Call) => if c.receipt.Some? then c.receipt.value.usage.output else 0 }
  function AllTokens(): Call -> nat { (c: Call) => if c.receipt.Some? then c.receipt.value.usage.total else 0 }

  /** Each total is the sum of its own quantity over the calls. */
  lemma {:induction false} TotalsExact(calls: seq<Call>)
    ensures var t := TotalsOf(calls);
            && t.outboundPermits == |calls| && t.normalizedResponses == Sum(calls, Received())
            && t.responsesRecorded == Sum(calls, Recorded()) && t.toolRequests == Sum(calls, Requested())
            && t.toolExecutions == Sum(calls, Executed()) && t.inputTokens == Sum(calls, Input())
            && t.outputTokens == Sum(calls, Output()) && t.totalTokens == Sum(calls, AllTokens())
  {
    if calls != [] { TotalsExact(calls[1..]); }
  }
}
