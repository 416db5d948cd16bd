/**
 The per-run projection of a checkpoint log. It never rejects a log: it groups
 whatever it finds by call ordinal. On every log that the strict accounting
 accepts and that has the driver's shape, the two readers agree call by call and
 count by count.
 */
module LiveProjection {
  import opened Wrappers
  import opened LiveLog
  import Sorting
  import opened Sums

  datatype Group = Group(
    callOrdinal: nat,
    outbound: bool,
    received: Option<Receipt>,
    recorded: Option<Evidence>,
    tools: seq<ToolExecution>)

  /** The loop's state: the groups in insertion order and the three counters. */
  datatype State = State(byCall: seq<Group>, permits: nat, receipts: nat, toolEvents: nat)

  datatype Partial = Partial(callOrdinal: nat, outbound: bool, received: Option<Receipt>, tools: seq<ToolExecution>)

  datatype Projection = Projection(
    completed: seq<Evidence>,
    partial: seq<Partial>,
    permits: nat,
    receipts: nat,
    toolEvents: nat,
    incomplete: seq<nat>)

  function Apply(g: Group, e: Event): (r: Group) {
    match e
    case OutboundPermitted(_, _) => g.(outbound := true)
    case ResponseReceived(_, receipt) => g.(received := Some(receipt))
    case ToolExecutionRecorded(_, _, x) => g.(tools := g.tools + [x])
    case ResponseRecorded(_, evidence) => g.(recorded := Some(evidence))
  }

  /** Updates the group of the event's call, creating it at the end when missing. */
  function Upsert(groups: seq<Group>, e: Event): (r: seq<Group>) {
    if groups == [] then [Apply(Group(e.callOrdinal, false, None, None, []), e)]
    else if groups[0].callOrdinal == e.callOrdinal then [Apply(groups[0], e)] + groups[1..]
    else [groups[0]] + Upsert(groups[1..], e)
  }

  function Step(s: State, e: Event, runId: Id): (r: State) {
    if EventRun(e) != runId then s
    else
      State(Upsert(s.byCall, e),
            s.permits + (if e.OutboundPermitted? then 1 else 0),
            s.receipts + (if e.ResponseReceived? then 1 else 0),
            s.toolEvents + (if e.ToolExecutionRecorded? then 1 else 0))
  }

  function Scan(log: seq<Checkpoint>, runId: Id): (r: State) {
    if log == [] then State([], 0, 0, 0) else Step(Scan(log[..|log| - 1], runId), log[|log| - 1].event, runId)
  }

  predicate ByOrdinal(a: Group, b: Group) { a.callOrdinal <= b.callOrdinal }

  function Completed(groups: seq<Group>): (r: seq<Evidence>) {
    if groups == [] then []
    else (if groups[0].recorded.Some? then [groups[0].recorded.value] else []) + Completed(groups[1..])
  }

  function ToPartial(g: Group): (p: Partial) { Partial(g.callOrdinal, g.outbound, g.received, g.tools) }

  function Partials(groups: seq<Group>): (r: seq<Partial>) {
    if groups == [] then []
    else (if groups[0].recorded.None? then [ToPartial(groups[0])] else []) + Partials(groups[1..])
  }

  function Incomplete(groups: seq<Group>): (r: seq<nat>) {
    if groups == [] then []
    else (if groups[0].recorded.None? then [groups[0].callOrdinal] else []) + Incomplete(groups[1..])
  }

  function Project(log: seq<Checkpoint>, runId: Id): (p: Projection) { Finish(Scan(log, runId)) }

  function Finish(s: State): (p: Projection) {
    var groups := Sorting.Sort(s.byCall, ByOrdinal);
    Projection(Completed(groups), Partials(groups), s.permits, s.receipts, s.toolEvents, Incomplete(groups))
  }

  lemma ScanStep(log: seq<Checkpoint>, i: nat, runId: Id)
    requires i < |log|
    ensures Scan(log[..i + 1], runId) == Step(Scan(log[..i], runId), log[i].event, runId)
  {
    assert log[..i + 1][..i] == log[..i];
  }

  /** The grouping loop of `projectC1E0CheckpointEvidence`. */
  method ScanCheckpoints(log: seq<Checkpoint>, runId: Id) returns (s: State)
    ensures s == Scan(log, runId)
  {
    s := State([], 0, 0, 0);
    for i := 0 to |log|
      invariant s == Scan(log[..i], runId)
    {
      ScanStep(log, i, runId);
      var e := log[i].event;
      if EventRun(e) == runId {
        s := s.(byCall := Upsert(s.byCall, e));
        match e {
          case OutboundPermitted(_, _) => s := s.(permits := s.permits + 1);
          case ResponseReceived(_, _) => s := s.(receipts := s.receipts + 1);
          case ToolExecutionRecorded(_, _, _) => s := s.(toolEvents := s.toolEvents + 1);
          case ResponseRecorded(_, _) =>
        }
      }
    }
    assert log[..|log|] == log;
  }

  /** The pass over the sorted groups. */
  method SplitGroups(groups: seq<Group>)
    returns (completed: seq<Evidence>, partial: seq<Partial>, incomplete: seq<nat>)
    ensures completed == Completed(groups) && partial == Partials(groups) && incomplete == Incomplete(groups)
  {
    completed, partial, incomplete := [], [], [];
    for i := 0 to |groups|
      invariant completed + Completed(groups[i..]) == Completed(groups)
      invariant partial + Partials(groups[i..]) == Partials(groups)
      invariant incomplete + Incomplete(groups[i..]) == Incomplete(groups)
    {
      var g := groups[i];
      assert groups[i..][1..] == groups[i + 1..];
      if g.recorded.Some? {
        completed := completed + [g.recorded.value];
      } else {
        incomplete := incomplete + [g.callOrdinal];
        partial := partial + [ToPartial(g)];
      }
    }
  }

  /** `projectC1E0CheckpointEvidence`. */
  method ProjectCheckpoints(log: seq<Checkpoint>, runId: Id) returns (p: Projection)
    ensures p == Project(log, runId)
  {
    var s := ScanCheckpoints(log, runId);
    var completed, partial, incomplete := SplitGroups(Sorting.Sort(s.byCall, ByOrdinal));
    return Projection(completed, partial, s.permits, s.receipts, s.toolEvents, incomplete);
  }

  // ----- agreement of the groups with the accounted calls ----------------

  function OfRun(runId: Id): Call -> bool { (c: Call) => c.runId == runId }

  /** What the projection should hold for an accounted call. */
  function GroupOf(c: Call): (g: Group) {
    Group(c.callOrdinal, true, c.receipt,
          if c.recorded && c.receipt.Some? then Some(Evidence(c.receipt.value, c.tools)) else None, c.tools)
  }

  function Groups(calls: seq<Call>): (r: seq<Group>) {
    if calls == [] then [] else [GroupOf(calls[0])] + Groups(calls[1..])
  }

  function RunGroups(calls: seq<Call>, runId: Id): (r: seq<Group>) { Groups(Where(calls, OfRun(runId))) }

  lemma RunGroupsFirst(calls: seq<Call>, runId: Id)
    requires calls != []
    ensures RunGroups(calls, runId) ==
            (if calls[0].runId == runId then [GroupOf(calls[0])] else []) + RunGroups(calls[1..], runId)
  {
    var rest := Where(calls[1..], OfRun(runId));
    assert OfRun(runId)(calls[0]) == (calls[0].runId == runId);
    if calls[0].runId == runId {
      assert Where(calls, OfRun(runId)) == [calls[0]] + rest;
      assert ([calls[0]] + rest)[1..] == rest;
    } else {
      assert Where(calls, OfRun(runId)) == rest;
    }
  }

  lemma UpsertSkips(g: Group, rest: seq<Group>, e: Event)
    requires g.callOrdinal != e.callOrdinal
    ensures Upsert([g] + rest, e) == [g] + Upsert(rest, e)
  {
    assert ([g] + rest)[1..] == rest;
  }

  lemma {:induction false} RunGroupsAppend(calls: seq<Call>, c: Call, runId: Id)
    ensures RunGroups(calls + [c], runId) == RunGroups(calls, runId) + (if c.runId == runId then [GroupOf(c)] else [])
  {
    RunGroupsFirst(calls + [c], runId);
    if calls == [] {
      assert ([c] + [])[1..] == [];
    } else {
      assert (calls + [c])[1..] == calls[1..] + [c];
      RunGroupsAppend(calls[1..], c, runId);
      RunGroupsFirst(calls, runId);
    }
  }

  /** An update of a call outside the run leaves the run's groups alone. */
  lemma {:induction false} UpdateElsewhere(calls: seq<Call>, i: nat, c: Call, runId: Id)
    requires i < |calls| && calls[i].runId == c.runId != runId
    ensures RunGroups(calls[i := c], runId) == RunGroups(calls, runId)
  {
    RunGroupsFirst(calls, runId);
    RunGroupsFirst(calls[i := c], runId);
    if i == 0 {
      assert calls[i := c][1..] == calls[1..];
    } else {
      assert calls[i := c][1..] == calls[1..][i - 1 := c];
      UpdateElsewhere(calls[1..], i - 1, c, runId);
    }
  }

  /** A permit for a new call adds one group at the end. */
  lemma {:induction false} UpsertNew(calls: seq<Call>, e: Event)
    requires e.OutboundPermitted? && NoKey(calls, e.capture.runId, e.callOrdinal)
    ensures Upsert(RunGroups(calls, e.capture.runId), e) ==
            RunGroups(calls, e.capture.runId) + [Group(e.callOrdinal, true, None, None, [])]
  {
    if calls != [] {
      RunGroupsFirst(calls, e.capture.runId);
      assert !HasKey(calls[0], e.capture.runId, e.callOrdinal);
      UpsertNew(calls[1..], e);
      if calls[0].runId == e.capture.runId {
        UpsertSkips(GroupOf(calls[0]), RunGroups(calls[1..], e.capture.runId), e);
      } else {
        assert RunGroups(calls, e.capture.runId) == RunGroups(calls[1..], e.capture.runId);
      }
    }
  }

  /** An event that steps a call steps its group in place. */
  lemma {:induction false} UpsertExisting(calls: seq<Call>, e: Event, c: Call)
    requires Find(calls, EventRun(e), e.callOrdinal) < |calls|
    requires c.runId == EventRun(e)
    requires GroupOf(c) == Apply(GroupOf(calls[Find(calls, EventRun(e), e.callOrdinal)]), e)
    ensures Upsert(RunGroups(calls, EventRun(e)), e) ==
            RunGroups(calls[Find(calls, EventRun(e), e.callOrdinal) := c], EventRun(e))
  {
    var runId := EventRun(e);
    var i := Find(calls, runId, e.callOrdinal);
    var next := calls[i := c];
    var rest := RunGroups(calls[1..], runId);
    RunGroupsFirst(calls, runId);
    RunGroupsFirst(next, runId);
    if i == 0 {
      assert next[1..] == calls[1..];
      assert ([GroupOf(calls[0])] + rest)[1..] == rest;
    } else {
      assert next[1..] == calls[1..][i - 1 := c];
      UpsertExisting(calls[1..], e, c);
      if calls[0].runId == runId {
        UpsertSkips(GroupOf(calls[0]), rest, e);
      } else {
        assert RunGroups(calls, runId) == rest;
      }
    }
  }

  lemma StepGroup(c: Call, calls: seq<Call>, e: Event)
    requires !e.OutboundPermitted? && CallStep(c, e).Some? && EventShaped(calls, e)
    requires c.recorded ==> c.receipt.Some?
    requires Find(calls, EventRun(e), e.callOrdinal) < |calls|
    requires c == calls[Find(calls, EventRun(e), e.callOrdinal)]
    ensures GroupOf(CallStep(c, e).value) == Apply(GroupOf(c), e)
    ensures CallStep(c, e).value.recorded ==> CallStep(c, e).value.receipt.Some?
  {}

  predicate RecordedReceived(calls: seq<Call>) { forall c | c in calls :: c.recorded ==> c.receipt.Some? }

  lemma {:induction false} Agreement(log: seq<Checkpoint>, runId: Id)
    requires Account(log).Some? && Shaped(log)
    ensures Scan(log, runId).byCall == RunGroups(Account(log).value, runId)
    ensures RecordedReceived(Account(log).value)
  {
    if log != [] {
      var n := |log| - 1;
      Agreement(log[..n], runId);
      var calls, e := Account(log[..n]).value, log[n].event;
      var i := Find(calls, EventRun(e), e.callOrdinal);
      if e.OutboundPermitted? {
        var c := Call(e.capture.runId, e.callOrdinal, e.capture, None, [], false);
        RunGroupsAppend(calls, c, runId);
        UpsertNew(calls, e);
      } else {
        var c := CallStep(calls[i], e).value;
        StepGroup(calls[i], calls, e);
        if EventRun(e) == runId {
          UpsertExisting(calls, e, c);
        } else {
          UpdateElsewhere(calls, i, c, runId);
        }
      }
    }
  }

  // ----- agreement of the counts -----------------------------------------

  function Received(runId: Id): Call -> nat { (c: Call) => if c.runId == runId && c.receipt.Some? then 1 else 0 }
  function Permitted(runId: Id): Call -> nat { (c: Call) => if c.runId == runId then 1 else 0 }
  function Executed(runId: Id): Call -> nat { (c: Call) => if c.runId == runId then |c.tools| else 0 }

  lemma {:induction false} Counters(log: seq<Checkpoint>, runId: Id)
    requires Account(log).Some?
    ensures Scan(log, runId).permits == Sum(Account(log).value, Permitted(runId))
    ensures Scan(log, runId).receipts == Sum(Account(log).value, Received(runId))
    ensures Scan(log, runId).toolEvents == Sum(Account(log).value, Executed(runId))
  {
    if log != [] {
      var n := |log| - 1;
      Counters(log[..n], runId);
      var calls, e := Account(log[..n]).value, log[n].event;
      var i := Find(calls, EventRun(e), e.callOrdinal);
      if e.OutboundPermitted? {
        var c := Call(e.capture.runId, e.callOrdinal, e.capture, None, [], false);
        SumAppend(calls, c, Permitted(runId));
        SumAppend(calls, c, Received(runId));
        SumAppend(calls, c, Executed(runId));
      } else {
        var c := CallStep(calls[i], e).value;
        SumUpdate(calls, i, c, Permitted(runId));
        SumUpdate(calls, i, c, Received(runId));
        SumUpdate(calls, i, c, Executed(runId));
      }
    }
  }

  lemma {:induction false} RunTotals(calls: seq<Call>, runId: Id)
    ensures TotalsOf(Where(calls, OfRun(runId))).outboundPermits == Sum(calls, Permitted(runId))
    ensures TotalsOf(Where(calls, OfRun(runId))).normalizedResponses == Sum(calls, Received(runId))
    ensures TotalsOf(Where(calls, OfRun(runId))).toolExecutions == Sum(calls, Executed(runId))
  {
    if calls != [] {
      RunTotals(calls[1..], runId);
      WhereFirst(calls, OfRun(runId));
    }
  }

  function RecordedWeight(): Group -> nat { (g: Group) => if g.recorded.Some? then 1 else 0 }

  function RequestWeight(): Group -> nat {
    (g: Group) =>
      if g.recorded.Some? then g.recorded.value.receipt.toolCalls
      else if g.received.Some? then |g.received.value.toolRequests| else 0
  }

  function ExecutionWeight(): Group -> nat {
    (g: Group) => if g.recorded.Some? then |g.recorded.value.toolEvents| else |g.tools|
  }

  function EvidenceRequests(): Evidence -> nat { (e: Evidence) => e.receipt.toolCalls }
  function EvidenceExecutions(): Evidence -> nat { (e: Evidence) => |e.toolEvents| }
  function PartialRequests(): Partial -> nat {
    (p: Partial) => if p.received.Some? then |p.received.value.toolRequests| else 0
  }
  function PartialExecutions(): Partial -> nat { (p: Partial) => |p.tools| }

  /** `toolRequestCountForProjection` */
  function ToolRequestCount(p: Projection): (n: nat) {
    Sum(p.completed, EvidenceRequests()) + Sum(p.partial, PartialRequests())
  }

  /** `toolExecutionCountForProjection` */
  function ToolExecutionCount(p: Projection): (n: nat) {
    Sum(p.completed, EvidenceExecutions()) + Sum(p.partial, PartialExecutions())
  }

  lemma SumPrepend<T>(x: T, s: seq<T>, w: T -> nat)
    ensures Sum([x] + s, w) == w(x) + Sum(s, w)
  {
    assert ([x] + s)[1..] == s;
  }

  /** The split of the groups loses and repeats nothing. */
  lemma {:induction false} SplitSums(groups: seq<Group>)
    ensures |Completed(groups)| == Sum(groups, RecordedWeight())
    ensures Sum(Completed(groups), EvidenceRequests()) + Sum(Partials(groups), PartialRequests())
            == Sum(groups, RequestWeight())
    ensures Sum(Completed(groups), EvidenceExecutions()) + Sum(Partials(groups), PartialExecutions())
            == Sum(groups, ExecutionWeight())
  {
    if groups != [] {
      SplitSums(groups[1..]);
      if groups[0].recorded.Some? {
        SumPrepend(groups[0].recorded.value, Completed(groups[1..]), EvidenceRequests());
        SumPrepend(groups[0].recorded.value, Completed(groups[1..]), EvidenceExecutions());
        assert Partials(groups) == Partials(groups[1..]);
      } else {
        SumPrepend(ToPartial(groups[0]), Partials(groups[1..]), PartialRequests());
        SumPrepend(ToPartial(groups[0]), Partials(groups[1..]), PartialExecutions());
        assert Completed(groups) == Completed(groups[1..]);
      }
    }
  }

  lemma {:induction false} GroupSums(calls: seq<Call>)
    requires RecordedReceived(calls)
    requires forall c | c in calls :: c.receipt.Some? ==> CountsRequests(c.receipt.value)
    ensures Sum(Groups(calls), RecordedWeight()) == TotalsOf(calls).responsesRecorded
    ensures Sum(Groups(calls), RequestWeight()) == TotalsOf(calls).toolRequests
    ensures Sum(Groups(calls), ExecutionWeight()) == TotalsOf(calls).toolExecutions
  {
    if calls != [] {
      GroupSums(calls[1..]);
      assert calls[0] in calls;
      SumPrepend(GroupOf(calls[0]), Groups(calls[1..]), RecordedWeight());
      SumPrepend(GroupOf(calls[0]), Groups(calls[1..]), RequestWeight());
      SumPrepend(GroupOf(calls[0]), Groups(calls[1..]), ExecutionWeight());
    }
  }

  lemma SplitAgrees(log: seq<Checkpoint>, runId: Id)
    requires Account(log).Some? && Shaped(log)
    ensures var groups := Sorting.Sort(Scan(log, runId).byCall, ByOrdinal);
            var t := TotalsOf(Where(Account(log).value, OfRun(runId)));
            && Sum(groups, RecordedWeight()) == t.responsesRecorded
            && Sum(groups, RequestWeight()) == t.toolRequests
            && Sum(groups, ExecutionWeight()) == t.toolExecutions
  {
    var run := Where(Account(log).value, OfRun(runId));
    var groups := Groups(run);
    Agreement(log, runId);
    ShapedCounts(log);
    GroupSums(run);
    SumSort(groups, ByOrdinal, RecordedWeight());
    SumSort(groups, ByOrdinal, RequestWeight());
    SumSort(groups, ByOrdinal, ExecutionWeight());
  }

  /** The numbers of a projection and of a run's strict totals are the same. */
  ghost predicate SameCounts(p: Projection, t: Totals) {
    && p.permits == t.outboundPermits
    && p.receipts == t.normalizedResponses
    && p.toolEvents == t.toolExecutions
    && |p.completed| == t.responsesRecorded
    && ToolRequestCount(p) == t.toolRequests
    && ToolExecutionCount(p) == t.toolExecutions
  }

  lemma FinishCounts(s: State, groups: seq<Group>, t: Totals)
    requires groups == Sorting.Sort(s.byCall, ByOrdinal)
    requires s.permits == t.outboundPermits && s.receipts == t.normalizedResponses && s.toolEvents == t.toolExecutions
    requires Sum(groups, RecordedWeight()) == t.responsesRecorded
    requires Sum(groups, RequestWeight()) == t.toolRequests
    requires Sum(groups, ExecutionWeight()) == t.toolExecutions
    ensures SameCounts(Finish(s), t)
  {
    SplitSums(groups);
  }

  /**
   On every accepted log of the driver's shape the lenient projection of a run
   counts what the strict accounting counts, and its incomplete ordinals are the
   sorted ordinals of the run's unrecorded calls.
   */
  lemma ReadersAgree(log: seq<Checkpoint>, runId: Id)
    requires Account(log).Some? && Shaped(log)
    ensures SameCounts(Project(log, runId), TotalsOf(Where(Account(log).value, OfRun(runId))))
    ensures Project(log, runId).incomplete ==
            Sorting.Sort(Unrecorded(Where(Account(log).value, OfRun(runId))), AtMost)
  {
    var calls := Account(log).value;
    Counters(log, runId);
    RunTotals(calls, runId);
    SplitAgrees(log, runId);
    var s := Scan(log, runId);
    FinishCounts(s, Sorting.Sort(s.byCall, ByOrdinal), TotalsOf(Where(calls, OfRun(runId))));
    IncompleteAgrees(log, runId);
  }

  predicate AtMost(a: nat, b: nat) { a <= b }

  // ----- incomplete ordinals ---------------------------------------------

  function Unrecorded(calls: seq<Call>): (r: seq<nat>) {
    if calls == [] then []
    else (if calls[0].recorded then [] else [calls[0].callOrdinal]) + Unrecorded(calls[1..])
  }

  lemma {:induction false} IncompleteGroups(calls: seq<Call>)
    requires RecordedReceived(calls)
    ensures Incomplete(Groups(calls)) == Unrecorded(calls)
  {
    if calls != [] {
      assert calls[0] in calls;
      IncompleteGroups(calls[1..]);
      assert Groups(calls)[1..] == Groups(calls[1..]);
    }
  }

  lemma {:induction false} IncompleteBound(groups: seq<Group>, k: nat)
    requires forall g | g in groups :: k <= g.callOrdinal
    ensures forall x | x in Incomplete(groups) :: k <= x
  {
    if groups != [] {
      IncompleteBound(groups[1..], k);
      assert groups[0] in groups;
    }
  }

  lemma IncompleteFirst(g: Group, groups: seq<Group>)
    ensures Incomplete([g] + groups) == (if g.recorded.None? then [g.callOrdinal] else []) + Incomplete(groups)
  {
    assert ([g] + groups)[1..] == groups;
  }

  lemma InsertLater(k: nat, x: nat, s: seq<nat>)
    requires x < k
    ensures Sorting.Insert(k, [x] + s, AtMost) == [x] + Sorting.Insert(k, s, AtMost)
  {
    assert ([x] + s)[1..] == s;
  }

  lemma IncompleteInsertFirst(g: Group, groups: seq<Group>)
    requires Sorting.Sorted(groups, ByOrdinal) && (groups == [] || ByOrdinal(g, groups[0])) && g.recorded.None?
    ensures Incomplete([g] + groups) == Sorting.Insert(g.callOrdinal, Incomplete(groups), AtMost)
  {
    IncompleteFirst(g, groups);
    IncompleteBound(groups, g.callOrdinal);
    assert Incomplete(groups) != [] ==> Incomplete(groups)[0] in Incomplete(groups);
  }

  lemma {:induction false} IncompleteInsert(g: Group, groups: seq<Group>)
    requires Sorting.Sorted(groups, ByOrdinal)
    ensures Incomplete(Sorting.Insert(g, groups, ByOrdinal)) ==
            if g.recorded.Some? then Incomplete(groups)
            else Sorting.Insert(g.callOrdinal, Incomplete(groups), AtMost)
  {
    if groups == [] || ByOrdinal(g, groups[0]) {
      IncompleteFirst(g, groups);
      if g.recorded.None? { IncompleteInsertFirst(g, groups); }
    } else {
      IncompleteInsert(g, groups[1..]);
      assert Sorting.Insert(g, groups, ByOrdinal) == [groups[0]] + Sorting.Insert(g, groups[1..], ByOrdinal);
      assert groups[0].recorded.Some? ==> Incomplete(groups) == Incomplete(groups[1..]);
      IncompleteFirst(groups[0], Sorting.Insert(g, groups[1..], ByOrdinal));
      InsertLater(g.callOrdinal, groups[0].callOrdinal, Incomplete(groups[1..]));
    }
  }

  lemma {:induction false} IncompleteSort(groups: seq<Group>)
    ensures Incomplete(Sorting.Sort(groups, ByOrdinal)) == Sorting.Sort(Incomplete(groups), AtMost)
  {
    if groups != [] {
      IncompleteSort(groups[1..]);
      Sorting.SortSorts(groups[1..], ByOrdinal);
      IncompleteInsert(groups[0], Sorting.Sort(groups[1..], ByOrdinal));
      if groups[0].recorded.None? {
        assert Incomplete(groups)[1..] == Incomplete(groups[1..]);
      } else {
        assert Incomplete(groups) == Incomplete(groups[1..]);
      }
    }
  }

  lemma IncompleteAgrees(log: seq<Checkpoint>, runId: Id)
    requires Account(log).Some? && Shaped(log)
    ensures Incomplete(Sorting.Sort(Scan(log, runId).byCall, ByOrdinal)) ==
            Sorting.Sort(Unrecorded(Where(Account(log).value, OfRun(runId))), AtMost)
  {
    Agreement(log, runId);
    IncompleteSort(Scan(log, runId).byCall);
    IncompleteGroups(Where(Account(log).value, OfRun(runId)));
  }
}
