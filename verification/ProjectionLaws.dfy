/** What the lenient projection of a run holds, on every log: stated on the events of each call. */
module ProjectionLaws {
  import opened Wrappers
  import opened LiveLog
  import opened LiveLogLaws
  import opened LiveProjection
  import Sorting

  /** The evidence recorded last for a call. */
  function EvidenceOf(log: seq<Checkpoint>, runId: Id, k: nat): (r: Option<Evidence>) {
    if log == [] then None
    else
      var e := log[|log| - 1].event;
      if e.ResponseRecorded? && OfCall(e, runId, k) then Some(e.evidence) else EvidenceOf(log[..|log| - 1], runId, k)
  }

  /** Some event of the log is of this call. */
  predicate Touched(log: seq<Checkpoint>, runId: Id, k: nat) {
    exists i | 0 <= i < |log| :: OfCall(log[i].event, runId, k)
  }

  /** The group is what the log says of its call. */
  predicate Tells(log: seq<Checkpoint>, runId: Id, g: Group) {
    && (g.outbound <==> PermitOf(log, runId, g.callOrdinal).Some?)
    && g.received == ReceiptOf(log, runId, g.callOrdinal) && g.recorded == EvidenceOf(log, runId, g.callOrdinal)
    && g.tools == ToolsOf(log, runId, g.callOrdinal)
  }

  ghost predicate Apart(groups: seq<Group>) {
    forall i, j | 0 <= i < j < |groups| :: groups[i].callOrdinal != groups[j].callOrdinal
  }

  predicate Grouped(groups: seq<Group>, k: nat) { exists i | 0 <= i < |groups| :: groups[i].callOrdinal == k }

  /** One group for each touched call, telling it. */
  ghost predicate Mirrors(log: seq<Checkpoint>, runId: Id, groups: seq<Group>) {
    && Apart(groups) && (forall i | 0 <= i < |groups| :: Tells(log, runId, groups[i]))
    && (forall k :: Grouped(groups, k) <==> Touched(log, runId, k))
  }

  lemma LastEvent(log: seq<Checkpoint>, p: Checkpoint, runId: Id, k: nat)
    ensures EvidenceOf(log + [p], runId, k) ==
            (if p.event.ResponseRecorded? && OfCall(p.event, runId, k) then Some(p.event.evidence)
             else EvidenceOf(log, runId, k))
    ensures Touched(log + [p], runId, k) <==> Touched(log, runId, k) || OfCall(p.event, runId, k)
  {
    var l := log + [p];
    assert l[..|log|] == log;
    if i :| 0 <= i < |log| && OfCall(log[i].event, runId, k) { assert l[i] == log[i]; }
    assert l[|log|] == p;
  }

  /** A call that no event touches has nothing. */
  lemma {:induction false} UntouchedIsEmpty(log: seq<Checkpoint>, runId: Id, k: nat)
    requires !Touched(log, runId, k)
    ensures Tells(log, runId, Group(k, false, None, None, []))
  {
    if log != [] {
      var n := |log| - 1;
      assert !OfCall(log[n].event, runId, k);
      assert forall i | 0 <= i < n :: log[..n][i] == log[i];
      UntouchedIsEmpty(log[..n], runId, k);
    }
  }

  lemma ApplyTells(log: seq<Checkpoint>, runId: Id, g: Group, p: Checkpoint)
    requires Tells(log, runId, g) && OfCall(p.event, runId, g.callOrdinal)
    ensures Tells(log + [p], runId, Apply(g, p.event)) && Apply(g, p.event).callOrdinal == g.callOrdinal
  {
    SaysAppend(log, p, runId, g.callOrdinal);
    LastEvent(log, p, runId, g.callOrdinal);
  }

  lemma OtherTells(log: seq<Checkpoint>, runId: Id, g: Group, p: Checkpoint)
    requires Tells(log, runId, g) && !OfCall(p.event, runId, g.callOrdinal)
    ensures Tells(log + [p], runId, g)
  {
    SaysAppend(log, p, runId, g.callOrdinal);
    LastEvent(log, p, runId, g.callOrdinal);
  }

  /** The group of the event's call is updated, or a new one stands at the end. */
  lemma {:induction false} UpsertIs(groups: seq<Group>, e: Event) returns (i: nat)
    requires Apart(groups)
    ensures i <= |groups|
    ensures i < |groups| ==>
              groups[i].callOrdinal == e.callOrdinal && Upsert(groups, e) == groups[i := Apply(groups[i], e)]
    ensures i == |groups| ==>
              !Grouped(groups, e.callOrdinal)
              && Upsert(groups, e) == groups + [Apply(Group(e.callOrdinal, false, None, None, []), e)]
  {
    if groups == [] {
      i := 0;
    } else if groups[0].callOrdinal == e.callOrdinal {
      i := 0;
      assert [Apply(groups[0], e)] + groups[1..] == groups[0 := Apply(groups[0], e)];
    } else {
      var j := UpsertIs(groups[1..], e);
      i := j + 1;
      UpsertTail(groups, e, j);
    }
  }

  lemma UpsertTail(groups: seq<Group>, e: Event, j: nat)
    requires groups != [] && groups[0].callOrdinal != e.callOrdinal && j <= |groups[1..]|
    requires j < |groups[1..]| ==> Upsert(groups[1..], e) == groups[1..][j := Apply(groups[1..][j], e)]
    requires j == |groups[1..]| ==>
               !Grouped(groups[1..], e.callOrdinal)
               && Upsert(groups[1..], e) == groups[1..] + [Apply(Group(e.callOrdinal, false, None, None, []), e)]
    ensures j + 1 < |groups| ==> Upsert(groups, e) == groups[j + 1 := Apply(groups[j + 1], e)]
    ensures j + 1 == |groups| ==>
              !Grouped(groups, e.callOrdinal)
              && Upsert(groups, e) == groups + [Apply(Group(e.callOrdinal, false, None, None, []), e)]
  {
    assert groups == [groups[0]] + groups[1..];
    GroupedCons(groups, e.callOrdinal);
  }

  lemma GroupedCons(groups: seq<Group>, k: nat)
    requires groups != []
    ensures Grouped(groups, k) <==> groups[0].callOrdinal == k || Grouped(groups[1..], k)
  {
    assert forall i | 1 <= i < |groups| :: groups[1..][i - 1] == groups[i];
  }

  /** One group updated in place. */
  lemma UpdateMirrors(log: seq<Checkpoint>, runId: Id, groups: seq<Group>, p: Checkpoint, i: nat)
    requires Mirrors(log, runId, groups) && i < |groups| && OfCall(p.event, runId, groups[i].callOrdinal)
    ensures Mirrors(log + [p], runId, groups[i := Apply(groups[i], p.event)])
  {
    var next := groups[i := Apply(groups[i], p.event)];
    ApplyTells(log, runId, groups[i], p);
    forall j | 0 <= j < |groups| && j != i ensures Tells(log + [p], runId, next[j]) {
      OtherTells(log, runId, groups[j], p);
    }
    forall k ensures Grouped(next, k) <==> Touched(log + [p], runId, k) {
      LastEvent(log, p, runId, k);
      GroupedUpdate(groups, i, next[i], k);
    }
  }

  lemma GroupedUpdate(groups: seq<Group>, i: nat, g: Group, k: nat)
    requires i < |groups| && g.callOrdinal == groups[i].callOrdinal
    ensures Grouped(groups[i := g], k) <==> Grouped(groups, k)
    ensures Grouped(groups, groups[i].callOrdinal)
  {
    var next := groups[i := g];
    if j :| 0 <= j < |groups| && groups[j].callOrdinal == k { assert next[j].callOrdinal == k; }
    if j :| 0 <= j < |next| && next[j].callOrdinal == k { assert groups[j].callOrdinal == k; }
  }

  /** One group added. */
  lemma AddMirrors(log: seq<Checkpoint>, runId: Id, groups: seq<Group>, p: Checkpoint)
    requires Mirrors(log, runId, groups) && EventRun(p.event) == runId && !Grouped(groups, p.event.callOrdinal)
    ensures Mirrors(log + [p], runId,
                    groups + [Apply(Group(p.event.callOrdinal, false, None, None, []), p.event)])
  {
    var fresh' := Group(p.event.callOrdinal, false, None, None, []);
    var next := groups + [Apply(fresh', p.event)];
    UntouchedIsEmpty(log, runId, p.event.callOrdinal);
    ApplyTells(log, runId, fresh', p);
    forall j | 0 <= j < |groups| ensures Tells(log + [p], runId, next[j]) { OtherTells(log, runId, groups[j], p); }
    forall k ensures Grouped(next, k) <==> Touched(log + [p], runId, k) {
      LastEvent(log, p, runId, k);
      GroupedAppend(groups, next[|groups|], k);
    }
  }

  lemma GroupedAppend(groups: seq<Group>, g: Group, k: nat)
    ensures Grouped(groups + [g], k) <==> Grouped(groups, k) || g.callOrdinal == k
  {
    if j :| 0 <= j < |groups| && groups[j].callOrdinal == k { assert (groups + [g])[j].callOrdinal == k; }
    assert (groups + [g])[|groups|] == g;
  }

  lemma SkipMirrors(log: seq<Checkpoint>, runId: Id, groups: seq<Group>, p: Checkpoint)
    requires Mirrors(log, runId, groups) && EventRun(p.event) != runId
    ensures Mirrors(log + [p], runId, groups)
  {
    forall j | 0 <= j < |groups| ensures Tells(log + [p], runId, groups[j]) { OtherTells(log, runId, groups[j], p); }
    forall k ensures Grouped(groups, k) <==> Touched(log + [p], runId, k) { LastEvent(log, p, runId, k); }
  }

  /** The groups of a scan, whatever the log. */
  lemma {:induction false} ScanExact(log: seq<Checkpoint>, runId: Id)
    ensures Mirrors(log, runId, Scan(log, runId).byCall)
  {
    if log != [] {
      var n := |log| - 1;
      var groups, p := Scan(log[..n], runId).byCall, log[n];
      ScanExact(log[..n], runId);
      assert log == log[..n] + [p];
      if EventRun(p.event) != runId {
        SkipMirrors(log[..n], runId, groups, p);
      } else {
        var i := UpsertIs(groups, p.event);
        if i < |groups| {
          UpdateMirrors(log[..n], runId, groups, p, i);
        } else {
          AddMirrors(log[..n], runId, groups, p);
        }
      }
    }
  }

  // ----- the projection --------------------------------------------------

  ghost predicate Ascending(ks: seq<nat>) { forall i, j | 0 <= i < j < |ks| :: ks[i] < ks[j] }

  function Ordinals(groups: seq<Group>): (ks: seq<nat>)
    ensures |ks| == |groups| && forall i | 0 <= i < |groups| :: ks[i] == groups[i].callOrdinal
  {
    seq(|groups|, i requires 0 <= i < |groups| => groups[i].callOrdinal)
  }

  /** The ordinals of the recorded, or of the other, groups. */
  function Which(groups: seq<Group>, recorded: bool): (r: seq<Group>) {
    if groups == [] then []
    else (if groups[0].recorded.Some? == recorded then [groups[0]] else []) + Which(groups[1..], recorded)
  }

  lemma {:induction false} WhichExact(groups: seq<Group>, recorded: bool)
    ensures forall g :: g in Which(groups, recorded) <==> g in groups && g.recorded.Some? == recorded
  {
    if groups != [] {
      WhichExact(groups[1..], recorded);
      assert groups == [groups[0]] + groups[1..];
    }
  }

  ghost predicate Rising(groups: seq<Group>) {
    forall i, j | 0 <= i < j < |groups| :: groups[i].callOrdinal < groups[j].callOrdinal
  }

  lemma RisingCons(g: Group, groups: seq<Group>)
    requires Rising(groups) && forall x | x in groups :: g.callOrdinal < x.callOrdinal
    ensures Rising([g] + groups)
  {
    assert forall i | 0 <= i < |groups| :: groups[i] in groups;
  }

  lemma RisingTail(groups: seq<Group>)
    requires groups != [] && Rising(groups)
    ensures Rising(groups[1..]) && forall x | x in groups[1..] :: groups[0].callOrdinal < x.callOrdinal
  {}

  lemma {:induction false} WhichRising(groups: seq<Group>, recorded: bool)
    requires Rising(groups)
    ensures Rising(Which(groups, recorded))
  {
    if groups != [] {
      RisingTail(groups);
      WhichRising(groups[1..], recorded);
      WhichExact(groups[1..], recorded);
      RisingCons(groups[0], Which(groups[1..], recorded));
    }
  }

  /** The evidence of recorded groups, one by one. */
  ghost predicate AllRecorded(done: seq<Group>, es: seq<Evidence>) {
    |es| == |done| && forall i | 0 <= i < |done| :: done[i].recorded == Some(es[i])
  }

  lemma {:induction false} CompletedAre(groups: seq<Group>)
    ensures AllRecorded(Which(groups, true), Completed(groups))
  {
    if groups != [] { CompletedAre(groups[1..]); }
  }

  lemma {:induction false} IncompleteAre(groups: seq<Group>)
    ensures Incomplete(groups) == Ordinals(Which(groups, false))
  {
    if groups != [] { IncompleteAre(groups[1..]); }
  }

  predicate PartialOf(g: Group, p: Partial) {
    p.callOrdinal == g.callOrdinal && p.outbound == g.outbound && p.received == g.received && p.tools == g.tools
  }

  ghost predicate AllPartial(open: seq<Group>, ps: seq<Partial>) {
    |ps| == |open| && forall i | 0 <= i < |open| :: PartialOf(open[i], ps[i])
  }

  lemma {:induction false} PartialsAre(groups: seq<Group>)
    ensures AllPartial(Which(groups, false), Partials(groups))
  {
    if groups != [] { PartialsAre(groups[1..]); }
  }

  lemma OrdinalOrder()
    ensures Sorting.TotalPreorder(ByOrdinal)
  {}

  lemma SortedGroups(groups: seq<Group>)
    requires Apart(groups)
    ensures var gs := Sorting.Sort(groups, ByOrdinal);
            Rising(gs) && forall g :: g in gs <==> g in groups
  {
    var gs := Sorting.Sort(groups, ByOrdinal);
    OrdinalOrder();
    Sorting.SortSorts(groups, ByOrdinal);
    forall g ensures g in gs <==> g in groups { assert g in multiset(gs) <==> g in multiset(groups); }
    forall i, j | 0 <= i < j < |gs| ensures gs[i].callOrdinal < gs[j].callOrdinal {
      assert ByOrdinal(gs[i], gs[j]);
      if gs[i].callOrdinal == gs[j].callOrdinal { OneGroup(groups, gs, i, j); }
    }
  }

  /** Two places of a permutation of distinct groups hold two ordinals. */
  lemma OneGroup(groups: seq<Group>, gs: seq<Group>, i: nat, j: nat)
    requires Apart(groups) && multiset(gs) == multiset(groups) && i < j < |gs|
    ensures gs[i].callOrdinal != gs[j].callOrdinal
  {
    assert gs[i] in multiset(groups) && gs[j] in multiset(groups);
    var a :| 0 <= a < |groups| && groups[a] == gs[i];
    var b :| 0 <= b < |groups| && groups[b] == gs[j];
    if a == b {
      TwiceIn(gs, i, j);
      OnceIn(groups, a);
    }
  }

  lemma TwiceIn(gs: seq<Group>, i: nat, j: nat)
    requires i < j < |gs| && gs[i] == gs[j]
    ensures multiset(gs)[gs[i]] >= 2
  {
    assert gs == gs[..i] + [gs[i]] + gs[i + 1..j] + [gs[j]] + gs[j + 1..];
  }

  lemma OnceIn(groups: seq<Group>, a: nat)
    requires Apart(groups) && a < |groups|
    ensures multiset(groups)[groups[a]] == 1
  {
    assert groups == groups[..a] + [groups[a]] + groups[a + 1..];
    assert groups[a] !in groups[..a] && groups[a] !in groups[a + 1..];
  }

  /** What the projection of a run says: the recorded calls and the others, each in ascending order. */
  ghost predicate ProjectionTells(log: seq<Checkpoint>, runId: Id, p: Projection, done: seq<nat>) {
    && Ascending(done) && Ascending(p.incomplete)
    && (forall k :: k in done <==> EvidenceOf(log, runId, k).Some?)
    && (forall k :: k in p.incomplete <==> Touched(log, runId, k) && EvidenceOf(log, runId, k).None?)
    && |p.completed| == |done|
    && (forall i | 0 <= i < |done| :: EvidenceOf(log, runId, done[i]) == Some(p.completed[i]))
    && |p.partial| == |p.incomplete|
    && forall i | 0 <= i < |p.partial| :: PartialTells(log, runId, p.incomplete[i], p.partial[i])
  }

  predicate PartialTells(log: seq<Checkpoint>, runId: Id, k: nat, q: Partial) {
    && q.callOrdinal == k && (q.outbound <==> PermitOf(log, runId, k).Some?)
    && q.received == ReceiptOf(log, runId, k) && q.tools == ToolsOf(log, runId, k)
  }

  lemma OrdinalIn(groups: seq<Group>, k: nat)
    ensures k in Ordinals(groups) <==> exists g | g in groups :: g.callOrdinal == k
  {
    if k in Ordinals(groups) {
      var i :| 0 <= i < |groups| && Ordinals(groups)[i] == k;
      assert groups[i] in groups;
    }
    if g :| g in groups && g.callOrdinal == k {
      var i :| 0 <= i < |groups| && groups[i] == g;
      assert Ordinals(groups)[i] == k;
    }
  }

  /** A group tells its call, and a call with a group was touched. */
  lemma GroupFor(log: seq<Checkpoint>, runId: Id, groups: seq<Group>, gs: seq<Group>, recorded: bool, k: nat)
    requires Mirrors(log, runId, groups) && forall g :: g in gs <==> g in groups
    ensures k in Ordinals(Which(gs, recorded)) <==>
            Touched(log, runId, k) && EvidenceOf(log, runId, k).Some? == recorded
  {
    var which := Which(gs, recorded);
    WhichExact(gs, recorded);
    OrdinalIn(which, k);
    if g :| g in which && g.callOrdinal == k {
      var i :| 0 <= i < |groups| && groups[i] == g;
      assert Tells(log, runId, groups[i]) && Grouped(groups, k);
    }
    if Touched(log, runId, k) {
      assert Grouped(groups, k);
      var i :| 0 <= i < |groups| && groups[i].callOrdinal == k;
      assert Tells(log, runId, groups[i]) && groups[i] in groups;
    }
  }

  lemma {:induction false} EvidenceTouches(log: seq<Checkpoint>, runId: Id, k: nat)
    requires EvidenceOf(log, runId, k).Some?
    ensures Touched(log, runId, k)
  {
    var n := |log| - 1;
    if !OfCall(log[n].event, runId, k) {
      EvidenceTouches(log[..n], runId, k);
      var i :| 0 <= i < n && OfCall(log[..n][i].event, runId, k);
      assert log[i] == log[..n][i];
    }
  }

  lemma WhichTells(log: seq<Checkpoint>, runId: Id, groups: seq<Group>, gs: seq<Group>, recorded: bool)
    requires Mirrors(log, runId, groups) && forall g :: g in gs <==> g in groups
    ensures forall i | 0 <= i < |Which(gs, recorded)| :: Tells(log, runId, Which(gs, recorded)[i])
  {
    WhichExact(gs, recorded);
    forall i | 0 <= i < |Which(gs, recorded)| ensures Tells(log, runId, Which(gs, recorded)[i]) {
      var g := Which(gs, recorded)[i];
      assert g in Which(gs, recorded) && g in groups;
      var j :| 0 <= j < |groups| && groups[j] == g;
    }
  }

  /**
   The projection of a run, whatever the log: the calls with recorded evidence and
   the other touched calls, each by ascending ordinal, with exactly what the events
   of the call say.
   */
  lemma ProjectionExact(log: seq<Checkpoint>, runId: Id) returns (done: seq<nat>)
    ensures ProjectionTells(log, runId, Project(log, runId), done)
  {
    var groups := Scan(log, runId).byCall;
    var gs := Sorting.Sort(groups, ByOrdinal);
    ScanExact(log, runId);
    SortedGroups(groups);
    SplitTells(log, runId, groups, gs);
    done := Ordinals(Which(gs, true));
  }

  lemma SplitTells(log: seq<Checkpoint>, runId: Id, groups: seq<Group>, gs: seq<Group>)
    requires Mirrors(log, runId, groups) && Rising(gs) && forall g :: g in gs <==> g in groups
    ensures var done := Ordinals(Which(gs, true));
            && Ascending(done) && Ascending(Incomplete(gs))
            && (forall k :: k in done <==> EvidenceOf(log, runId, k).Some?)
            && (forall k :: k in Incomplete(gs) <==> Touched(log, runId, k) && EvidenceOf(log, runId, k).None?)
            && |Completed(gs)| == |done|
            && (forall i | 0 <= i < |done| :: EvidenceOf(log, runId, done[i]) == Some(Completed(gs)[i]))
            && |Partials(gs)| == |Incomplete(gs)|
            && forall i | 0 <= i < |Partials(gs)| :: PartialTells(log, runId, Incomplete(gs)[i], Partials(gs)[i])
  {
    WhichRising(gs, true);
    WhichRising(gs, false);
    CompletedAre(gs);
    IncompleteAre(gs);
    PartialsAre(gs);
    WhichTells(log, runId, groups, gs, true);
    WhichTells(log, runId, groups, gs, false);
    forall k: nat
      ensures k in Ordinals(Which(gs, true)) <==> EvidenceOf(log, runId, k).Some?
      ensures k in Incomplete(gs) <==> Touched(log, runId, k) && EvidenceOf(log, runId, k).None?
    {
      GroupFor(log, runId, groups, gs, true, k);
      GroupFor(log, runId, groups, gs, false, k);
      if EvidenceOf(log, runId, k).Some? { EvidenceTouches(log, runId, k); }
    }
  }

  // ----- the counters ----------------------------------------------------

  /** How many events of the run satisfy `f`. */
  function Events(log: seq<Checkpoint>, runId: Id, f: Event -> bool): (n: nat) {
    if log == [] then 0
    else
      var e := log[|log| - 1].event;
      Events(log[..|log| - 1], runId, f) + (if EventRun(e) == runId && f(e) then 1 else 0)
  }

  function IsPermit(): Event -> bool { (e: Event) => e.OutboundPermitted? }
  function IsReceipt(): Event -> bool { (e: Event) => e.ResponseReceived? }
  function IsTool(): Event -> bool { (e: Event) => e.ToolExecutionRecorded? }

  /** The counters are the numbers of events of the run, by kind. */
  lemma {:induction false} CountersExact(log: seq<Checkpoint>, runId: Id)
    ensures var p := Project(log, runId);
            && p.permits == Events(log, runId, IsPermit()) && p.receipts == Events(log, runId, IsReceipt())
            && p.toolEvents == Events(log, runId, IsTool())
  {
    if log != [] { CountersExact(log[..|log| - 1], runId); }
  }
}
