/**
 What the reconstruction makes of parsed sections and traces: which it joins, and
 which error it reports for those it cannot.
 */
module ReconstructionLaws {
  import opened Wrappers
  import opened CodexPrompt
  import opened CodexReconstruction
  import Sorting

  /** The trace is that of the section: the same position and the same four fields. */
  predicate TraceOf(t: Trace, s: Segment) {
    && t.position == s.position && t.itemType == s.itemType && t.authority == s.authority
    && t.priority == s.priority && t.sourceRef == s.sourceRef
  }

  predicate TracesApart(traces: seq<Trace>) {
    forall i, j | 0 <= i < j < |traces| :: traces[i].position != traces[j].position
  }

  lemma {:induction false} ApartIs(traces: seq<Trace>)
    ensures DistinctPositions(traces) <==> TracesApart(traces)
  {
    if traces != [] {
      ApartIs(traces[1..]);
      assert traces == [traces[0]] + traces[1..];
    }
  }

  predicate Traced(traces: seq<Trace>, p: nat) { exists t | t in traces :: t.position == p }

  /** What speaks against section `i`, in the order of the checks. */
  function Objection(segments: seq<Segment>, traces: seq<Trace>, i: nat): (r: Option<ReconstructionError>)
    requires i < |segments|
  {
    var s := segments[i];
    if exists j | 0 <= j < i :: segments[j].position == s.position then Some(DuplicatePromptPosition)
    else if !Traced(traces, s.position) then Some(ExtraPromptSection)
    else if !exists t | t in traces :: TraceOf(t, s) then Some(PromptMetadataMismatch)
    else None
  }

  ghost predicate NoObjection(segments: seq<Segment>, traces: seq<Trace>, n: nat)
    requires n <= |segments|
  {
    forall i | 0 <= i < n :: Objection(segments, traces, i).None?
  }

  /** The entry joins the section with its trace. */
  predicate Joins(e: Entry, s: Segment, traces: seq<Trace>) {
    e.trace in traces && TraceOf(e.trace, s) && e.role == USER && e.content == s.content
  }

  /** The trace at a position is the one in the map. */
  lemma MapHolds(traces: seq<Trace>, s: Segment)
    requires TracesApart(traces)
    ensures s.position in TraceMap(traces) <==> Traced(traces, s.position)
    ensures s.position in TraceMap(traces) ==>
              (Agrees(TraceMap(traces)[s.position], s) <==> exists t | t in traces :: TraceOf(t, s))
              && TraceMap(traces)[s.position] in traces && TraceMap(traces)[s.position].position == s.position
  {
    ApartIs(traces);
    TraceMapKey(traces, s.position);
    if s.position in TraceMap(traces) {
      var t :| t in traces && t.position == s.position;
      var i :| 0 <= i < |traces| && traces[i] == t;
      TraceMapLookup(traces, i);
      if u :| u in traces && TraceOf(u, s) {
        var j :| 0 <= j < |traces| && traces[j] == u;
        assert i == j;
      }
    }
  }

  /** The positions of the first sections. */
  function SeenBefore(segments: seq<Segment>, i: nat): (r: set<nat>)
    requires i <= |segments|
  {
    set j | 0 <= j < i :: segments[j].position
  }

  /** What the map says of a section is what the traces and the sections before it say. */
  lemma ObjectionIs(segments: seq<Segment>, traces: seq<Trace>, i: nat)
    requires TracesApart(traces) && i < |segments|
    ensures var s, m := segments[i], TraceMap(traces);
            Objection(segments, traces, i) ==
            (if s.position in SeenBefore(segments, i) then Some(DuplicatePromptPosition)
             else if s.position !in m then Some(ExtraPromptSection)
             else if !Agrees(m[s.position], s) then Some(PromptMetadataMismatch)
             else None)
    ensures SeenBefore(segments, i + 1) == SeenBefore(segments, i) + {segments[i].position}
    ensures Objection(segments, traces, i).None? ==>
              Joins(Entry(TraceMap(traces)[segments[i].position], USER, segments[i].content), segments[i], traces)
  {
    var s := segments[i];
    MapHolds(traces, s);
    assert s.position in SeenBefore(segments, i) <==> exists j | 0 <= j < i :: segments[j].position == s.position;
  }

  lemma CollectStep(segments: seq<Segment>, traces: map<nat, Trace>, seen: set<nat>, i: nat)
    requires i < |segments|
    ensures var s := segments[i];
            Collect(segments[i..], traces, seen) ==
            if s.position in seen then Err(DuplicatePromptPosition)
            else if s.position !in traces then Err(ExtraPromptSection)
            else if !Agrees(traces[s.position], s) then Err(PromptMetadataMismatch)
            else
              match Collect(segments[i + 1..], traces, seen + {s.position})
              case Ok(rest) => Ok([Entry(traces[s.position], USER, s.content)] + rest)
              case Err(error) => Err(error)
  {
    assert segments[i..][0] == segments[i] && segments[i..][1..] == segments[i + 1..];
  }

  /** The sections from `i` on are joined. */
  ghost predicate JoinedFrom(es: seq<Entry>, segments: seq<Segment>, traces: seq<Trace>, i: nat)
    requires i <= |segments|
  {
    |es| == |segments| - i && forall k | i <= k < |segments| :: Joins(es[k - i], segments[k], traces)
  }

  lemma JoinedCons(e: Entry, es: seq<Entry>, segments: seq<Segment>, traces: seq<Trace>, i: nat)
    requires i < |segments| && Joins(e, segments[i], traces) && JoinedFrom(es, segments, traces, i + 1)
    ensures JoinedFrom([e] + es, segments, traces, i)
  {}

  /** From section `i` on: all are joined, or the first objection is the error. */
  lemma {:induction false} CollectExact(segments: seq<Segment>, traces: seq<Trace>, i: nat)
    requires TracesApart(traces) && i <= |segments| && NoObjection(segments, traces, i)
    ensures var r := Collect(segments[i..], TraceMap(traces), SeenBefore(segments, i));
            && (r.Ok? <==> NoObjection(segments, traces, |segments|))
            && (r.Ok? ==> JoinedFrom(r.value, segments, traces, i))
            && (r.Err? ==> FirstObjection(segments, traces, r.error))
    decreases |segments| - i
  {
    if i < |segments| {
      ObjectionIs(segments, traces, i);
      CollectStep(segments, TraceMap(traces), SeenBefore(segments, i), i);
      if Objection(segments, traces, i).None? {
        CollectExact(segments, traces, i + 1);
        var rest := Collect(segments[i + 1..], TraceMap(traces), SeenBefore(segments, i + 1));
        if rest.Ok? {
          JoinedCons(Entry(TraceMap(traces)[segments[i].position], USER, segments[i].content), rest.value,
                     segments, traces, i);
        }
      }
    }
  }

  /** The error is the objection to the first section that has one. */
  ghost predicate FirstObjection(segments: seq<Segment>, traces: seq<Trace>, error: ReconstructionError) {
    exists i :: 0 <= i < |segments| && NoObjection(segments, traces, i) && Objection(segments, traces, i) == Some(error)
  }

  /**
   The sections and traces are joined exactly when no two traces share a position,
   no section has anything against it, and there are as many of each; otherwise
   the error says which of these failed first.
   */
  lemma FromSegmentsExact(segments: seq<Segment>, traces: seq<Trace>)
    ensures var r := FromSegments(segments, traces);
            if !TracesApart(traces) then r == Err(DuplicateTracePosition)
            else if !NoObjection(segments, traces, |segments|) then r.Err? && FirstObjection(segments, traces, r.error)
            else if |segments| != |traces| then r == Err(MissingPromptSection)
            else r.Ok?
  {
    ApartIs(traces);
    TraceMapSize(traces);
    if TracesApart(traces) {
      assert segments[0..] == segments && SeenBefore(segments, 0) == {};
      CollectExact(segments, traces, 0);
    }
  }

  lemma EntryOrder()
    ensures Sorting.TotalPreorder(PositionLe)
  {}

  /** The entries of an accepted reconstruction are its sections joined with their traces, by position. */
  lemma JoinedExactly(segments: seq<Segment>, traces: seq<Trace>)
    requires FromSegments(segments, traces).Ok?
    ensures var es := FromSegments(segments, traces).value;
            && |es| == |segments| == |traces| && Sorting.Sorted(es, PositionLe)
            && (forall e | e in es :: exists s | s in segments :: Joins(e, s, traces))
            && (forall s | s in segments :: exists e | e in es :: Joins(e, s, traces))
  {
    FromSegmentsExact(segments, traces);
    assert segments[0..] == segments && SeenBefore(segments, 0) == {};
    CollectExact(segments, traces, 0);
    var unsorted := Collect(segments, TraceMap(traces), {}).value;
    EntryOrder();
    Sorting.SortSorts(unsorted, PositionLe);
    assert JoinedFrom(unsorted, segments, traces, 0);
    SameJoins(segments, traces, unsorted, Sorting.Sort(unsorted, PositionLe));
  }

  lemma SameJoins(segments: seq<Segment>, traces: seq<Trace>, unsorted: seq<Entry>, es: seq<Entry>)
    requires |unsorted| == |segments| && forall k | 0 <= k < |segments| :: Joins(unsorted[k], segments[k], traces)
    requires multiset(es) == multiset(unsorted)
    ensures forall e | e in es :: exists s | s in segments :: Joins(e, s, traces)
    ensures forall s | s in segments :: exists e | e in es :: Joins(e, s, traces)
  {
    forall e | e in es ensures exists s | s in segments :: Joins(e, s, traces) {
      assert e in multiset(es) && e in multiset(unsorted);
      var k :| 0 <= k < |unsorted| && unsorted[k] == e;
      assert segments[k] in segments;
    }
    forall s | s in segments ensures exists e | e in es :: Joins(e, s, traces) {
      var k :| 0 <= k < |segments| && segments[k] == s;
      assert unsorted[k] in multiset(unsorted) && unsorted[k] in multiset(es);
    }
  }
}
