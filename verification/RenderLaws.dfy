/**
 What rendering a committed working set gives, entry by entry, and when it is
 accepted. Both are stated on the entries, the resolver's answers and the limits
 of a bundle.
 */
module RenderLaws {
  import opened Texts
  import opened Wrappers
  import opened CodexPrompt
  import opened CodexReconstruction
  import opened CommittedContext
  import Sorting

  /** The item shows the entry under the metadata that the resolver gave it. */
  predicate ItemShows(item: Item, e: CommittedEntry, m: Metadata, hash: Hash) {
    && item.position == e.position && Some(item.resolvedContent) == e.representation.content
    && item.itemType == m.itemType && item.authority == m.authority && item.sourceRef == m.sourceRef
    && item.priority == e.priority && item.tokenEstimate == e.representation.tokenEstimate
    && item.contentHash == hash(item.resolvedContent)
  }

  /** The trace names the entry's source and representation, under the same metadata. */
  predicate TraceShows(t: Trace, e: CommittedEntry, m: Metadata) {
    && t.position == e.position && t.sourceId == e.sourceId && t.sourceVersionId == e.sourceVersionId
    && t.representationId == e.representation.id && t.representationKind == e.representation.kind
    && t.renderedHash == e.renderedHash && t.priority == e.priority
    && t.itemType == m.itemType && t.authority == m.authority && t.sourceRef == m.sourceRef
  }

  predicate MetadataFine(m: Metadata) { m.sourceRef != [] && m.itemType in ITEM_TYPES && m.authority in AUTHORITIES }

  /** What speaks against an entry, in the order of the checks. */
  function Complaint(e: CommittedEntry, resolver: Resolver): (r: Option<TranslationError>) {
    if e.sourceVersionId !in e.representation.sourceVersionIds then Some(InvalidRepresentation)
    else if e.representation.contentRef.Some? || e.representation.content.None? then Some(UnresolvedContent)
    else if resolver(e).None? || !MetadataFine(resolver(e).value) then Some(InvalidMetadata)
    else None
  }

  predicate Shown(item: Item, e: CommittedEntry, resolver: Resolver, hash: Hash) {
    resolver(e).Some? && ItemShows(item, e, resolver(e).value, hash)
  }

  predicate Traced(t: Trace, e: CommittedEntry, resolver: Resolver) {
    resolver(e).Some? && TraceShows(t, e, resolver(e).value)
  }

  /** The items show the entries one by one. */
  ghost predicate ItemsShow(items: seq<Item>, es: seq<CommittedEntry>, resolver: Resolver, hash: Hash) {
    |items| == |es| && forall i | 0 <= i < |es| :: Shown(items[i], es[i], resolver, hash)
  }

  ghost predicate TracesShow(traces: seq<Trace>, es: seq<CommittedEntry>, resolver: Resolver) {
    |traces| == |es| && forall i | 0 <= i < |es| :: Traced(traces[i], es[i], resolver)
  }

  lemma RenderEntryExact(e: CommittedEntry, resolver: Resolver, hash: Hash)
    requires e.position >= 0
    ensures RenderEntry(e, resolver, hash).Err? <==> Complaint(e, resolver).Some?
    ensures Complaint(e, resolver).Some? ==> RenderEntry(e, resolver, hash) == Err(Complaint(e, resolver).value)
    ensures Complaint(e, resolver).None? ==>
              var r := RenderEntry(e, resolver, hash).value; Shown(r.0, e, resolver, hash) && Traced(r.1, e, resolver)
  {}

  /** The items are determined by the entries they show. */
  lemma ItemsDetermined(items: seq<Item>, others: seq<Item>, es: seq<CommittedEntry>, resolver: Resolver, hash: Hash)
    requires ItemsShow(items, es, resolver, hash) && ItemsShow(others, es, resolver, hash)
    ensures items == others
  {
    forall i | 0 <= i < |es| ensures items[i] == others[i] {}
  }

  /** None of the entries has anything against it. */
  ghost predicate NoComplaint(es: seq<CommittedEntry>, resolver: Resolver) {
    forall i | 0 <= i < |es| :: Complaint(es[i], resolver).None?
  }

  lemma NoComplaintLast(es: seq<CommittedEntry>, resolver: Resolver)
    requires es != []
    ensures NoComplaint(es, resolver) <==>
            NoComplaint(es[..|es| - 1], resolver) && Complaint(es[|es| - 1], resolver).None?
  {
    assert forall i | 0 <= i < |es| - 1 :: es[..|es| - 1][i] == es[i];
  }

  lemma ShowLast(items: seq<Item>, traces: seq<Trace>, es: seq<CommittedEntry>, resolver: Resolver, hash: Hash,
      item: Item, trace: Trace)
    requires es != [] && ItemsShow(items, es[..|es| - 1], resolver, hash)
    requires TracesShow(traces, es[..|es| - 1], resolver)
    requires Shown(item, es[|es| - 1], resolver, hash) && Traced(trace, es[|es| - 1], resolver)
    ensures ItemsShow(items + [item], es, resolver, hash) && TracesShow(traces + [trace], es, resolver)
  {
    assert forall i | 0 <= i < |es| - 1 :: es[..|es| - 1][i] == es[i];
  }

  lemma {:induction false} RenderEntriesExact(es: seq<CommittedEntry>, resolver: Resolver, hash: Hash)
    requires forall i | 0 <= i < |es| :: es[i].position >= 0
    ensures RenderEntries(es, resolver, hash).Ok? <==> NoComplaint(es, resolver)
    ensures RenderEntries(es, resolver, hash).Ok? ==>
              var r := RenderEntries(es, resolver, hash).value;
              ItemsShow(r.0, es, resolver, hash) && TracesShow(r.1, es, resolver)
  {
    if es != [] {
      var n := |es| - 1;
      var front, last := RenderEntries(es[..n], resolver, hash), RenderEntry(es[n], resolver, hash);
      RenderEntriesExact(es[..n], resolver, hash);
      RenderEntryExact(es[n], resolver, hash);
      NoComplaintLast(es, resolver);
      if front.Ok? && last.Ok? {
        ShowLast(front.value.0, front.value.1, es, resolver, hash, last.value.0, last.value.1);
      }
    }
  }

  // ----- positions -------------------------------------------------------

  predicate Nonnegative(es: seq<CommittedEntry>) { forall i | 0 <= i < |es| :: es[i].position >= 0 }

  predicate DistinctPositions(es: seq<CommittedEntry>) {
    forall i, j | 0 <= i < j < |es| :: es[i].position != es[j].position
  }

  lemma {:induction false} PositionsExact(es: seq<CommittedEntry>, seen: set<int>)
    ensures PositionsValid(es, seen) <==>
            Nonnegative(es) && DistinctPositions(es) && forall i | 0 <= i < |es| :: es[i].position !in seen
  {
    if es != [] {
      PositionsExact(es[1..], seen + {es[0].position});
      assert es == [es[0]] + es[1..];
    }
  }

  /** Every position below the number of entries is taken. */
  predicate AllPositions(es: seq<CommittedEntry>) { forall k: nat | k < |es| :: Taken(es, k) }

  predicate Taken(es: seq<CommittedEntry>, k: int) { exists e | e in es :: e.position == k }

  lemma {:induction false} NotBefore(es: seq<CommittedEntry>, i: nat, k: nat)
    requires Sorting.Sorted(es, EntryLe) && AllPositions(es) && i < |es| && k < |es| && es[i].position == k
    ensures k <= i
    decreases k
  {
    if k > 0 {
      assert Taken(es, k - 1);
      var e :| e in es && e.position == k - 1;
      var j :| 0 <= j < |es| && es[j] == e;
      if i < j { assert EntryLe(es[i], es[j]); }
      NotBefore(es, j, k - 1);
    }
  }

  lemma {:induction false} NotAfter(es: seq<CommittedEntry>, i: nat, k: nat)
    requires Sorting.Sorted(es, EntryLe) && AllPositions(es) && i < |es| && k < |es| && es[i].position == k
    ensures i <= k
    decreases |es| - k
  {
    if k + 1 < |es| {
      assert Taken(es, k + 1);
      var e :| e in es && e.position == k + 1;
      var j :| 0 <= j < |es| && es[j] == e;
      if j < i { assert EntryLe(es[j], es[i]); }
      NotAfter(es, j, k + 1);
    }
  }

  lemma PositionsAreIndices(es: seq<CommittedEntry>)
    requires Sorting.Sorted(es, EntryLe)
    ensures AllPositions(es) <==> forall i | 0 <= i < |es| :: es[i].position == i
  {
    if AllPositions(es) {
      forall i | 0 <= i < |es| ensures es[i].position == i {
        assert Taken(es, i);
        var e :| e in es && e.position == i;
        var j :| 0 <= j < |es| && es[j] == e;
        NotBefore(es, j, i);
        NotAfter(es, j, i);
      }
    } else {
      var k: nat :| k < |es| && !Taken(es, k);
      assert es[k] in es;
    }
  }

  // ----- what is rendered ------------------------------------------------

  lemma OrderedEntries(entries: seq<CommittedEntry>)
    ensures var es := InOrder(entries);
            Sorting.Sorted(es, EntryLe) && multiset(es) == multiset(entries) && |es| == |entries|
            && forall e :: e in es <==> e in entries
  {
    EntryOrder();
    Sorting.SortSorts(entries, EntryLe);
    var es := InOrder(entries);
    forall e ensures e in es <==> e in entries { assert e in multiset(es) <==> e in multiset(entries); }
  }

  /**
   Every item and every trace of a plan is that of its entry: type, authority and
   reference as the resolver gave them, priority, token estimate and content of the
   entry, hash of that content. The entries stand in position order, from 0 on.
   */
  lemma RenderExact(entries: seq<CommittedEntry>, resolver: Resolver, hash: Hash, plan: Plan)
    requires Render(entries, resolver, hash) == Ok(plan)
    ensures var es := InOrder(entries);
            && multiset(es) == multiset(entries) && (forall i | 0 <= i < |es| :: es[i].position == i)
            && ItemsShow(plan.bundle.items, es, resolver, hash) && TracesShow(plan.traces, es, resolver)
    ensures plan.bundle.contentHash == hash(CanonicalItems(plan.bundle.items))
    ensures plan.bundle.totalBytes == Utf8Length(CanonicalItems(plan.bundle.items))
  {
    var es, items := InOrder(entries), plan.bundle.items;
    OrderedEntries(entries);
    PositionsNonNegative(es, {});
    RenderEntriesExact(es, resolver, hash);
    ShownPositions(items, es, resolver, hash);
  }

  lemma ShownPositions(items: seq<Item>, es: seq<CommittedEntry>, resolver: Resolver, hash: Hash)
    requires ItemsShow(items, es, resolver, hash)
    ensures forall i | 0 <= i < |es| :: es[i].position == items[i].position
  {
    forall i | 0 <= i < |es| ensures es[i].position == items[i].position {
      assert Shown(items[i], es[i], resolver, hash);
    }
  }

  /** What a working set needs to be rendered, apart from its size in bytes. */
  ghost predicate Acceptable(entries: seq<CommittedEntry>, resolver: Resolver) {
    && 1 <= |entries| <= 256 && AllPositions(entries)
    && (forall e | e in entries :: Complaint(e, resolver).None?)
    && (exists e | e in entries :: e.priority == P0 && IsInstruction(resolver(e)))
  }

  predicate IsInstruction(m: Option<Metadata>) { m.Some? && m.value.authority == TASK_INSTRUCTION }

  ghost predicate FitsInBytes(es: seq<CommittedEntry>, resolver: Resolver, hash: Hash) {
    exists items ::
      ItemsShow(items, es, resolver, hash) && Utf8Length(CanonicalItems(items)) <= 4 * 1024 * 1024
  }

  lemma InstructionShown(items: seq<Item>, es: seq<CommittedEntry>, resolver: Resolver, hash: Hash)
    requires ItemsShow(items, es, resolver, hash)
    ensures (exists i | 0 <= i < |items| :: items[i].authority == TASK_INSTRUCTION && items[i].priority == P0) <==>
            exists e | e in es :: e.priority == P0 && IsInstruction(resolver(e))
  {
    if i :| 0 <= i < |items| && items[i].authority == TASK_INSTRUCTION && items[i].priority == P0 {
      assert Shown(items[i], es[i], resolver, hash) && es[i] in es;
    }
    if e :| e in es && e.priority == P0 && IsInstruction(resolver(e)) {
      var i :| 0 <= i < |es| && es[i] == e;
      assert Shown(items[i], es[i], resolver, hash);
    }
  }

  /** The bundle of the shown items is valid exactly by number, positions, size and an instruction. */
  lemma BundleValid(items: seq<Item>, es: seq<CommittedEntry>, resolver: Resolver, hash: Hash)
    requires ItemsShow(items, es, resolver, hash)
    ensures ValidBundle(BundleOf(items, hash), hash) <==>
            && 1 <= |es| <= 256 && (forall i | 0 <= i < |es| :: es[i].position == i)
            && Utf8Length(CanonicalItems(items)) <= 4 * 1024 * 1024
            && exists e | e in es :: e.priority == P0 && IsInstruction(resolver(e))
  {
    InstructionShown(items, es, resolver, hash);
    forall i | 0 <= i < |es|
      ensures items[i].position == es[i].position && hash(items[i].resolvedContent) == items[i].contentHash
    {
      assert Shown(items[i], es[i], resolver, hash);
    }
  }

  lemma FitsIs(items: seq<Item>, es: seq<CommittedEntry>, resolver: Resolver, hash: Hash)
    requires ItemsShow(items, es, resolver, hash)
    ensures FitsInBytes(es, resolver, hash) <==> Utf8Length(CanonicalItems(items)) <= 4 * 1024 * 1024
  {
    if others :| ItemsShow(others, es, resolver, hash) && Utf8Length(CanonicalItems(others)) <= 4 * 1024 * 1024 {
      ItemsDetermined(items, others, es, resolver, hash);
    }
  }

  lemma IndicesValid(es: seq<CommittedEntry>)
    requires forall i | 0 <= i < |es| :: es[i].position == i
    ensures PositionsValid(es, {})
  {
    PositionsExact(es, {});
  }

  /**
   A working set is rendered exactly when it has 1 to 256 entries at the positions
   from 0 on, each of them with its source version, content and proper metadata, one
   of them an instruction of highest priority, in at most 4 MiB of canonical text.
   */
  lemma RenderAccepts(entries: seq<CommittedEntry>, resolver: Resolver, hash: Hash)
    ensures Render(entries, resolver, hash).Ok? <==>
            Acceptable(entries, resolver) && FitsInBytes(InOrder(entries), resolver, hash)
  {
    var es := InOrder(entries);
    OrderedEntries(entries);
    PositionsAreIndices(es);
    TakenAlike(es, entries);
    ComplaintsAlike(es, entries, resolver);
    if PositionsValid(es, {}) {
      RenderedOk(entries, resolver, hash);
    } else if AllPositions(es) {
      IndicesValid(es);
    }
  }

  /** What the bundle of the entries needs. */
  ghost predicate Bundles(es: seq<CommittedEntry>, resolver: Resolver, hash: Hash) {
    && 1 <= |es| <= 256 && (forall i | 0 <= i < |es| :: es[i].position == i)
    && (exists e | e in es :: e.priority == P0 && IsInstruction(resolver(e)))
    && FitsInBytes(es, resolver, hash)
  }

  lemma RenderedOk(entries: seq<CommittedEntry>, resolver: Resolver, hash: Hash)
    requires PositionsValid(InOrder(entries), {})
    ensures Render(entries, resolver, hash).Ok? <==>
            NoComplaint(InOrder(entries), resolver) && Bundles(InOrder(entries), resolver, hash)
  {
    var es := InOrder(entries);
    PositionsNonNegative(es, {});
    RenderEntriesExact(es, resolver, hash);
    if NoComplaint(es, resolver) { RenderedValid(es, resolver, hash); }
  }

  lemma RenderedValid(es: seq<CommittedEntry>, resolver: Resolver, hash: Hash)
    requires (forall i | 0 <= i < |es| :: es[i].position >= 0) && RenderEntries(es, resolver, hash).Ok?
    ensures ValidBundle(BundleOf(RenderEntries(es, resolver, hash).value.0, hash), hash) <==>
            Bundles(es, resolver, hash)
  {
    var items := RenderEntries(es, resolver, hash).value.0;
    RenderEntriesExact(es, resolver, hash);
    BundleValid(items, es, resolver, hash);
    FitsIs(items, es, resolver, hash);
  }

  lemma TakenAlike(es: seq<CommittedEntry>, entries: seq<CommittedEntry>)
    requires |es| == |entries| && forall e :: e in es <==> e in entries
    ensures AllPositions(es) <==> AllPositions(entries)
  {
    assert forall k: nat :: Taken(es, k) <==> Taken(entries, k);
  }

  lemma ComplaintsAlike(es: seq<CommittedEntry>, entries: seq<CommittedEntry>, resolver: Resolver)
    requires forall e :: e in es <==> e in entries
    ensures NoComplaint(es, resolver) <==> forall e | e in entries :: Complaint(e, resolver).None?
  {
    assert forall i | 0 <= i < |es| :: es[i] in es;
  }

  /** The first complaint in position order is the error. */
  lemma RenderRefuses(entries: seq<CommittedEntry>, resolver: Resolver, hash: Hash)
    ensures var es, r := InOrder(entries), Render(entries, resolver, hash);
            if !(Nonnegative(es) && DistinctPositions(es)) then r == Err(InvalidPosition)
            else if !NoComplaint(es, resolver) then
              exists i :: && 0 <= i < |es| && NoComplaint(es[..i], resolver) && Complaint(es[i], resolver).Some?
                          && r == Err(Complaint(es[i], resolver).value)
            else r.Ok? || r == Err(InvalidBundle)
  {
    var es := InOrder(entries);
    PositionsExact(es, {});
    if PositionsValid(es, {}) {
      PositionsNonNegative(es, {});
      RenderEntriesExact(es, resolver, hash);
      if !NoComplaint(es, resolver) {
        var i := FirstComplaint(es, resolver);
        RenderEntriesExact(es[..i], resolver, hash);
        RenderEntryExact(es[i], resolver, hash);
        RenderStops(es, i, resolver, hash);
      }
    }
  }

  lemma {:induction false} FirstComplaint(es: seq<CommittedEntry>, resolver: Resolver) returns (i: nat)
    requires !NoComplaint(es, resolver)
    ensures i < |es| && NoComplaint(es[..i], resolver) && Complaint(es[i], resolver).Some?
  {
    var n := |es| - 1;
    NoComplaintLast(es, resolver);
    if NoComplaint(es[..n], resolver) {
      i := n;
    } else {
      i := FirstComplaint(es[..n], resolver);
      assert es[..n][..i] == es[..i];
    }
  }
}
