/**
 From a committed working set to the Codex bundle, and the end-to-end theorem:
 what the model is shown is what was committed.
 */
module CommittedContext {
  import opened Texts
  import opened Wrappers
  import opened CodexPrompt
  import opened CodexReconstruction
  import opened ContextParity
  import opened StableJson
  import Sorting

  datatype Representation = Representation(
    id: Text,
    kind: Text,
    sourceVersionIds: seq<Text>,
    tokenEstimate: nat,
    content: Option<Text>,
    contentRef: Option<Text>)

  datatype CommittedEntry = CommittedEntry(
    position: int,
    sourceId: Text,
    sourceVersionId: Text,
    representation: Representation,
    priority: Priority,
    renderedHash: Text)

  datatype Metadata = Metadata(itemType: Text, authority: Text, sourceRef: Text)

  datatype TranslationError =
    | UnresolvedContent | InvalidPosition | InvalidRepresentation | InvalidMetadata | InvalidBundle

  /** A metadata resolver; `None` stands for a resolver that throws. */
  type Resolver = CommittedEntry -> Option<Metadata>

  /** A content hash. Only the converse of parity needs it to be injective. */
  type Hash = Text -> Text

  datatype Bundle = Bundle(items: seq<Item>, contentHash: Text, totalBytes: nat)

  datatype Plan = Plan(bundle: Bundle, traces: seq<Trace>)

  const ITEM_TYPES: seq<Text> := [
    Lit("NODE_VERSION"), Lit("EDGE"), Lit("REPOSITORY_CONTENT"), Lit("ARTIFACT"), Lit("USER_INPUT"),
    Lit("PROJECT_RULE")]
  const AUTHORITIES: seq<Text> := [
    Lit("PROJECT_RULE"), Lit("TASK_INSTRUCTION"), Lit("PROJECT_FACT"), Lit("EVIDENCE"), Lit("REFERENCE"),
    Lit("UNTRUSTED_CONTENT")]
  const TASK_INSTRUCTION := Lit("TASK_INSTRUCTION")
  const MAX_ITEMS := 256
  const MAX_BYTES := 4 * 1024 * 1024

  // ----- entries in position order ---------------------------------------

  predicate EntryLe(a: CommittedEntry, b: CommittedEntry) { a.position <= b.position }

  /** The validation loop of `sortedEntries`. */
  predicate PositionsValid(entries: seq<CommittedEntry>, seen: set<int>) {
    entries == [] ||
    (&& entries[0].position >= 0 && entries[0].position !in seen
     && PositionsValid(entries[1..], seen + {entries[0].position}))
  }

  /** `sortedEntries`: sorts, then rejects negative and repeated positions. */
  method SortedEntries(entries: seq<CommittedEntry>) returns (r: Result<seq<CommittedEntry>, TranslationError>)
    ensures r ==
            (var s := Sorting.Sort(entries, EntryLe); if PositionsValid(s, {}) then Ok(s) else Err(InvalidPosition))
  {
    var sorted := Sorting.Sort(entries, EntryLe);
    var seen: set<int> := {};
    var i := 0;
    assert sorted[0..] == sorted;
    while i < |sorted|
      invariant 0 <= i <= |sorted|
      invariant PositionsValid(sorted, {}) == PositionsValid(sorted[i..], seen)
    {
      assert sorted[i..][0] == sorted[i] && sorted[i..][1..] == sorted[i + 1..];
      if sorted[i].position < 0 || sorted[i].position in seen { return Err(InvalidPosition); }
      seen := seen + {sorted[i].position};
      i := i + 1;
    }
    return Ok(sorted);
  }

  // ----- translation of one entry ----------------------------------------

  function MaterializedContent(e: CommittedEntry): (r: Result<Text, TranslationError>) {
    if e.representation.contentRef.Some? || e.representation.content.None? then Err(UnresolvedContent)
    else Ok(e.representation.content.value)
  }

  function MetadataFor(resolver: Resolver, e: CommittedEntry): (r: Result<Metadata, TranslationError>)
    ensures r.Ok? ==> r.value.itemType in ITEM_TYPES && r.value.authority in AUTHORITIES
  {
    match resolver(e)
    case None => Err(InvalidMetadata)
    case Some(m) =>
      if m.sourceRef == [] || m.itemType !in ITEM_TYPES || m.authority !in AUTHORITIES then Err(InvalidMetadata)
      else Ok(m)
  }

  function BundleItem(e: CommittedEntry, m: Metadata, content: Text, hash: Hash): (item: Item)
    requires e.position >= 0
  {
    Item(e.position, m.itemType, m.sourceRef, content, hash(content), m.authority, e.priority,
         e.representation.tokenEstimate)
  }

  function TraceFor(e: CommittedEntry, m: Metadata): (t: Trace)
    requires e.position >= 0
  {
    Trace(e.sourceId, e.sourceVersionId, e.representation.id, e.representation.kind, e.renderedHash,
          e.position, m.itemType, m.authority, e.priority, m.sourceRef)
  }

  /** One turn of the loop of `render`. */
  function RenderEntry(e: CommittedEntry, resolver: Resolver, hash: Hash): (r: Result<(Item, Trace), TranslationError>)
    requires e.position >= 0
  {
    if e.sourceVersionId !in e.representation.sourceVersionIds then Err(InvalidRepresentation)
    else
      var content :- MaterializedContent(e);
      var m :- MetadataFor(resolver, e);
      Ok((BundleItem(e, m, content, hash), TraceFor(e, m)))
  }

  function RenderEntries(es: seq<CommittedEntry>, resolver: Resolver, hash: Hash)
    : (r: Result<(seq<Item>, seq<Trace>), TranslationError>)
    requires forall i | 0 <= i < |es| :: es[i].position >= 0
    ensures r.Ok? ==> |r.value.0| == |r.value.1| == |es|
    ensures r.Ok? ==> forall i | 0 <= i < |es| :: RenderEntry(es[i], resolver, hash) == Ok((r.value.0[i], r.value.1[i]))
  {
    if es == [] then Ok(([], []))
    else
      var front :- RenderEntries(es[..|es| - 1], resolver, hash);
      var last :- RenderEntry(es[|es| - 1], resolver, hash);
      Ok((front.0 + [last.0], front.1 + [last.1]))
  }

  // ----- the bundle ------------------------------------------------------

  function ItemJson(item: Item): (v: Json) {
    Obj([Field(Lit("position"), Num(Dec(item.position))), Field(Lit("itemType"), Str(item.itemType)),
         Field(Lit("sourceRef"), Str(item.sourceRef)), Field(Lit("resolvedContent"), Str(item.resolvedContent)),
         Field(Lit("contentHash"), Str(item.contentHash)), Field(Lit("authority"), Str(item.authority)),
         Field(Lit("priority"), Str(PriorityText(item.priority))),
         Field(Lit("tokenEstimate"), Num(Dec(item.tokenEstimate)))])
  }

  function CanonicalItems(items: seq<Item>): (t: Text) { Stable(Arr(Sorting.Map(items, ItemJson))) }

  /** `Buffer.byteLength(t, 'utf8')`; a lone surrogate is written as U+FFFD. */
  function Utf8Length(t: Text): (n: nat) {
    if t == [] then 0
    else if t[0] < 0x80 then 1 + Utf8Length(t[1..])
    else if t[0] < 0x800 then 2 + Utf8Length(t[1..])
    else if 0xD800 <= t[0] <= 0xDBFF && |t| > 1 && 0xDC00 <= t[1] <= 0xDFFF then 4 + Utf8Length(t[2..])
    else 3 + Utf8Length(t[1..])
  }

  /** `assertValidExecutionContextBundle` does not throw. */
  predicate ValidBundle(bundle: Bundle, hash: Hash) {
    var items := bundle.items;
    && 1 <= |items| <= MAX_ITEMS
    && (forall i | 0 <= i < |items| :: items[i].position == i)
    && (forall i | 0 <= i < |items| :: hash(items[i].resolvedContent) == items[i].contentHash)
    && Utf8Length(CanonicalItems(items)) == bundle.totalBytes
    && Utf8Length(CanonicalItems(items)) <= MAX_BYTES
    && hash(CanonicalItems(items)) == bundle.contentHash
    && (exists i | 0 <= i < |items| :: items[i].authority == TASK_INSTRUCTION && items[i].priority == P0)
  }

  function BundleOf(items: seq<Item>, hash: Hash): (b: Bundle) {
    Bundle(items, hash(CanonicalItems(items)), Utf8Length(CanonicalItems(items)))
  }

  /** `CodexCommittedContextAdapter.render`. */
  function Render(entries: seq<CommittedEntry>, resolver: Resolver, hash: Hash): (r: Result<Plan, TranslationError>) {
    var es := Sorting.Sort(entries, EntryLe);
    if !PositionsValid(es, {}) then Err(InvalidPosition)
    else
      PositionsNonNegative(es, {});
      var rendered :- RenderEntries(es, resolver, hash);
      var bundle := BundleOf(rendered.0, hash);
      if ValidBundle(bundle, hash) then Ok(Plan(bundle, rendered.1)) else Err(InvalidBundle)
  }

  lemma {:induction false} PositionsNonNegative(es: seq<CommittedEntry>, seen: set<int>)
    requires PositionsValid(es, seen)
    ensures forall i | 0 <= i < |es| :: es[i].position >= 0
  {
    if es != [] { PositionsNonNegative(es[1..], seen + {es[0].position}); }
  }

  /** `render`. */
  method RenderCommitted(entries: seq<CommittedEntry>, resolver: Resolver, hash: Hash)
    returns (r: Result<Plan, TranslationError>)
    ensures r == Render(entries, resolver, hash)
  {
    var sorted := SortedEntries(entries);
    if sorted.Err? { return Err(sorted.error); }
    PositionsNonNegative(sorted.value, {});
    var rendered := RenderAll(sorted.value, resolver, hash);
    if rendered.Err? { return Err(rendered.error); }
    var bundle := BundleOf(rendered.value.0, hash);
    if !ValidBundle(bundle, hash) { return Err(InvalidBundle); }
    return Ok(Plan(bundle, rendered.value.1));
  }

  /** Its loop, pushing items and traces. */
  method RenderAll(es: seq<CommittedEntry>, resolver: Resolver, hash: Hash)
    returns (r: Result<(seq<Item>, seq<Trace>), TranslationError>)
    requires forall i | 0 <= i < |es| :: es[i].position >= 0
    ensures r == RenderEntries(es, resolver, hash)
  {
    var items: seq<Item> := [];
    var traces: seq<Trace> := [];
    var i := 0;
    while i < |es|
      invariant 0 <= i <= |es|
      invariant RenderEntries(es[..i], resolver, hash) == Ok((items, traces))
    {
      var one := RenderEntry(es[i], resolver, hash);
      if one.Err? {
        RenderStops(es, i, resolver, hash);
        return Err(one.error);
      }
      assert es[..i + 1][..i] == es[..i] && es[..i + 1][i] == es[i];
      items := items + [one.value.0];
      traces := traces + [one.value.1];
      i := i + 1;
    }
    assert es[..i] == es;
    return Ok((items, traces));
  }

  lemma {:induction false} RenderStops(es: seq<CommittedEntry>, i: nat, resolver: Resolver, hash: Hash)
    requires i < |es| && forall k | 0 <= k < |es| :: es[k].position >= 0
    requires RenderEntries(es[..i], resolver, hash).Ok? && RenderEntry(es[i], resolver, hash).Err?
    ensures RenderEntries(es, resolver, hash) == Err(RenderEntry(es[i], resolver, hash).error)
  {
    var front := es[..|es| - 1];
    if i < |es| - 1 {
      assert front[..i] == es[..i] && front[i] == es[i];
      RenderStops(front, i, resolver, hash);
    }
  }

  // ----- canonical contexts ----------------------------------------------

  function IntendedEntry(e: CommittedEntry, hash: Hash): (c: CanonicalEntry) {
    CanonicalEntry(
      e.position, e.sourceId, e.sourceVersionId, e.representation.id, e.representation.kind, e.renderedHash,
      hash(ContentInput(if e.representation.content.Some? then e.representation.content.value else [])), USER)
  }

  predicate Materialized(e: CommittedEntry) { e.representation.contentRef.None? && e.representation.content.Some? }

  /** `canonicalizeIntendedContext`. */
  function CanonicalizeIntended(entries: seq<CommittedEntry>, hash: Hash): (r: Result<CanonicalContext,
      TranslationError>) {
    if exists i | 0 <= i < |entries| :: !Materialized(entries[i]) then Err(UnresolvedContent)
    else Ok(CanonicalContext(Sorting.Sort(Sorting.Map(entries, e => IntendedEntry(e, hash)), CanonicalLe), None, None))
  }

  function ObservedEntry(e: Entry, hash: Hash): (c: CanonicalEntry) {
    CanonicalEntry(
      e.trace.position, e.trace.sourceId, e.trace.sourceVersionId, e.trace.representationId, e.trace.representationKind,
      e.trace.renderedHash, hash(ContentInput(e.content)), e.role)
  }

  /** `canonicalizeCodexObservedContext`: the payload counts are those of the reconstruction. */
  function CanonicalizeObserved(entries: seq<Entry>, expected: nat, hash: Hash): (c: CanonicalContext) {
    CanonicalContext(
      Sorting.Sort(Sorting.Map(entries, e => ObservedEntry(e, hash)), CanonicalLe), Some(|entries|), Some(expected))
  }

  // ----- what an accepted plan looks like --------------------------------

  lemma NameIsWord(name: string)
    requires name != "" && ' ' !in name && '\n' !in name
    ensures Word(Lit(name))
  {
    LitFree(name, ' ');
    LitFree(name, '\n');
  }

  lemma KnownWords(t: Text)
    requires t in ITEM_TYPES || t in AUTHORITIES
    ensures Word(t)
  {
    if t in ITEM_TYPES { KnownItemTypes(t); } else { KnownAuthorities(t); }
  }

  lemma KnownItemTypes(t: Text)
    requires t in ITEM_TYPES
    ensures Word(t)
  {
    NameIsWord("NODE_VERSION");
    NameIsWord("EDGE");
    NameIsWord("REPOSITORY_CONTENT");
    NameIsWord("ARTIFACT");
    NameIsWord("USER_INPUT");
    NameIsWord("PROJECT_RULE");
  }

  lemma KnownAuthorities(t: Text)
    requires t in AUTHORITIES
    ensures Word(t)
  {
    NameIsWord("PROJECT_RULE");
    NameIsWord("TASK_INSTRUCTION");
    NameIsWord("PROJECT_FACT");
    NameIsWord("EVIDENCE");
    NameIsWord("REFERENCE");
    NameIsWord("UNTRUSTED_CONTENT");
  }

  /** The committed entries, in position order. */
  function InOrder(entries: seq<CommittedEntry>): (r: seq<CommittedEntry>) { Sorting.Sort(entries, EntryLe) }

  lemma EntryOrder()
    ensures Sorting.TotalPreorder(EntryLe)
  {}

  lemma RenderShape(entries: seq<CommittedEntry>, resolver: Resolver, hash: Hash)
    requires Render(entries, resolver, hash).Ok?
    ensures var plan := Render(entries, resolver, hash).value;
            var es := InOrder(entries);
            var items := plan.bundle.items;
            && |items| == |es| == |entries| && items != [] && Describes(plan.traces, items)
            && (forall i | 0 <= i < |items| :: Word(items[i].itemType) && Word(items[i].authority))
            && (forall i | 0 <= i < |es| ::
                  Materialized(es[i]) && items[i].resolvedContent == es[i].representation.content.value)
  {
    var plan := Render(entries, resolver, hash).value;
    var es := InOrder(entries);
    var items := plan.bundle.items;
    PositionsNonNegative(es, {});
    EntryOrder();
    Sorting.SortSorts(entries, EntryLe);
    forall i | 0 <= i < |es|
      ensures Word(items[i].itemType) && Word(items[i].authority) && Agrees(plan.traces[i], SegmentOf(items[i]))
      ensures Materialized(es[i]) && items[i].resolvedContent == es[i].representation.content.value
      ensures plan.traces[i].position == items[i].position
    {
      RenderEntryShape(es[i], resolver, hash);
    }
  }

  lemma RenderEntryShape(e: CommittedEntry, resolver: Resolver, hash: Hash)
    requires e.position >= 0 && RenderEntry(e, resolver, hash).Ok?
    ensures var (item, trace) := RenderEntry(e, resolver, hash).value;
            && Word(item.itemType) && Word(item.authority) && Agrees(trace, SegmentOf(item))
            && Materialized(e) && item.resolvedContent == e.representation.content.value
            && trace.position == item.position == e.position
            && ObservedEntry(Entry(trace, USER, item.resolvedContent), hash) == IntendedEntry(e, hash)
  {
    var m := MetadataFor(resolver, e).value;
    KnownWords(m.itemType);
    KnownWords(m.authority);
  }

  // ----- end to end ------------------------------------------------------

  predicate PlainRefs(items: seq<Item>) { forall i | 0 <= i < |items| :: NoLineTerminator(items[i].sourceRef) }

  /**
   A rendered plan, printed for any request id and any working directory that
   does not itself hold the context marker, is reconstructed exactly when its
   source references hold no line terminator; then every section comes back with
   its own content, in order. Contents are unrestricted.
   */
  lemma RenderedPlanReconstructs(
    entries: seq<CommittedEntry>, resolver: Resolver, hash: Hash, id: Text, cwd: Text, plan: Plan,
    shown: Result<seq<Entry>, ReconstructionError>)
    requires Render(entries, resolver, hash) == Ok(plan)
    requires NL !in id && !Contains(cwd, MARKER)
    requires shown == Reconstruct(PromptText(id, plan.bundle.items, cwd), plan.traces)
    ensures |plan.bundle.items| == |plan.traces|
    ensures shown.Ok? <==> PlainRefs(plan.bundle.items)
    ensures shown.Ok? ==> shown.value == EntriesOf(plan.bundle.items, plan.traces)
  {
    RenderShape(entries, resolver, hash);
    ReconstructsExactly(id, plan.bundle.items, cwd, plan.traces);
  }

  lemma ObservedIsIntended(entries: seq<CommittedEntry>, resolver: Resolver, hash: Hash)
    requires Render(entries, resolver, hash).Ok?
    ensures var plan := Render(entries, resolver, hash).value;
            |plan.bundle.items| == |plan.traces| &&
            Sorting.Map(EntriesOf(plan.bundle.items, plan.traces), e => ObservedEntry(e, hash))
            == Sorting.Map(InOrder(entries), e => IntendedEntry(e, hash))
  {
    var plan := Render(entries, resolver, hash).value;
    var es := InOrder(entries);
    RenderShape(entries, resolver, hash);
    forall i | 0 <= i < |es|
      ensures ObservedEntry(EntriesOf(plan.bundle.items, plan.traces)[i], hash) == IntendedEntry(es[i], hash)
    {
      ObservedAt(entries, resolver, hash, plan, i);
    }
    MapsEqual(EntriesOf(plan.bundle.items, plan.traces), es, e => ObservedEntry(e, hash), e => IntendedEntry(e, hash));
  }

  lemma ObservedAt(entries: seq<CommittedEntry>, resolver: Resolver, hash: Hash, plan: Plan, i: nat)
    requires Render(entries, resolver, hash) == Ok(plan) && i < |InOrder(entries)|
    requires |plan.bundle.items| == |plan.traces| == |InOrder(entries)|
    ensures ObservedEntry(EntriesOf(plan.bundle.items, plan.traces)[i], hash) ==
            IntendedEntry(InOrder(entries)[i], hash)
  {
    PositionsNonNegative(InOrder(entries), {});
    RenderEntryShape(InOrder(entries)[i], resolver, hash);
  }

  lemma MapsEqual<A, B, C>(s: seq<A>, t: seq<B>, f: A -> C, g: B -> C)
    requires |s| == |t| && forall i | 0 <= i < |s| :: f(s[i]) == g(t[i])
    ensures Sorting.Map(s, f) == Sorting.Map(t, g)
  {}

  lemma AllMaterialized(entries: seq<CommittedEntry>)
    requires forall i | 0 <= i < |InOrder(entries)| :: Materialized(InOrder(entries)[i])
    ensures forall i | 0 <= i < |entries| :: Materialized(entries[i])
  {
    EntryOrder();
    Sorting.SortSorts(entries, EntryLe);
    forall i | 0 <= i < |entries| ensures Materialized(entries[i]) {
      assert entries[i] in multiset(InOrder(entries));
    }
  }

  lemma IntendedInOrder(entries: seq<CommittedEntry>, hash: Hash)
    requires forall i | 0 <= i < |entries| :: Materialized(entries[i])
    ensures CanonicalizeIntended(entries, hash)
         == Ok(CanonicalContext(Sorting.Map(InOrder(entries), e => IntendedEntry(e, hash)), None, None))
    ensures Sorting.Sorted(Sorting.Map(InOrder(entries), e => IntendedEntry(e, hash)), CanonicalLe)
  {
    Sorting.SortMap(entries, e => IntendedEntry(e, hash), EntryLe, CanonicalLe);
    EntryOrder();
    Sorting.SortSorts(entries, EntryLe);
  }

  /**
   The main theorem. For every committed set that renders to plain references,
   printing and reading back succeeds, shows every committed content in position
   order, and passes parity against the intended context.
   */
  lemma RoundTripParity(
    entries: seq<CommittedEntry>, resolver: Resolver, hash: Hash, id: Text, cwd: Text, plan: Plan,
    shown: Result<seq<Entry>, ReconstructionError>)
    requires Render(entries, resolver, hash) == Ok(plan) && PlainRefs(plan.bundle.items)
    requires NL !in id && !Contains(cwd, MARKER)
    requires shown == Reconstruct(PromptText(id, plan.bundle.items, cwd), plan.traces)
    ensures shown.Ok? && |shown.value| == |entries| == |InOrder(entries)|
    ensures forall i | 0 <= i < |entries| :: InOrder(entries)[i].representation.content == Some(shown.value[i].content)
    ensures CanonicalizeIntended(entries, hash).Ok?
    ensures Pass(CanonicalizeIntended(entries, hash).value, CanonicalizeObserved(shown.value, |plan.traces|, hash))
  {
    RenderedPlanReconstructs(entries, resolver, hash, id, cwd, plan, shown);
    ShownParity(entries, resolver, hash, plan, shown.value);
  }

  lemma ShownParity(entries: seq<CommittedEntry>, resolver: Resolver, hash: Hash, plan: Plan, shown: seq<Entry>)
    requires Render(entries, resolver, hash) == Ok(plan) && |plan.bundle.items| == |plan.traces|
    requires shown == EntriesOf(plan.bundle.items, plan.traces)
    ensures |shown| == |entries| == |InOrder(entries)|
    ensures forall i | 0 <= i < |entries| :: InOrder(entries)[i].representation.content == Some(shown[i].content)
    ensures CanonicalizeIntended(entries, hash).Ok?
    ensures Pass(CanonicalizeIntended(entries, hash).value, CanonicalizeObserved(shown, |plan.traces|, hash))
  {
    RenderShape(entries, resolver, hash);
    AllMaterialized(entries);
    RenderedParity(entries, resolver, hash, plan);
  }

  lemma RenderedParity(entries: seq<CommittedEntry>, resolver: Resolver, hash: Hash, plan: Plan)
    requires Render(entries, resolver, hash) == Ok(plan) && |plan.bundle.items| == |plan.traces|
    requires forall i | 0 <= i < |entries| :: Materialized(entries[i])
    ensures CanonicalizeIntended(entries, hash).Ok?
    ensures Pass(CanonicalizeIntended(entries, hash).value,
                 CanonicalizeObserved(EntriesOf(plan.bundle.items, plan.traces), |plan.traces|, hash))
  {
    ObservedIsIntended(entries, resolver, hash);
    IntendedInOrder(entries, hash);
    Sorting.SortFixes(Sorting.Map(InOrder(entries), e => IntendedEntry(e, hash)), CanonicalLe);
    PassExactly(CanonicalizeIntended(entries, hash).value,
                CanonicalizeObserved(EntriesOf(plan.bundle.items, plan.traces), |plan.traces|, hash));
  }

  ghost predicate Injective(hash: Hash) {
    forall a, b :: hash(a) == hash(b) ==> a == b
  }

  predicate ObservedLe(a: Entry, b: Entry) { a.trace.position <= b.trace.position }

  /** The converse: when parity passes, the observed contents are the intended contents, in position order. */
  lemma PassMeansSameContents(entries: seq<CommittedEntry>, observed: seq<Entry>, expected: nat, hash: Hash)
    requires Injective(hash) && CanonicalizeIntended(entries, hash).Ok?
    requires Pass(CanonicalizeIntended(entries, hash).value, CanonicalizeObserved(observed, expected, hash))
    ensures |observed| == |entries| == expected
    ensures var es, os := InOrder(entries), Sorting.Sort(observed, ObservedLe);
            && |es| == |os| == |entries|
            && forall i | 0 <= i < |es| ::
                 && es[i].position == os[i].trace.position
                 && es[i].representation.content == Some(os[i].content)
  {
    var f, g := (e: CommittedEntry) => IntendedEntry(e, hash), (e: Entry) => ObservedEntry(e, hash);
    PassExactly(CanonicalizeIntended(entries, hash).value, CanonicalizeObserved(observed, expected, hash));
    Sorting.SortMap(entries, f, EntryLe, CanonicalLe);
    Sorting.SortMap(observed, g, ObservedLe, CanonicalLe);
    EntryOrder();
    Sorting.SortSorts(entries, EntryLe);
    Sorting.SortSorts(observed, ObservedLe);
    var es, os := InOrder(entries), Sorting.Sort(observed, ObservedLe);
    assert Sorting.Map(es, f) == Sorting.Map(os, g);
    forall i | 0 <= i < |es|
      ensures es[i].position == os[i].trace.position && es[i].representation.content == Some(os[i].content)
    {
      assert Sorting.Map(es, f)[i] == Sorting.Map(os, g)[i];
      assert es[i] in multiset(entries);
      SameContent(es[i], os[i], hash);
    }
  }

  lemma SameContent(e: CommittedEntry, o: Entry, hash: Hash)
    requires Injective(hash) && Materialized(e) && IntendedEntry(e, hash) == ObservedEntry(o, hash)
    ensures e.position == o.trace.position && e.representation.content == Some(o.content)
  {
    var content := e.representation.content.value;
    assert hash(ContentInput(content)) == hash(ContentInput(o.content));
    ContentInputInjective(content, o.content);
  }
}
