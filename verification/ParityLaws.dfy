/** Which mismatches a comparison reports: each kind, at each position, exactly under its condition. */
module ParityLaws {
  import opened Texts
  import opened Wrappers
  import opened ContextParity
  import Sorting

  predicate SameSource(a: CanonicalEntry, b: CanonicalEntry) {
    a.sourceId == b.sourceId && a.sourceVersionId == b.sourceVersionId
  }

  predicate SameRepresentation(a: CanonicalEntry, b: CanonicalEntry) {
    a.representationId == b.representationId && a.representationKind == b.representationKind
  }

  predicate SameRendering(a: CanonicalEntry, b: CanonicalEntry) {
    a.renderedHash == b.renderedHash && a.renderedContentHash == b.renderedContentHash && a.role == b.role
  }

  /** The kind of mismatch between two entries at one index; a different source hides the others. */
  predicate Differs(kind: MismatchKind, a: CanonicalEntry, b: CanonicalEntry) {
    match kind
    case VersionMismatch => !SameSource(a, b)
    case RepresentationMismatch => SameSource(a, b) && !SameRepresentation(a, b)
    case OrderMismatch => SameSource(a, b) && a.position != b.position
    case ContentHashMismatch => SameSource(a, b) && a.position == b.position && !SameRendering(a, b)
    case Missing => false
    case Extra => false
  }

  lemma EntryMismatchesExact(a: CanonicalEntry, b: CanonicalEntry, m: Mismatch)
    ensures m in EntryMismatches(a, b) <==> m.position == Some(a.position) && Differs(m.kind, a, b)
  {}

  predicate DifferAt(intended: seq<CanonicalEntry>, observed: seq<CanonicalEntry>, k: nat, m: Mismatch)
    requires k < |intended| && k < |observed|
  {
    m.position == Some(intended[k].position) && Differs(m.kind, intended[k], observed[k])
  }

  ghost predicate DifferBelow(intended: seq<CanonicalEntry>, observed: seq<CanonicalEntry>, n: nat, m: Mismatch)
    requires n <= |intended| && n <= |observed|
  {
    exists k: nat | k < n :: DifferAt(intended, observed, k, m)
  }

  lemma DifferStep(intended: seq<CanonicalEntry>, observed: seq<CanonicalEntry>, n: nat, m: Mismatch,
      front: seq<Mismatch>, last: seq<Mismatch>)
    requires 0 < n <= |intended| && n <= |observed|
    requires m in front <==> DifferBelow(intended, observed, n - 1, m)
    requires m in last <==> DifferAt(intended, observed, n - 1, m)
    ensures m in front + last <==> DifferBelow(intended, observed, n, m)
  {
    if DifferBelow(intended, observed, n, m) {
      var k: nat :| k < n && DifferAt(intended, observed, k, m);
      assert k < n - 1 ==> DifferBelow(intended, observed, n - 1, m);
    }
  }

  lemma {:induction false} AllEntriesExact(intended: seq<CanonicalEntry>, observed: seq<CanonicalEntry>, n: nat,
      m: Mismatch)
    requires n <= |intended| && n <= |observed|
    ensures m in AllEntryMismatches(intended, observed, n) <==> DifferBelow(intended, observed, n, m)
  {
    if n > 0 {
      AllEntriesExact(intended, observed, n - 1, m);
      EntryMismatchesExact(intended[n - 1], observed[n - 1], m);
      DifferStep(intended, observed, n, m, AllEntryMismatches(intended, observed, n - 1),
                 EntryMismatches(intended[n - 1], observed[n - 1]));
    }
  }

  /** The identity of an entry: its source, version and representation. */
  function Identities(es: seq<CanonicalEntry>): (r: seq<Text>) { Sorting.Map(es, Identity) }

  predicate SeparatorFree(ts: seq<Text>) { forall t | t in ts :: UNIT_SEPARATOR !in t }

  lemma JoinSame(a: seq<Text>, b: seq<Text>)
    requires |a| == |b| && SeparatorFree(a) && SeparatorFree(b)
    ensures Join(a, [UNIT_SEPARATOR]) == Join(b, [UNIT_SEPARATOR]) <==> a == b
  {
    if a != [] && Join(a, [UNIT_SEPARATOR]) == Join(b, [UNIT_SEPARATOR]) {
      SplitJoin(a, UNIT_SEPARATOR);
      SplitJoin(b, UNIT_SEPARATOR);
    }
  }

  lemma LexOrder()
    ensures Sorting.TotalPreorder(LexLe) && forall a, b :: LexLe(a, b) && LexLe(b, a) ==> a == b
  {
    forall a, b ensures LexLe(a, b) || LexLe(b, a) { LexTotal(a, b); }
    forall a, b, c | LexLe(a, b) && LexLe(b, c) ensures LexLe(a, c) { LexTransitive(a, b, c); }
    forall a, b | LexLe(a, b) && LexLe(b, a) ensures a == b { LexAntisymmetric(a, b); }
  }

  lemma SortedAlike(a: seq<Text>, b: seq<Text>)
    ensures Sorting.Sort(a, LexLe) == Sorting.Sort(b, LexLe) <==> multiset(a) == multiset(b)
  {
    LexOrder();
    Sorting.SortSorts(a, LexLe);
    Sorting.SortSorts(b, LexLe);
    if multiset(a) == multiset(b) { Sorting.SortPermutationInvariant(a, b, LexLe); }
  }

  lemma SortedFree(a: seq<Text>)
    requires SeparatorFree(a)
    ensures SeparatorFree(Sorting.Sort(a, LexLe)) && |Sorting.Sort(a, LexLe)| == |a|
  {
    LexOrder();
    Sorting.SortSorts(a, LexLe);
    forall t | t in Sorting.Sort(a, LexLe) ensures UNIT_SEPARATOR !in t {
      assert t in multiset(Sorting.Sort(a, LexLe));
      assert t in multiset(a);
    }
  }

  /** The same identities in another order. */
  predicate Reordered(intended: seq<CanonicalEntry>, observed: seq<CanonicalEntry>) {
    multiset(Identities(intended)) == multiset(Identities(observed)) && Identities(intended) != Identities(observed)
  }

  /** The joined identities say that the order differs and nothing else does. */
  predicate JoinedReordered(intended: seq<CanonicalEntry>, observed: seq<CanonicalEntry>) {
    var a, b := Identities(intended), Identities(observed);
    && |a| == |b| && Join(a, [UNIT_SEPARATOR]) != Join(b, [UNIT_SEPARATOR])
    && Join(Sorting.Sort(a, LexLe), [UNIT_SEPARATOR]) == Join(Sorting.Sort(b, LexLe), [UNIT_SEPARATOR])
  }

  /** Unless an identity holds the separator they are joined with, that is so exactly when the order differs. */
  lemma OrderExact(intended: seq<CanonicalEntry>, observed: seq<CanonicalEntry>)
    requires SeparatorFree(Identities(intended)) && SeparatorFree(Identities(observed))
    ensures JoinedReordered(intended, observed) <==> Reordered(intended, observed)
  {
    var a, b := Identities(intended), Identities(observed);
    if |a| == |b| {
      SortedFree(a);
      SortedFree(b);
      JoinSame(a, b);
      JoinSame(Sorting.Sort(a, LexLe), Sorting.Sort(b, LexLe));
      SortedAlike(a, b);
    } else {
      assert |multiset(a)| == |a| && |multiset(b)| == |b|;
    }
  }

  predicate FewerPayloads(c: CanonicalContext) {
    c.payloadMessageCount.Some? && c.expectedPayloadMessageCount.Some?
    && c.payloadMessageCount.value < c.expectedPayloadMessageCount.value
  }

  predicate MorePayloads(c: CanonicalContext) {
    c.payloadMessageCount.Some? && c.expectedPayloadMessageCount.Some?
    && c.payloadMessageCount.value > c.expectedPayloadMessageCount.value
  }

  /** What is reported without a position: too few, too many, or in another order. */
  ghost predicate ReportedOverall(intended: CanonicalContext, observed: CanonicalContext, kind: MismatchKind) {
    match kind
    case Missing => FewerPayloads(observed) || |observed.entries| < |intended.entries|
    case Extra => MorePayloads(observed) || |observed.entries| > |intended.entries|
    case OrderMismatch => JoinedReordered(intended.entries, observed.entries)
    case _ => false
  }

  /**
   Every mismatch that the comparison reports, and no other: with a position, the
   difference of the two entries at one index; without, the numbers and the order.
   */
  lemma MismatchesExact(intended: CanonicalContext, observed: CanonicalContext, m: Mismatch)
    ensures m in Mismatches(intended, observed) <==>
            match m.position
            case None => ReportedOverall(intended, observed, m.kind)
            case Some(_) =>
              exists k: nat | k < |intended.entries| && k < |observed.entries| ::
                DifferAt(intended.entries, observed.entries, k, m)
  {
    var a, b := intended.entries, observed.entries;
    AllEntriesExact(a, b, Min(|a|, |b|), m);
    OverallExact(intended, observed, m);
  }

  lemma OverallExact(intended: CanonicalContext, observed: CanonicalContext, m: Mismatch)
    ensures m in CountMismatches(observed) || m in LengthMismatches(intended.entries, observed.entries)
            || m in OrderMismatches(intended.entries, observed.entries) <==>
            m.position.None? && ReportedOverall(intended, observed, m.kind)
  {}
}
