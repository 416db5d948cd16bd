/**
 The harness-neutral comparison of the context that was intended with the
 context that the model saw.
 */
module ContextParity {
  import opened Texts
  import opened Wrappers
  import Sorting

  datatype CanonicalEntry = CanonicalEntry(
    position: int,
    sourceId: Text,
    sourceVersionId: Text,
    representationId: Text,
    representationKind: Text,
    renderedHash: Text,
    renderedContentHash: Text,
    role: Text)

  datatype CanonicalContext = CanonicalContext(
    entries: seq<CanonicalEntry>,
    payloadMessageCount: Option<nat>,
    expectedPayloadMessageCount: Option<nat>)

  datatype MismatchKind =
    | Missing | Extra | VersionMismatch | RepresentationMismatch | OrderMismatch | ContentHashMismatch

  datatype Mismatch = Mismatch(kind: MismatchKind, position: Option<int>)

  predicate CanonicalLe(a: CanonicalEntry, b: CanonicalEntry) { a.position <= b.position }

  /** `rendered-content-v1|` followed by the content: what is hashed. */
  function ContentInput(content: Text): (t: Text) { Lit("rendered-content-v1|") + content }

  lemma ContentInputInjective(a: Text, b: Text)
    requires ContentInput(a) == ContentInput(b)
    ensures a == b
  {
    assert ContentInput(a)[|Lit("rendered-content-v1|")|..] == a;
    assert ContentInput(b)[|Lit("rendered-content-v1|")|..] == b;
  }

  // ----- comparison ------------------------------------------------------

  const BAR: Unit := 124
  const UNIT_SEPARATOR: Unit := 0x241F

  function Identity(e: CanonicalEntry): (t: Text) {
    Join([e.sourceId, e.sourceVersionId, e.representationId, e.representationKind], [BAR])
  }

  /** The payload counts, when both are known, agree. */
  predicate CountsAgree(observed: CanonicalContext) {
    observed.expectedPayloadMessageCount.Some? && observed.payloadMessageCount.Some? ==>
      observed.payloadMessageCount == observed.expectedPayloadMessageCount
  }

  function CountMismatches(observed: CanonicalContext): (r: seq<Mismatch>) {
    if CountsAgree(observed) then []
    else
      [Mismatch(
         if observed.payloadMessageCount.value > observed.expectedPayloadMessageCount.value then Extra else Missing,
         None)]
  }

  function LengthMismatches(intended: seq<CanonicalEntry>, observed: seq<CanonicalEntry>): (r: seq<Mismatch>) {
    if |observed| < |intended| then [Mismatch(Missing, None)]
    else if |observed| > |intended| then [Mismatch(Extra, None)]
    else []
  }

  function OrderMismatches(intended: seq<CanonicalEntry>, observed: seq<CanonicalEntry>): (r: seq<Mismatch>) {
    var a, b := Sorting.Map(intended, Identity), Sorting.Map(observed, Identity);
    if |a| == |b|
       && Join(Sorting.Sort(a, LexLe), [UNIT_SEPARATOR]) == Join(Sorting.Sort(b, LexLe), [UNIT_SEPARATOR])
       && Join(a, [UNIT_SEPARATOR]) != Join(b, [UNIT_SEPARATOR])
    then [Mismatch(OrderMismatch, None)]
    else []
  }

  /** What one turn of the comparison loop pushes. */
  function EntryMismatches(expected: CanonicalEntry, actual: CanonicalEntry): (r: seq<Mismatch>) {
    if expected.sourceId != actual.sourceId || expected.sourceVersionId != actual.sourceVersionId
    then [Mismatch(VersionMismatch, Some(expected.position))]
    else
      (if expected.representationId != actual.representationId
          || expected.representationKind != actual.representationKind
       then [Mismatch(RepresentationMismatch, Some(expected.position))] else []) +
      (if expected.position != actual.position || expected.renderedHash != actual.renderedHash
          || expected.renderedContentHash != actual.renderedContentHash || expected.role != actual.role
       then [Mismatch(if expected.position != actual.position then OrderMismatch else ContentHashMismatch,
                      Some(expected.position))]
       else [])
  }

  function AllEntryMismatches(intended: seq<CanonicalEntry>, observed: seq<CanonicalEntry>, n: nat): (r: seq<Mismatch>)
    requires n <= |intended| && n <= |observed|
  {
    if n == 0 then []
    else AllEntryMismatches(intended, observed, n - 1) + EntryMismatches(intended[n - 1], observed[n - 1])
  }

  function Min(a: nat, b: nat): nat { if a < b then a else b }

  function Mismatches(intended: CanonicalContext, observed: CanonicalContext): (r: seq<Mismatch>) {
    CountMismatches(observed)
    + LengthMismatches(intended.entries, observed.entries)
    + OrderMismatches(intended.entries, observed.entries)
    + AllEntryMismatches(intended.entries, observed.entries, Min(|intended.entries|, |observed.entries|))
  }

  /** `compareContextParity` passes. */
  predicate Pass(intended: CanonicalContext, observed: CanonicalContext) { Mismatches(intended, observed) == [] }

  lemma PushAssoc(a: seq<Mismatch>, b: seq<Mismatch>, c: seq<Mismatch>)
    ensures a + b + c == a + (b + c)
  {}

  /** `compareContextParity`: pushes mismatches, the last ones inside an index loop. */
  method CompareContextParity(intended: CanonicalContext, observed: CanonicalContext)
    returns (pass: bool, mismatches: seq<Mismatch>)
    ensures mismatches == Mismatches(intended, observed)
    ensures pass <==> CountsAgree(observed) && intended.entries == observed.entries
  {
    mismatches := CountMismatches(observed) + LengthMismatches(intended.entries, observed.entries)
                  + OrderMismatches(intended.entries, observed.entries);
    mismatches := CompareEntries(intended.entries, observed.entries, mismatches);
    PassExactly(intended, observed);
    pass := |mismatches| == 0;
  }

  method CompareEntries(intended: seq<CanonicalEntry>, observed: seq<CanonicalEntry>, before: seq<Mismatch>)
    returns (mismatches: seq<Mismatch>)
    ensures mismatches == before + AllEntryMismatches(intended, observed, Min(|intended|, |observed|))
  {
    mismatches := before;
    var n := Min(|intended|, |observed|);
    var index := 0;
    while index < n
      invariant 0 <= index <= n
      invariant mismatches == before + AllEntryMismatches(intended, observed, index)
    {
      PushStep(before, intended, observed, index);
      mismatches := mismatches + EntryMismatches(intended[index], observed[index]);
      index := index + 1;
    }
  }

  lemma PushStep(before: seq<Mismatch>, intended: seq<CanonicalEntry>, observed: seq<CanonicalEntry>, i: nat)
    requires i < |intended| && i < |observed|
    ensures before + AllEntryMismatches(intended, observed, i) + EntryMismatches(intended[i], observed[i])
            == before + AllEntryMismatches(intended, observed, i + 1)
  {
    PushAssoc(before, AllEntryMismatches(intended, observed, i), EntryMismatches(intended[i], observed[i]));
  }

  lemma EntryMatches(a: CanonicalEntry, b: CanonicalEntry)
    ensures EntryMismatches(a, b) == [] <==> a == b
  {}

  lemma PrefixesEqual<T>(s: seq<T>, t: seq<T>, n: nat)
    requires 0 < n <= |s| && n <= |t|
    ensures s[..n] == t[..n] <==> s[..n - 1] == t[..n - 1] && s[n - 1] == t[n - 1]
  {
    assert s[..n] == s[..n - 1] + [s[n - 1]] && t[..n] == t[..n - 1] + [t[n - 1]];
  }

  lemma NothingPushed(a: seq<Mismatch>, b: seq<Mismatch>)
    ensures a + b == [] <==> a == [] && b == []
  {}

  lemma {:induction false} NoEntryMismatch(intended: seq<CanonicalEntry>, observed: seq<CanonicalEntry>, n: nat)
    requires n <= |intended| && n <= |observed|
    ensures AllEntryMismatches(intended, observed, n) == [] <==> intended[..n] == observed[..n]
  {
    if n > 0 {
      NoEntryMismatch(intended, observed, n - 1);
      PrefixesEqual(intended, observed, n);
      LastMismatch(intended, observed, n);
    }
  }

  lemma LastMismatch(intended: seq<CanonicalEntry>, observed: seq<CanonicalEntry>, n: nat)
    requires 0 < n <= |intended| && n <= |observed|
    ensures AllEntryMismatches(intended, observed, n) == []
            <==> AllEntryMismatches(intended, observed, n - 1) == [] && intended[n - 1] == observed[n - 1]
  {
    EntryMatches(intended[n - 1], observed[n - 1]);
    NothingPushed(AllEntryMismatches(intended, observed, n - 1), EntryMismatches(intended[n - 1], observed[n - 1]));
  }

  /** Parity passes exactly when the counts agree and the two entry sequences are equal in every field. */
  lemma PassExactly(intended: CanonicalContext, observed: CanonicalContext)
    ensures Pass(intended, observed) <==> CountsAgree(observed) && intended.entries == observed.entries
  {
    var a, b := intended.entries, observed.entries;
    var n := Min(|a|, |b|);
    NoEntryMismatch(a, b, n);
    if |a| == |b| { assert a[..n] == a && b[..n] == b; }
  }
}
