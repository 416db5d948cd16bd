/**
 What the dose of a leg says, on the recorded rows: each observation field by
 field, and the summary as sums and unions over the rows.
 */
module DoseLaws {
  import opened Wrappers
  import opened LiveLog
  import opened LiveDriver
  import opened Sums
  import opened Sequences
  import opened UnknownReasons
  import opened Dose
  import Sorting

  /** The row takes a key of the tool pair out of the context, or carries one that is out. */
  predicate Touches(keys: set<Key>, id: Id) { ToolCall(id) in keys || ToolResult(id) in keys }

  ghost predicate RemovesPair(hash: string -> string, row: Receipt, p: PairId) {
    exists id :: p == PairIdOf(hash, id) && (Touches(Elements(row.removed), id) || Touches(row.carried, id))
  }

  ghost predicate CarriesPair(hash: string -> string, row: Receipt, p: PairId) {
    exists id :: p == PairIdOf(hash, id) && Touches(row.carried, id)
  }

  /** The observation of row `i`, field by field. */
  ghost predicate ObservationTells(hash: string -> string, plan: LegPlan, rows: seq<Receipt>, i: nat, o: Observation)
    requires i < |rows|
  {
    var row := rows[i];
    && o.experimentPairId == plan.pairId && o.callOrdinal == row.callOrdinal
    && row.preHash == Some(o.preHash) && row.postHash == Some(o.postHash) && o.contextChanged == row.contextChanged
    && (forall k :: k in o.removedKeys <==> k in row.removed || k in row.carried)
    && (forall p :: p in o.removed <==> RemovesPair(hash, row, p))
    && o.eligible == o.selected == o.suppressed == o.removed
    && (forall p :: p in o.newRemovals <==>
                    RemovesPair(hash, row, p) && forall j | 0 <= j < i :: !RemovesPair(hash, rows[j], p))
    && (forall p :: p in o.carried <==> CarriesPair(hash, row, p))
    && o.pairExposures == |o.removed| && o.keyExposures == |o.removedKeys| && o.activeStale == Some(|o.removed|)
    && o.tokensBefore == o.tokensAfter == o.removedBytes == o.removedTokens == None
    && o.counts == plan.counts(row.callOrdinal) && o.unknowns == plan.unknownsFor(row.callOrdinal)
  }

  lemma {:induction false} ProjectAt(hash: string -> string, plan: LegPlan, rows: seq<Receipt>, i: nat)
    requires Project(hash, plan, rows).Some? && i < |rows|
    ensures |Project(hash, plan, rows).value| == |rows|
    ensures ProjectRow(hash, plan, Seen(hash, rows[..i]), rows[i]) == Some(Project(hash, plan, rows).value[i])
  {
    var n := |rows| - 1;
    FrontLast(rows);
    ProjectLast(hash, plan, rows[..n], rows[n]);
    ProjectLength(hash, plan, rows[..n]);
    if i < n {
      assert rows[..n][..i] == rows[..i];
      ProjectAt(hash, plan, rows[..n], i);
    }
  }

  lemma {:induction false} ProjectLength(hash: string -> string, plan: LegPlan, rows: seq<Receipt>)
    requires Project(hash, plan, rows).Some?
    ensures |Project(hash, plan, rows).value| == |rows|
  {
    if rows != [] {
      var n := |rows| - 1;
      FrontLast(rows);
      ProjectLast(hash, plan, rows[..n], rows[n]);
      ProjectLength(hash, plan, rows[..n]);
    }
  }

  lemma PairsRemoved(hash: string -> string, row: Receipt, p: PairId)
    ensures p in RemovedPairs(hash, row) <==> RemovesPair(hash, row, p)
  {
    var keys := RemovedKeys(row);
    if p in RemovedPairs(hash, row) {
      var id :| id in Ids(keys) && p == PairIdOf(hash, id);
      var k :| k in keys && !k.OtherKey? && k.id == id;
      assert k == ToolCall(id) || k == ToolResult(id);
    }
    if id :| p == PairIdOf(hash, id) && (Touches(Elements(row.removed), id) || Touches(row.carried, id)) {
      TouchedIds(keys, id);
    }
  }

  lemma TouchedIds(keys: set<Key>, id: Id)
    ensures id in Ids(keys) <==> Touches(keys, id)
  {
    if id in Ids(keys) {
      var k :| k in keys && !k.OtherKey? && k.id == id;
      assert k == ToolCall(id) || k == ToolResult(id);
    }
    if ToolCall(id) in keys { assert ToolCall(id).id in Ids(keys); }
    if ToolResult(id) in keys { assert ToolResult(id).id in Ids(keys); }
  }

  lemma PairsCarried(hash: string -> string, row: Receipt, p: PairId)
    ensures p in PairIds(hash, Ids(row.carried)) <==> CarriesPair(hash, row, p)
  {
    if p in PairIds(hash, Ids(row.carried)) {
      var id :| id in Ids(row.carried) && p == PairIdOf(hash, id);
      TouchedIds(row.carried, id);
    }
    if id :| p == PairIdOf(hash, id) && Touches(row.carried, id) { TouchedIds(row.carried, id); }
  }

  lemma {:induction false} SeenIs(hash: string -> string, rows: seq<Receipt>, p: PairId)
    ensures p in Seen(hash, rows) <==> exists j | 0 <= j < |rows| :: RemovesPair(hash, rows[j], p)
  {
    if rows != [] {
      var n := |rows| - 1;
      SeenIs(hash, rows[..n], p);
      PairsRemoved(hash, rows[n], p);
      assert forall j | 0 <= j < n :: rows[..n][j] == rows[j];
    }
  }

  /** Every observation of an accepted projection says what its row says. */
  lemma ObservationExact(hash: string -> string, plan: LegPlan, rows: seq<Receipt>, i: nat)
    requires Project(hash, plan, rows).Some? && i < |rows|
    ensures |Project(hash, plan, rows).value| == |rows|
    ensures ObservationTells(hash, plan, rows, i, Project(hash, plan, rows).value[i])
  {
    ProjectAt(hash, plan, rows, i);
    var row, seen := rows[i], Seen(hash, rows[..i]);
    forall p ensures p in RemovedPairs(hash, row) <==> RemovesPair(hash, row, p) { PairsRemoved(hash, row, p); }
    forall p ensures p in PairIds(hash, Ids(row.carried)) <==> CarriesPair(hash, row, p) { PairsCarried(hash, row, p); }
    forall p ensures p in seen <==> exists j | 0 <= j < i :: RemovesPair(hash, rows[j], p) {
      SeenIs(hash, rows[..i], p);
      assert forall j | 0 <= j < i :: rows[..i][j] == rows[j];
    }
  }

  // ----- the summary of a leg --------------------------------------------

  function ChangedRow(): Receipt -> nat { (row: Receipt) => if row.contextChanged then 1 else 0 }

  /** How many pairs a row removes or carries. */
  function PairsOut(hash: string -> string): Receipt -> nat { (row: Receipt) => |RemovedPairs(hash, row)| }

  function PairsKept(hash: string -> string): Receipt -> nat {
    (row: Receipt) => |PairIds(hash, Ids(row.carried))|
  }

  function Rehydrations(plan: LegPlan): Receipt -> nat { (row: Receipt) => plan.counts(row.callOrdinal).rehydrated }

  function Protections(plan: LegPlan): Receipt -> nat {
    (row: Receipt) => plan.counts(row.callOrdinal).protectedRemovals
  }

  function ConflictsOf(plan: LegPlan): Receipt -> nat { (row: Receipt) => plan.counts(row.callOrdinal).conflicts }

  lemma {:induction false} SumsAgree(out: seq<Observation>, rows: seq<Receipt>, f: Observation -> nat,
      g: Receipt -> nat)
    requires |out| == |rows| && forall i | 0 <= i < |rows| :: f(out[i]) == g(rows[i])
    ensures Sum(out, f) == Sum(rows, g)
  {
    if rows != [] { SumsAgree(out[1..], rows[1..], f, g); }
  }

  /** The observations of a projection, with what the summary reads of them. */
  ghost predicate Alike(hash: string -> string, plan: LegPlan, rows: seq<Receipt>, out: seq<Observation>) {
    |out| == |rows| && forall i | 0 <= i < |rows| :: AlikeRow(hash, plan, rows[i], out[i])
  }

  predicate AlikeRow(hash: string -> string, plan: LegPlan, row: Receipt, o: Observation) {
    && o.contextChanged == row.contextChanged && o.removed == RemovedPairs(hash, row)
    && o.carried == PairIds(hash, Ids(row.carried)) && o.pairExposures == |o.removed|
    && o.counts == plan.counts(row.callOrdinal) && o.unknowns == plan.unknownsFor(row.callOrdinal)
    && o.tokensBefore == o.tokensAfter == o.removedBytes == o.removedTokens == None
    && o.activeStale == Some(|o.removed|)
  }

  lemma ProjectAlike(hash: string -> string, plan: LegPlan, rows: seq<Receipt>)
    requires Project(hash, plan, rows).Some?
    ensures Alike(hash, plan, rows, Project(hash, plan, rows).value)
  {
    ProjectLength(hash, plan, rows);
    forall i | 0 <= i < |rows| ensures AlikeRow(hash, plan, rows[i], Project(hash, plan, rows).value[i]) {
      ProjectAt(hash, plan, rows, i);
    }
  }

  /** The counters of a leg's summary are sums over its rows. */
  lemma SumsOfLeg(hash: string -> string, plan: LegPlan, rows: seq<Receipt>, out: seq<Observation>)
    requires rows != [] && Project(hash, plan, rows) == Some(out) && out != []
    ensures var s := Summarize(out);
            && s.outboundCalls == |rows| && s.changedCalls == Sum(rows, ChangedRow())
            && s.carriedRemovalCalls == Sum(rows, PairsKept(hash)) && s.pairExposures == Sum(rows, PairsOut(hash))
            && s.counts.rehydrated == Sum(rows, Rehydrations(plan))
            && s.counts.protectedRemovals == Sum(rows, Protections(plan))
            && s.counts.conflicts == Sum(rows, ConflictsOf(plan))
            && s.exposureRatio == Sum(rows, ChangedRow()) as real / |rows| as real
  {
    ProjectAlike(hash, plan, rows);
    PairSums(hash, plan, rows, out);
    CountSums(hash, plan, rows, out);
  }

  lemma PairSums(hash: string -> string, plan: LegPlan, rows: seq<Receipt>, out: seq<Observation>)
    requires Alike(hash, plan, rows, out)
    ensures Sum(out, Changed()) == Sum(rows, ChangedRow())
    ensures Sum(out, CarriedCount()) == Sum(rows, PairsKept(hash))
    ensures Sum(out, PairExposures()) == Sum(rows, PairsOut(hash))
  {
    forall i | 0 <= i < |rows|
      ensures Changed()(out[i]) == ChangedRow()(rows[i]) && CarriedCount()(out[i]) == PairsKept(hash)(rows[i])
      ensures PairExposures()(out[i]) == PairsOut(hash)(rows[i])
    {
      assert AlikeRow(hash, plan, rows[i], out[i]);
    }
    SumsAgree(out, rows, Changed(), ChangedRow());
    SumsAgree(out, rows, CarriedCount(), PairsKept(hash));
    SumsAgree(out, rows, PairExposures(), PairsOut(hash));
  }

  lemma CountSums(hash: string -> string, plan: LegPlan, rows: seq<Receipt>, out: seq<Observation>)
    requires Alike(hash, plan, rows, out)
    ensures Sum(out, Rehydrated()) == Sum(rows, Rehydrations(plan))
    ensures Sum(out, Protected()) == Sum(rows, Protections(plan))
    ensures Sum(out, Conflicts()) == Sum(rows, ConflictsOf(plan))
  {
    forall i | 0 <= i < |rows|
      ensures Rehydrated()(out[i]) == Rehydrations(plan)(rows[i]) && Protected()(out[i]) == Protections(plan)(rows[i])
      ensures Conflicts()(out[i]) == ConflictsOf(plan)(rows[i])
    {
      assert AlikeRow(hash, plan, rows[i], out[i]);
    }
    SumsAgree(out, rows, Rehydrated(), Rehydrations(plan));
    SumsAgree(out, rows, Protected(), Protections(plan));
    SumsAgree(out, rows, Conflicts(), ConflictsOf(plan));
  }

  /** The unknowns that the plan reports for the rows. */
  function UnknownsFor(plan: LegPlan, rows: seq<Receipt>): (us: seq<Unknowns>)
    ensures |us| == |rows| && forall i | 0 <= i < |rows| :: us[i] == plan.unknownsFor(rows[i].callOrdinal)
  {
    seq(|rows|, i requires 0 <= i < |rows| => plan.unknownsFor(rows[i].callOrdinal))
  }

  lemma UnknownsOfLeg(hash: string -> string, plan: LegPlan, rows: seq<Receipt>, out: seq<Observation>, reason: string)
    requires rows != [] && Project(hash, plan, rows) == Some(out) && out != []
    ensures reason in Summarize(out).unknowns <==> Mentioned(UnknownsFor(plan, rows), reason)
    ensures reason in Summarize(out).unknowns && !Inherited(reason) ==>
              Summarize(out).unknowns[reason] == Total(TotalOf(UnknownsFor(plan, rows), reason))
  {
    ProjectAlike(hash, plan, rows);
    var us := Sorting.Map(out, UnknownsOf());
    forall i | 0 <= i < |rows| ensures us[i] == UnknownsFor(plan, rows)[i] {
      assert AlikeRow(hash, plan, rows[i], out[i]);
    }
    assert us == UnknownsFor(plan, rows);
    MergeExact(us, reason);
  }

  lemma ActiveCounts(hash: string -> string, plan: LegPlan, rows: seq<Receipt>, out: seq<Observation>)
    requires Alike(hash, plan, rows, out)
    ensures var peaks := Sorting.Map(out, ActiveStale());
            |peaks| == |rows| && forall i | 0 <= i < |rows| :: peaks[i] == Some(|RemovedPairs(hash, rows[i])|)
  {
    forall i | 0 <= i < |rows| ensures Sorting.Map(out, ActiveStale())[i] == Some(|RemovedPairs(hash, rows[i])|) {
      assert AlikeRow(hash, plan, rows[i], out[i]);
    }
  }

  lemma PeakOfCounts(counts: seq<nat>, peaks: seq<Option<nat>>)
    requires |counts| == |peaks| && counts != [] && forall i | 0 <= i < |counts| :: peaks[i] == Some(counts[i])
    ensures var m := MaxMeasurable(peaks);
            m.Some? && m.value in counts && forall i | 0 <= i < |counts| :: counts[i] <= m.value
  {
    PeakIsLargest(peaks);
    forall i | 0 <= i < |counts| ensures Some(counts[i]) in peaks { assert peaks[i] == Some(counts[i]); }
    assert None !in peaks;
    var i :| 0 <= i < |peaks| && peaks[i] == MaxMeasurable(peaks);
    assert counts[i] == MaxMeasurable(peaks).value;
  }

  /** How many pairs each row leaves out. */
  function PairCounts(hash: string -> string, rows: seq<Receipt>): (r: seq<nat>)
    ensures |r| == |rows| && forall i | 0 <= i < |rows| :: r[i] == |RemovedPairs(hash, rows[i])|
  {
    seq(|rows|, i requires 0 <= i < |rows| => |RemovedPairs(hash, rows[i])|)
  }

  lemma NothingMeasured(hash: string -> string, plan: LegPlan, rows: seq<Receipt>, out: seq<Observation>)
    requires rows != [] && Alike(hash, plan, rows, out)
    ensures SumMeasurable(Sorting.Map(out, TokensBefore())).None?
    ensures SumMeasurable(Sorting.Map(out, TokensAfter())).None?
    ensures SumMeasurable(Sorting.Map(out, RemovedBytes())).None?
    ensures SumMeasurable(Sorting.Map(out, RemovedTokens())).None?
  {
    assert AlikeRow(hash, plan, rows[0], out[0]);
    NoneSummed(Sorting.Map(out, TokensBefore()));
    NoneSummed(Sorting.Map(out, TokensAfter()));
    NoneSummed(Sorting.Map(out, RemovedBytes()));
    NoneSummed(Sorting.Map(out, RemovedTokens()));
  }

  /** The peak is the largest number of pairs a row leaves out; tokens and bytes are unavailable. */
  lemma PeakOfLeg(hash: string -> string, plan: LegPlan, rows: seq<Receipt>, out: seq<Observation>)
    requires rows != [] && Project(hash, plan, rows) == Some(out) && out != []
    ensures var s := Summarize(out);
            && s.activeStalePeak.Some? && s.activeStalePeak.value in PairCounts(hash, rows)
            && (forall i | 0 <= i < |rows| :: |RemovedPairs(hash, rows[i])| <= s.activeStalePeak.value)
            && s.tokensBefore == s.tokensAfter == s.removedBytes == s.removedTokens == None
            && s.removedTokenRatio.None?
  {
    ProjectAlike(hash, plan, rows);
    ActiveCounts(hash, plan, rows, out);
    PeakOfCounts(PairCounts(hash, rows), Sorting.Map(out, ActiveStale()));
    NothingMeasured(hash, plan, rows, out);
  }

  lemma NoneSummed(values: seq<Option<nat>>)
    requires values != [] && values[0].None?
    ensures SumMeasurable(values).None?
  {
    assert values[0] in values;
  }

  /**
   The summary of a leg on its rows: which pairs were removed and how many calls
   newly removed one, and every counter, ratio, peak and unknown reason.
   */
  lemma LegSummary(hash: string -> string, plan: LegPlan, rows: seq<Receipt>)
    requires Injective(hash) && CarryRun({}, rows) && rows != [] && plan.pairId != "" && AllClean(plan, rows)
    ensures Project(hash, plan, rows).Some? && Project(hash, plan, rows).value != []
    ensures var s := Summarize(Project(hash, plan, rows).value);
            && s.experimentPairId == plan.pairId
            && (forall p :: p in s.removed <==> exists j | 0 <= j < |rows| :: RemovesPair(hash, rows[j], p))
            && s.eligible == s.selected == s.removed && s.newRemovalCalls == |s.removed|
            && s.keyExposures == 2 * s.pairExposures && |s.removedKeys| == 2 * |s.removed|
  {
    LegDose(hash, plan, rows);
    LegProjected(hash, plan, rows);
    var out := Project(hash, plan, rows).value;
    ProjectedValid(hash, plan, rows, out);
    ExposuresDouble(out);
    LegKeys(hash, plan, rows);
    AllSeen(hash, rows);
  }

  lemma AllSeen(hash: string -> string, rows: seq<Receipt>)
    ensures forall p :: p in Seen(hash, rows) <==> exists j | 0 <= j < |rows| :: RemovesPair(hash, rows[j], p)
  {
    forall p ensures p in Seen(hash, rows) <==> exists j | 0 <= j < |rows| :: RemovesPair(hash, rows[j], p) {
      SeenIs(hash, rows, p);
    }
  }

  lemma LegKeys(hash: string -> string, plan: LegPlan, rows: seq<Receipt>)
    requires Injective(hash) && AllClean(plan, rows)
    ensures |AllKeys(rows)| == 2 * |Seen(hash, rows)|
  {
    KeysPaired(hash, plan, rows);
    TwoKeysPerPair(hash, AllKeys(rows));
  }

  lemma ProjectedValid(hash: string -> string, plan: LegPlan, rows: seq<Receipt>, out: seq<Observation>)
    requires rows != [] && Projected(hash, plan, rows, out)
    ensures AllValid(out) && out[0].experimentPairId == plan.pairId
  {
    assert OfCall(plan, out[0], 1);
    forall o | o in out ensures ValidObservation(o) {
      var i :| 0 <= i < |out| && out[i] == o;
      assert OfCall(plan, out[i], i + 1);
    }
  }
}
