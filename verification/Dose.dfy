/**
 The dose of a leg: which tool pairs each recorded call removed, which removals
 are new and which are carried, and the per-leg aggregate. The rows are the
 receipts the driver records, so the carry it commits decides what is carried.
 Lists that the source keeps unique and sorted are sets here.
 */
module Dose {
  import opened Wrappers
  import opened LiveLog
  import opened LiveDriver
  import Sorting
  import opened Sums
  import opened Sequences
  import opened UnknownReasons

  type PairId = string

  ghost predicate Injective(hash: string -> string) { forall a, b :: hash(a) == hash(b) ==> a == b }

  const CALL: string := "run/tool-call://"
  const RESULT: string := "run/tool-result://"

  function PairText(id: Id): (r: string) { CALL + id + "|" + RESULT + id }

  function PairIdOf(hash: string -> string, id: Id): (r: PairId) { "c1-lifecycle-" + hash(PairText(id)) }

  lemma PairTextInjective(a: Id, b: Id)
    requires PairText(a) == PairText(b)
    ensures a == b
  {
    assert |PairText(a)| == |CALL| + |RESULT| + 1 + 2 * |a|;
    assert |PairText(b)| == |CALL| + |RESULT| + 1 + 2 * |b|;
    assert PairText(a)[|CALL|..|CALL| + |a|] == a;
    assert PairText(b)[|CALL|..|CALL| + |b|] == b;
  }

  lemma PairIdInjective(hash: string -> string, a: Id, b: Id)
    requires Injective(hash) && PairIdOf(hash, a) == PairIdOf(hash, b)
    ensures a == b
  {
    var p: string := "c1-lifecycle-";
    assert PairIdOf(hash, a)[|p|..] == hash(PairText(a));
    assert PairIdOf(hash, b)[|p|..] == hash(PairText(b));
    PairTextInjective(a, b);
  }

  // ----- pair ids of source keys -----------------------------------------

  /** Each tool key comes with its partner; other keys are ignored. */
  predicate Paired(keys: set<Key>) {
    forall k | k in keys && !k.OtherKey? :: ToolCall(k.id) in keys && ToolResult(k.id) in keys
  }

  predicate PurePairs(keys: set<Key>) {
    Paired(keys) && forall k | k in keys :: !k.OtherKey?
  }

  function Ids(keys: set<Key>): (r: set<Id>) { set k | k in keys && !k.OtherKey? :: k.id }

  function PairIds(hash: string -> string, ids: set<Id>): (r: set<PairId>) { set id | id in ids :: PairIdOf(hash, id) }

  function Elements<T>(s: seq<T>): (r: set<T>) { set x | x in s }

  datatype Half = Half(call: bool, result: bool)

  /** `lifecyclePairIdsForSourceKeys` */
  method LifecyclePairIds(hash: string -> string, keys: seq<Key>) returns (r: Option<set<PairId>>)
    ensures r.Some? <==> Paired(Elements(keys))
    ensures r.Some? ==> r.value == PairIds(hash, Ids(Elements(keys)))
  {
    var pairs: map<Id, Half> := map[];
    for i := 0 to |keys|
      invariant forall id :: id in pairs <==> ToolCall(id) in keys[..i] || ToolResult(id) in keys[..i]
      invariant forall id | id in pairs :: pairs[id] == Half(ToolCall(id) in keys[..i], ToolResult(id) in keys[..i])
    {
      assert keys[..i + 1] == keys[..i] + [keys[i]];
      match keys[i] {
        case ToolCall(id) =>
          pairs := pairs[id := (if id in pairs then pairs[id] else Half(false, false)).(call := true)];
        case ToolResult(id) =>
          pairs := pairs[id := (if id in pairs then pairs[id] else Half(false, false)).(result := true)];
        case OtherKey(_) =>
      }
    }
    assert keys[..|keys|] == keys;
    assert forall id :: id in pairs <==> id in Ids(Elements(keys)) by { HalvesAreIds(keys, pairs.Keys); }
    if exists id | id in pairs :: !pairs[id].call || !pairs[id].result {
      return None;
    }
    return Some(set id | id in pairs :: PairIdOf(hash, id));
  }

  lemma HalvesAreIds(keys: seq<Key>, ids: set<Id>)
    requires forall id :: id in ids <==> ToolCall(id) in keys || ToolResult(id) in keys
    ensures ids == Ids(Elements(keys))
  {
    forall id | id in ids ensures id in Ids(Elements(keys)) {
      var k := if ToolCall(id) in keys then ToolCall(id) else ToolResult(id);
      assert k in Elements(keys);
    }
  }

  // ----- observations ----------------------------------------------------

  /** The plan of a leg, and per call ordinal the counts read off its decisions and the reported unknowns. */
  datatype LegPlan = LegPlan(pairId: Id, counts: nat -> Counts, unknownsFor: nat -> Unknowns)

  /** Rehydrations, protected removals and contract conflicts of a call. */
  datatype Counts = Counts(rehydrated: nat, protectedRemovals: nat, conflicts: nat)

  datatype Observation = Observation(
    experimentPairId: Id,
    callOrdinal: nat,
    preHash: string,
    postHash: string,
    eligible: set<PairId>,
    selected: set<PairId>,
    removed: set<PairId>,
    removedKeys: set<Key>,
    newRemovals: set<PairId>,
    carried: set<PairId>,
    suppressed: set<PairId>,
    pairExposures: nat,
    keyExposures: nat,
    tokensBefore: Option<nat>,
    tokensAfter: Option<nat>,
    removedBytes: Option<nat>,
    removedTokens: Option<nat>,
    activeStale: Option<nat>,
    counts: Counts,
    unknowns: Unknowns,
    contextChanged: bool)

  /** No subset, disjointness or two-keys-per-pair issue. */
  predicate PairsConsistent(o: Observation) {
    && o.selected <= o.eligible && o.removed <= o.selected
    && o.newRemovals <= o.removed && o.carried <= o.removed && o.suppressed <= o.removed
    && o.newRemovals !! o.carried
    && |o.removedKeys| == 2 * |o.removed|
    && o.keyExposures == 2 * o.pairExposures
    && |o.suppressed| == o.pairExposures
  }

  predicate HexUnit(c: char) { '0' <= c <= '9' || 'a' <= c <= 'f' || 'A' <= c <= 'F' }

  /** A SHA-256 hash in hexadecimal. */
  predicate Hash64(s: string) { |s| == 64 && forall i | 0 <= i < |s| :: HexUnit(s[i]) }

  predicate Named(keys: set<Key>) { forall k | k in keys :: k.OtherKey? ==> k.name != "" }

  /** The field formats of the schema: hashes, a positive ordinal, no empty id, key or reason, proper counts. */
  predicate Formatted(o: Observation) {
    && o.experimentPairId != "" && o.callOrdinal >= 1 && Hash64(o.preHash) && Hash64(o.postHash)
    && Named(o.removedKeys)
    && "" !in o.eligible && "" !in o.selected && "" !in o.removed
    && "" !in o.newRemovals && "" !in o.carried && "" !in o.suppressed
    && WellFormed(o.unknowns)
  }

  predicate ValidObservation(o: Observation) {
    Formatted(o) && PairsConsistent(o) && o.contextChanged == (o.preHash != o.postHash)
  }

  function RemovedKeys(row: Receipt): (r: set<Key>) { Elements(row.removed) + row.carried }

  function RemovedPairs(hash: string -> string, row: Receipt): (r: set<PairId>) { PairIds(hash, Ids(RemovedKeys(row))) }

  /** The pairs removed by any of the rows. */
  function Seen(hash: string -> string, rows: seq<Receipt>): (r: set<PairId>) {
    if rows == [] then {} else Seen(hash, rows[..|rows| - 1]) + RemovedPairs(hash, rows[|rows| - 1])
  }

  /** The observation of a row, given the pairs already seen; the hashes are present. */
  function Observe(hash: string -> string, plan: LegPlan, seen: set<PairId>, row: Receipt): (o: Observation)
    requires row.preHash.Some? && row.postHash.Some?
  {
    var removed, keys := RemovedPairs(hash, row), RemovedKeys(row);
    Observation(plan.pairId, row.callOrdinal, row.preHash.value, row.postHash.value, removed, removed, removed, keys,
                removed - seen, PairIds(hash, Ids(row.carried)), removed, |removed|, |keys|,
                None, None, None, None, Some(|removed|),
                plan.counts(row.callOrdinal), plan.unknownsFor(row.callOrdinal), row.contextChanged)
  }

  /** The projection of one row; `None` is a thrown error. */
  function ProjectRow(hash: string -> string, plan: LegPlan, seen: set<PairId>, row: Receipt)
    : (r: Option<Observation>)
  {
    if !Paired(RemovedKeys(row)) || !Paired(row.carried) || row.preHash.None? || row.postHash.None? then None
    else
      var o := Observe(hash, plan, seen, row);
      if ValidObservation(o) then Some(o) else None
  }

  function Project(hash: string -> string, plan: LegPlan, rows: seq<Receipt>): (r: Option<seq<Observation>>) {
    if rows == [] then Some([])
    else
      var n := |rows| - 1;
      var front :- Project(hash, plan, rows[..n]);
      var o :- ProjectRow(hash, plan, Seen(hash, rows[..n]), rows[n]);
      Some(front + [o])
  }

  lemma {:induction false} ProjectPrefix(hash: string -> string, plan: LegPlan, rows: seq<Receipt>, i: nat)
    requires i <= |rows| && Project(hash, plan, rows[..i]).None?
    ensures Project(hash, plan, rows).None?
  {
    if i == |rows| {
      assert rows[..i] == rows;
    } else {
      var front := rows[..|rows| - 1];
      assert front[..i] == rows[..i];
      ProjectPrefix(hash, plan, front, i);
      assert Project(hash, plan, front).None?;
    }
  }

  lemma ProjectStep(hash: string -> string, plan: LegPlan, rows: seq<Receipt>, i: nat)
    requires i < |rows|
    ensures Seen(hash, rows[..i + 1]) == Seen(hash, rows[..i]) + RemovedPairs(hash, rows[i])
    ensures Project(hash, plan, rows[..i]).Some? ==>
              Project(hash, plan, rows[..i + 1]) ==
              (match ProjectRow(hash, plan, Seen(hash, rows[..i]), rows[i])
               case None => None
               case Some(o) => Some(Project(hash, plan, rows[..i]).value + [o]))
  {
    assert rows[..i + 1][..i] == rows[..i];
  }

  lemma NewRemovals(hash: string -> string, plan: LegPlan, seen: set<PairId>, row: Receipt)
    requires ProjectRow(hash, plan, seen, row).Some?
    ensures seen + ProjectRow(hash, plan, seen, row).value.newRemovals == seen + RemovedPairs(hash, row)
  {}

  /** `projectC1E0LiveDose`: the loop keeps the removals already seen. */
  method ProjectDose(hash: string -> string, plan: LegPlan, rows: seq<Receipt>) returns (r: Option<seq<Observation>>)
    ensures r == Project(hash, plan, rows)
  {
    var seen: set<PairId>, out: seq<Observation> := {}, [];
    for i := 0 to |rows|
      invariant seen == Seen(hash, rows[..i])
      invariant Project(hash, plan, rows[..i]) == Some(out)
    {
      ProjectStep(hash, plan, rows, i);
      var o := ProjectRow(hash, plan, seen, rows[i]);
      if o.None? {
        ProjectPrefix(hash, plan, rows, i + 1);
        return None;
      }
      NewRemovals(hash, plan, seen, rows[i]);
      seen := seen + o.value.newRemovals;
      out := out + [o.value];
    }
    assert rows[..|rows|] == rows;
    return Some(out);
  }

  // ----- cardinalities of pure pairs -------------------------------------

  lemma {:induction false} CallKeys(ids: set<Id>)
    ensures |set id | id in ids :: ToolCall(id)| == |ids|
  {
    if ids != {} {
      var x :| x in ids;
      CallKeys(ids - {x});
      assert (set id | id in ids :: ToolCall(id)) == (set id | id in ids - {x} :: ToolCall(id)) + {ToolCall(x)};
    }
  }

  lemma {:induction false} ResultKeys(ids: set<Id>)
    ensures |set id | id in ids :: ToolResult(id)| == |ids|
  {
    if ids != {} {
      var x :| x in ids;
      ResultKeys(ids - {x});
      assert (set id | id in ids :: ToolResult(id)) == (set id | id in ids - {x} :: ToolResult(id)) + {ToolResult(x)};
    }
  }

  lemma PairKeysCard(ids: set<Id>)
    ensures |PairKeys(ids)| == 2 * |ids|
  {
    CallKeys(ids);
    ResultKeys(ids);
  }

  lemma {:induction false} PairIdsCard(hash: string -> string, ids: set<Id>)
    requires Injective(hash)
    ensures |PairIds(hash, ids)| == |ids|
  {
    if ids != {} {
      var x :| x in ids;
      PairIdsCard(hash, ids - {x});
      forall id | id in ids - {x} ensures PairIdOf(hash, id) != PairIdOf(hash, x) {
        if PairIdOf(hash, id) == PairIdOf(hash, x) { PairIdInjective(hash, id, x); }
      }
      assert PairIds(hash, ids) == PairIds(hash, ids - {x}) + {PairIdOf(hash, x)};
    }
  }

  lemma PairedKeys(keys: set<Key>)
    requires Paired(keys)
    ensures keys == PairKeys(Ids(keys)) + set k | k in keys && k.OtherKey?
  {}

  /** Two keys per removed pair, exactly when nothing but pairs is removed. */
  lemma TwoKeysPerPair(hash: string -> string, keys: set<Key>)
    requires Injective(hash) && Paired(keys)
    ensures |keys| == 2 * |PairIds(hash, Ids(keys))| <==> PurePairs(keys)
  {
    var others := set k | k in keys && k.OtherKey?;
    PairedKeys(keys);
    PairKeysCard(Ids(keys));
    PairIdsCard(hash, Ids(keys));
    assert PairKeys(Ids(keys)) !! others;
    assert |keys| == |PairKeys(Ids(keys))| + |others|;
    if |others| == 0 {
      assert others == {};
      assert forall k | k in keys :: !k.OtherKey?;
    } else {
      var k :| k in others;
    }
  }

  // ----- the carry feeds the dose ----------------------------------------

  lemma SeenAppend(hash: string -> string, rows: seq<Receipt>, row: Receipt)
    ensures Seen(hash, rows + [row]) == Seen(hash, rows) + RemovedPairs(hash, row)
  {
    assert (rows + [row])[..|rows|] == rows;
  }

  /** Whatever the driver carries was removed by an earlier row of the leg. */
  lemma {:induction false} CarrySeen(hash: string -> string, rows: seq<Receipt>, id: Id)
    requires id in CarryAfter({}, rows)
    ensures PairIdOf(hash, id) in Seen(hash, rows)
  {
    if rows != [] {
      var n := |rows| - 1;
      if id in CarryAfter({}, rows[..n]) {
        CarrySeen(hash, rows[..n], id);
      } else {
        assert Evicted(id, rows[n].removed, rows[n].bound);
        assert ToolCall(id) in RemovedKeys(rows[n]);
        assert id in Ids(RemovedKeys(rows[n]));
      }
    }
  }

  lemma CarriedSeen(hash: string -> string, before: seq<Receipt>, row: Receipt)
    requires CarriedFrom(row.carried, CarryAfter({}, before))
    ensures PairIds(hash, Ids(row.carried)) <= Seen(hash, before)
    ensures PairIds(hash, Ids(row.carried)) <= RemovedPairs(hash, row)
  {
    forall p | p in PairIds(hash, Ids(row.carried)) ensures p in Seen(hash, before) && p in RemovedPairs(hash, row) {
      var id :| id in Ids(row.carried) && p == PairIdOf(hash, id);
      var k :| k in row.carried && !k.OtherKey? && k.id == id;
      CarrySeen(hash, before, id);
      assert k in RemovedKeys(row);
    }
  }

  predicate HashesPresent(row: Receipt) { row.preHash.Some? && row.postHash.Some? }

  /** Nothing but pairs removed, proper hashes and unknowns, and the change flag says what the hashes say. */
  predicate RowClean(plan: LegPlan, row: Receipt) {
    && HashesPresent(row) && Hash64(row.preHash.value) && Hash64(row.postHash.value)
    && WellFormed(plan.unknownsFor(row.callOrdinal))
    && row.contextChanged == (row.preHash != row.postHash) && PurePairs(RemovedKeys(row))
  }

  lemma PairIdsNonEmpty(hash: string -> string, ids: set<Id>)
    ensures "" !in PairIds(hash, ids)
  {}

  lemma RowFormatted(hash: string -> string, plan: LegPlan, seen: set<PairId>, row: Receipt)
    requires HashesPresent(row) && row.callOrdinal >= 1 && PurePairs(RemovedKeys(row))
    ensures Formatted(Observe(hash, plan, seen, row)) <==>
            && plan.pairId != "" && Hash64(row.preHash.value) && Hash64(row.postHash.value)
            && WellFormed(plan.unknownsFor(row.callOrdinal))
  {
    PairIdsNonEmpty(hash, Ids(RemovedKeys(row)));
    PairIdsNonEmpty(hash, Ids(row.carried));
  }

  /** A row of a leg is consistent exactly when it removes nothing but whole pairs. */
  lemma RowConsistent(hash: string -> string, plan: LegPlan, before: seq<Receipt>, row: Receipt)
    requires Injective(hash) && HashesPresent(row)
    requires CarriedFrom(row.carried, CarryAfter({}, before)) && Paired(RemovedKeys(row))
    ensures PairsConsistent(Observe(hash, plan, Seen(hash, before), row)) <==> PurePairs(RemovedKeys(row))
  {
    CarriedSeen(hash, before, row);
    TwoKeysPerPair(hash, RemovedKeys(row));
  }

  lemma RowAccepted(hash: string -> string, plan: LegPlan, before: seq<Receipt>, row: Receipt)
    requires Injective(hash) && CarriedFrom(row.carried, CarryAfter({}, before)) && row.callOrdinal >= 1
    ensures ProjectRow(hash, plan, Seen(hash, before), row).Some? <==> plan.pairId != "" && RowClean(plan, row)
  {
    if HashesPresent(row) && Paired(RemovedKeys(row)) {
      RowConsistent(hash, plan, before, row);
      if PurePairs(RemovedKeys(row)) { RowFormatted(hash, plan, Seen(hash, before), row); }
    }
  }

  ghost predicate AllClean(plan: LegPlan, rows: seq<Receipt>) { forall row | row in rows :: RowClean(plan, row) }

  lemma AllCleanAppend(plan: LegPlan, rows: seq<Receipt>, row: Receipt)
    ensures AllClean(plan, rows + [row]) <==> AllClean(plan, rows) && RowClean(plan, row)
  {
    assert forall x :: x in rows + [row] <==> x in rows || x == row;
  }

  /**
   For every leg run without initial carried removals: the projection accepts the
   rows exactly when the pair id is not empty and each row removes nothing but
   whole pairs, has proper hashes that agree with its change flag and well-formed
   unknowns. Subset and disjointness never reject.
   */
  lemma {:induction false} ProjectionAccepts(hash: string -> string, plan: LegPlan, rows: seq<Receipt>)
    requires Injective(hash) && CarryRun({}, rows)
    ensures Project(hash, plan, rows).Some? <==> rows == [] || (plan.pairId != "" && AllClean(plan, rows))
  {
    if rows != [] {
      var n := |rows| - 1;
      ProjectionAccepts(hash, plan, rows[..n]);
      RowAccepted(hash, plan, rows[..n], rows[n]);
      FrontLast(rows);
      AllCleanAppend(plan, rows[..n], rows[n]);
    }
  }

  // ----- aggregation -----------------------------------------------------

  datatype Summary = Summary(
    experimentPairId: Id,
    outboundCalls: nat,
    changedCalls: nat,
    eligible: set<PairId>,
    selected: set<PairId>,
    removed: set<PairId>,
    removedKeys: set<Key>,
    newRemovalCalls: nat,
    carriedRemovalCalls: nat,
    pairExposures: nat,
    keyExposures: nat,
    exposureRatio: real,
    tokensBefore: Option<nat>,
    tokensAfter: Option<nat>,
    removedBytes: Option<nat>,
    removedTokens: Option<nat>,
    removedTokenRatio: Option<real>,
    activeStalePeak: Option<nat>,
    counts: Counts,
    unknowns: Merged)

  predicate RatiosFormatted(s: Summary) {
    0.0 <= s.exposureRatio <= 1.0 && (s.removedTokenRatio.Some? ==> s.removedTokenRatio.value >= 0.0)
  }

  /** The field formats of the summary schema, except for the merged unknowns. */
  predicate SummaryFormatted(s: Summary) {
    && s.experimentPairId != "" && "" !in s.eligible && "" !in s.selected && "" !in s.removed
    && Named(s.removedKeys) && RatiosFormatted(s)
  }

  predicate ValidSummary(s: Summary) {
    && SummaryFormatted(s) && MergedWellFormed(s.unknowns) && SizesOrdered(s)
    && |s.removedKeys| == 2 * |s.removed|
  }

  predicate SizesOrdered(s: Summary) {
    |s.removed| <= |s.selected| <= |s.eligible| && s.keyExposures == 2 * s.pairExposures
  }

  predicate ByOrdinal(a: Observation, b: Observation) { a.callOrdinal <= b.callOrdinal }

  predicate DistinctNeighbours(rows: seq<Observation>) {
    forall i | 1 <= i < |rows| :: rows[i].callOrdinal != rows[i - 1].callOrdinal
  }

  /** New removals are new, carried ones are known; yields all first removals. */
  function FirstRemovals(known: set<PairId>, rows: seq<Observation>): (r: Option<set<PairId>>)
    decreases |rows|
  {
    if rows == [] then Some(known)
    else if !(rows[0].newRemovals !! known) then None
    else if !(rows[0].carried <= known + rows[0].newRemovals) then None
    else FirstRemovals(known + rows[0].newRemovals, rows[1..])
  }

  function Union<T>(rows: seq<Observation>, f: Observation -> set<T>): (r: set<T>) {
    if rows == [] then {} else Union(rows[..|rows| - 1], f) + f(rows[|rows| - 1])
  }

  function Eligible(): Observation -> set<PairId> { (o: Observation) => o.eligible }
  function Selected(): Observation -> set<PairId> { (o: Observation) => o.selected }
  function Removed(): Observation -> set<PairId> { (o: Observation) => o.removed }
  function Keys(): Observation -> set<Key> { (o: Observation) => o.removedKeys }
  function NewCount(): Observation -> nat { (o: Observation) => |o.newRemovals| }
  function CarriedCount(): Observation -> nat { (o: Observation) => |o.carried| }
  function PairExposures(): Observation -> nat { (o: Observation) => o.pairExposures }
  function KeyExposures(): Observation -> nat { (o: Observation) => o.keyExposures }
  function Changed(): Observation -> nat { (o: Observation) => if o.contextChanged then 1 else 0 }
  function TokensBefore(): Observation -> Option<nat> { (o: Observation) => o.tokensBefore }
  function TokensAfter(): Observation -> Option<nat> { (o: Observation) => o.tokensAfter }
  function RemovedBytes(): Observation -> Option<nat> { (o: Observation) => o.removedBytes }
  function RemovedTokens(): Observation -> Option<nat> { (o: Observation) => o.removedTokens }
  function ActiveStale(): Observation -> Option<nat> { (o: Observation) => o.activeStale }
  function Rehydrated(): Observation -> nat { (o: Observation) => o.counts.rehydrated }
  function Protected(): Observation -> nat { (o: Observation) => o.counts.protectedRemovals }
  function Conflicts(): Observation -> nat { (o: Observation) => o.counts.conflicts }
  function UnknownsOf(): Observation -> Unknowns { (o: Observation) => o.unknowns }

  /** `sumMeasurable`: unavailable as soon as one value is. */
  function SumMeasurable(values: seq<Option<nat>>): (r: Option<nat>) {
    if exists v | v in values :: v.None? then None
    else Some(Sum(values, (v: Option<nat>) => if v.Some? then v.value else 0))
  }

  function Largest(values: seq<Option<nat>>): (r: nat) {
    if values == [] then 0
    else
      var rest := Largest(values[1..]);
      if values[0].Some? && values[0].value > rest then values[0].value else rest
  }

  /** `maxMeasurable` */
  function MaxMeasurable(values: seq<Option<nat>>): (r: Option<nat>) {
    if values == [] || exists v | v in values :: v.None? then None else Some(Largest(values))
  }

  lemma {:induction false} LargestBounds(values: seq<Option<nat>>)
    ensures forall n: nat | Some(n) in values :: n <= Largest(values)
    ensures Largest(values) == 0 || Some(Largest(values)) in values
  {
    if values != [] {
      LargestBounds(values[1..]);
      assert values == [values[0]] + values[1..];
    }
  }

  /** The peak is one of the values and none is above it; it exists exactly when all values do. */
  lemma PeakIsLargest(values: seq<Option<nat>>)
    ensures MaxMeasurable(values).Some? <==> values != [] && None !in values
    ensures MaxMeasurable(values).Some? ==> MaxMeasurable(values) in values
    ensures MaxMeasurable(values).Some? ==> forall n: nat | Some(n) in values :: n <= MaxMeasurable(values).value
  {
    LargestBounds(values);
    if values != [] && Largest(values) == 0 { assert values[0] in values; }
  }

  function TokenRatio(removed: Option<nat>, before: Option<nat>): (r: Option<real>) {
    if removed.Some? && before.Some? && before.value > 0 then Some(removed.value as real / before.value as real)
    else None
  }

  function Summarize(rows: seq<Observation>): (s: Summary)
    requires rows != []
  {
    Summary(rows[0].experimentPairId, |rows|, Sum(rows, Changed()),
            Union(rows, Eligible()), Union(rows, Selected()), Union(rows, Removed()), Union(rows, Keys()),
            Sum(rows, NewCount()), Sum(rows, CarriedCount()), Sum(rows, PairExposures()), Sum(rows, KeyExposures()),
            Sum(rows, Changed()) as real / |rows| as real,
            SumMeasurable(Sorting.Map(rows, TokensBefore())), SumMeasurable(Sorting.Map(rows, TokensAfter())),
            SumMeasurable(Sorting.Map(rows, RemovedBytes())), SumMeasurable(Sorting.Map(rows, RemovedTokens())),
            TokenRatio(SumMeasurable(Sorting.Map(rows, RemovedTokens())),
                       SumMeasurable(Sorting.Map(rows, TokensBefore()))),
            MaxMeasurable(Sorting.Map(rows, ActiveStale())),
            Counts(Sum(rows, Rehydrated()), Sum(rows, Protected()), Sum(rows, Conflicts())),
            Merge(Sorting.Map(rows, UnknownsOf())))
  }

  ghost predicate OnePair(rows: seq<Observation>) {
    forall a, b | a in rows && b in rows :: a.experimentPairId == b.experimentPairId
  }

  ghost predicate AllValid(rows: seq<Observation>) { forall o | o in rows :: ValidObservation(o) }

  /** The observations that `aggregateC1E0Dose` accepts. */
  ghost predicate Aggregates(observations: seq<Observation>) {
    var rows := Sorting.Sort(observations, ByOrdinal);
    observations != [] && AllValid(observations) && rows != [] && RowsAggregate(rows)
  }

  /** The checks on the sorted rows. */
  ghost predicate RowsAggregate(rows: seq<Observation>)
    requires rows != []
  {
    && DistinctNeighbours(rows) && OnePair(rows)
    && FirstRemovals({}, rows).Some? && ValidSummary(Summarize(rows))
  }

  /** The first-removal loop. */
  method CheckFirstRemovals(rows: seq<Observation>) returns (r: Option<set<PairId>>)
    ensures r == FirstRemovals({}, rows)
  {
    var known: set<PairId> := {};
    for i := 0 to |rows|
      invariant FirstRemovals(known, rows[i..]) == FirstRemovals({}, rows)
    {
      assert rows[i..][1..] == rows[i + 1..];
      if !(rows[i].newRemovals !! known) { return None; }
      known := known + rows[i].newRemovals;
      if !(rows[i].carried <= known) { return None; }
    }
    return Some(known);
  }

  method CheckOrdinals(rows: seq<Observation>) returns (distinct: bool)
    ensures distinct <==> DistinctNeighbours(rows)
  {
    var i := 1;
    while i < |rows|
      invariant forall j | 1 <= j < i && j < |rows| :: rows[j].callOrdinal != rows[j - 1].callOrdinal
    {
      if rows[i].callOrdinal == rows[i - 1].callOrdinal { return false; }
      i := i + 1;
    }
    return true;
  }

  method CheckOnePair(rows: seq<Observation>) returns (one: bool)
    requires rows != []
    ensures one <==> OnePair(rows)
  {
    assert rows[0] in rows;
    return forall o | o in rows :: o.experimentPairId == rows[0].experimentPairId;
  }

  /** The summary as the code builds it, with the merge loop. */
  method SumUp(rows: seq<Observation>) returns (s: Summary)
    requires rows != []
    ensures s == Summarize(rows)
  {
    var unknowns := MergeUnknowns(Sorting.Map(rows, UnknownsOf()));
    return Summarize(rows).(unknowns := unknowns);
  }

  /** `aggregateC1E0Dose` */
  method AggregateDose(observations: seq<Observation>) returns (r: Option<Summary>)
    ensures r.Some? <==> Aggregates(observations)
    ensures r.Some? ==> r.value == Summarize(Sorting.Sort(observations, ByOrdinal))
  {
    if observations == [] || exists o | o in observations :: !ValidObservation(o) { return None; }
    var rows := Sorting.Sort(observations, ByOrdinal);
    Sorting.SortSorts(observations, ByOrdinal);
    r := AggregateRows(rows);
  }

  method AggregateRows(rows: seq<Observation>) returns (r: Option<Summary>)
    requires rows != []
    ensures r.Some? <==> RowsAggregate(rows)
    ensures r.Some? ==> r.value == Summarize(rows)
  {
    var distinct := CheckOrdinals(rows);
    if !distinct { return None; }
    var onePair := CheckOnePair(rows);
    if !onePair { return None; }
    var first := CheckFirstRemovals(rows);
    if first.None? { return None; }
    var s := SumUp(rows);
    return if ValidSummary(s) then Some(s) else None;
  }

  // ----- what a summary can fail on --------------------------------------

  ghost predicate AllPlain(rows: seq<Observation>) { forall o | o in rows :: PlainReasons(o.unknowns) }

  lemma {:induction false} UnionMember<T(!new)>(rows: seq<Observation>, f: Observation -> set<T>)
    ensures forall x :: x in Union(rows, f) <==> exists o | o in rows :: x in f(o)
  {
    if rows != [] {
      UnionMember(rows[..|rows| - 1], f);
      FrontLast(rows);
      forall x ensures x in Union(rows, f) <==> exists o | o in rows :: x in f(o) {
        if x in f(rows[|rows| - 1]) { assert rows[|rows| - 1] in rows; }
      }
    }
  }

  lemma UnionWithin<T(!new)>(rows: seq<Observation>, f: Observation -> set<T>, g: Observation -> set<T>)
    requires forall o | o in rows :: f(o) <= g(o)
    ensures |Union(rows, f)| <= |Union(rows, g)|
  {
    UnionMember(rows, f);
    UnionMember(rows, g);
    SubsetCard(Union(rows, f), Union(rows, g));
  }

  lemma SubsetCard<T>(a: set<T>, b: set<T>)
    requires a <= b
    ensures |a| <= |b|
  {
    assert b == a + (b - a);
  }

  lemma {:induction false} ChangedWithin(rows: seq<Observation>)
    ensures Sum(rows, Changed()) <= |rows|
  {
    if rows != [] { ChangedWithin(rows[1..]); }
  }

  lemma {:induction false} ExposuresDouble(rows: seq<Observation>)
    requires AllValid(rows)
    ensures Sum(rows, KeyExposures()) == 2 * Sum(rows, PairExposures())
  {
    if rows != [] {
      assert rows[0] in rows;
      ExposuresDouble(rows[1..]);
    }
  }

  lemma UnknownsAccepted(rows: seq<Observation>)
    requires AllValid(rows)
    ensures MergedWellFormed(Merge(Sorting.Map(rows, UnknownsOf()))) <==> AllPlain(rows)
  {
    var us := Sorting.Map(rows, UnknownsOf());
    forall u | u in us ensures WellFormed(u) {
      var i :| 0 <= i < |us| && us[i] == u;
      assert rows[i] in rows;
    }
    MergeAccepted(us);
    if AllPlain(rows) {
      forall u | u in us ensures PlainReasons(u) {
        var i :| 0 <= i < |us| && us[i] == u;
        assert rows[i] in rows;
      }
    } else {
      var o :| o in rows && !PlainReasons(o.unknowns);
      var i :| 0 <= i < |rows| && rows[i] == o;
      assert us[i] in us;
    }
  }

  lemma UnionLacks(rows: seq<Observation>, f: Observation -> set<PairId>, x: PairId)
    requires forall o | o in rows :: x !in f(o)
    ensures x !in Union(rows, f)
  {
    UnionMember(rows, f);
  }

  lemma UnionNamed(rows: seq<Observation>)
    requires forall o | o in rows :: Named(o.removedKeys)
    ensures Named(Union(rows, Keys()))
  {
    UnionMember(rows, Keys());
  }

  lemma RatioWithin(a: nat, b: nat)
    requires a <= b && b > 0
    ensures 0.0 <= a as real / b as real <= 1.0
  {}

  lemma TokenRatioSign(removed: Option<nat>, before: Option<nat>)
    ensures TokenRatio(removed, before).Some? ==> TokenRatio(removed, before).value >= 0.0
  {}

  lemma RatiosSummed(rows: seq<Observation>)
    requires rows != []
    ensures RatiosFormatted(Summarize(rows))
  {
    ChangedWithin(rows);
    RatioWithin(Sum(rows, Changed()), |rows|);
    TokenRatioSign(Summarize(rows).removedTokens, Summarize(rows).tokensBefore);
  }

  lemma FormatsSummed(rows: seq<Observation>)
    requires rows != [] && AllValid(rows)
    ensures SummaryFormatted(Summarize(rows))
  {
    RatiosSummed(rows);
    assert rows[0] in rows;
    UnionLacks(rows, Eligible(), "");
    UnionLacks(rows, Selected(), "");
    UnionLacks(rows, Removed(), "");
    UnionNamed(rows);
  }

  lemma SizesSummed(rows: seq<Observation>)
    requires rows != [] && AllValid(rows)
    ensures SizesOrdered(Summarize(rows))
  {
    ExposuresDouble(rows);
    UnionWithin(rows, Removed(), Selected());
    UnionWithin(rows, Selected(), Eligible());
  }

  /**
   For valid observations only two checks on the summary can fail: that the
   distinct keys are two per distinct pair, and that the merged counts are numbers.
   The ratios, the set sizes and the doubled exposures never reject.
   */
  lemma SummaryAccepted(rows: seq<Observation>)
    requires rows != [] && AllValid(rows)
    ensures ValidSummary(Summarize(rows)) <==>
            |Union(rows, Keys())| == 2 * |Union(rows, Removed())| && AllPlain(rows)
  {
    FormatsSummed(rows);
    UnknownsAccepted(rows);
    SizesSummed(rows);
    var s := Summarize(rows);
    assert s.unknowns == Merge(Sorting.Map(rows, UnknownsOf()));
    assert ValidSummary(s) <==> MergedWellFormed(s.unknowns) && |s.removedKeys| == 2 * |s.removed|;
  }

  // ----- order of observations -------------------------------------------

  lemma AggregatesSeparates(observations: seq<Observation>)
    requires DistinctNeighbours(Sorting.Sort(observations, ByOrdinal))
    ensures Sorting.Separates(observations, ByOrdinal)
  {
    var rows := Sorting.Sort(observations, ByOrdinal);
    Sorting.SortSorts(observations, ByOrdinal);
    RowsSeparate(rows);
    assert forall a | a in observations :: a in multiset(rows);
  }

  lemma RowsSeparate(rows: seq<Observation>)
    requires Sorting.Sorted(rows, ByOrdinal) && DistinctNeighbours(rows)
    ensures Sorting.Separates(rows, ByOrdinal)
  {
    forall a, b | a in rows && b in rows && a.callOrdinal == b.callOrdinal ensures a == b {
      var i :| 0 <= i < |rows| && rows[i] == a;
      var j :| 0 <= j < |rows| && rows[j] == b;
      if i < j { OrdinalsApart(rows, i, j); } else if j < i { OrdinalsApart(rows, j, i); }
    }
  }

  lemma OrdinalsApart(rows: seq<Observation>, i: nat, j: nat)
    requires Sorting.Sorted(rows, ByOrdinal) && DistinctNeighbours(rows) && i < j < |rows|
    ensures rows[i].callOrdinal < rows[j].callOrdinal
  {
    assert ByOrdinal(rows[i], rows[i + 1]) && rows[i + 1].callOrdinal != rows[i].callOrdinal;
    assert i + 1 == j || ByOrdinal(rows[i + 1], rows[j]);
  }

  /** The aggregate does not depend on the order in which observations are given. */
  lemma AggregatePermutes(a: seq<Observation>, b: seq<Observation>)
    requires multiset(a) == multiset(b) && Aggregates(a)
    ensures Aggregates(b) && Summarize(Sorting.Sort(b, ByOrdinal)) == Summarize(Sorting.Sort(a, ByOrdinal))
  {
    AggregatesSeparates(a);
    Sorting.SortPermutationInvariant(a, b, ByOrdinal);
    forall o | o in b ensures ValidObservation(o) {
      assert o in multiset(a);
    }
    assert a[0] in multiset(b);
  }

  /** A reason named like an inherited property makes the aggregation throw. */
  lemma InheritedReasonRejects(o: Observation)
    requires ValidObservation(o) && "toString" in o.unknowns
    ensures !Aggregates([o])
  {
    var rows := [o];
    Sorting.SortFixes(rows, ByOrdinal);
    assert Inherited("toString") && o in rows;
    SummaryAccepted(rows);
  }

  // ----- the dose of a leg -----------------------------------------------

  /** Each pair is new exactly once, so new-removal calls count the first removals. */
  lemma {:induction false} NewCallsCountPairs(known: set<PairId>, rows: seq<Observation>)
    requires FirstRemovals(known, rows).Some?
    ensures known <= FirstRemovals(known, rows).value
    ensures |FirstRemovals(known, rows).value| == |known| + Sum(rows, NewCount())
    decreases |rows|
  {
    if rows != [] {
      NewCallsCountPairs(known + rows[0].newRemovals, rows[1..]);
    }
  }

  lemma {:induction false} FirstRemovalsAppend(known: set<PairId>, rows: seq<Observation>, o: Observation)
    requires FirstRemovals(known, rows).Some?
    requires o.newRemovals !! FirstRemovals(known, rows).value
    requires o.carried <= FirstRemovals(known, rows).value + o.newRemovals
    ensures FirstRemovals(known, rows + [o]) == Some(FirstRemovals(known, rows).value + o.newRemovals)
    decreases |rows|
  {
    if rows == [] {
      assert ([] + [o])[1..] == [];
    } else {
      assert (rows + [o])[1..] == rows[1..] + [o];
      FirstRemovalsAppend(known + rows[0].newRemovals, rows[1..], o);
    }
  }

  function AllKeys(rows: seq<Receipt>): (r: set<Key>) {
    if rows == [] then {} else AllKeys(rows[..|rows| - 1]) + RemovedKeys(rows[|rows| - 1])
  }

  /** A valid observation of the call with this ordinal. */
  ghost predicate OfCall(plan: LegPlan, o: Observation, ordinal: nat) {
    && ValidObservation(o) && o.callOrdinal == ordinal && o.experimentPairId == plan.pairId
    && o.unknowns == plan.unknownsFor(ordinal)
  }

  ghost predicate InCallOrder(plan: LegPlan, out: seq<Observation>) {
    forall i | 0 <= i < |out| :: OfCall(plan, out[i], i + 1)
  }

  lemma InCallOrderAppend(plan: LegPlan, out: seq<Observation>, o: Observation)
    requires InCallOrder(plan, out) && OfCall(plan, o, |out| + 1)
    ensures InCallOrder(plan, out + [o])
  {}

  /** What the aggregation needs of a projected leg, row by row. */
  ghost predicate Projected(hash: string -> string, plan: LegPlan, rows: seq<Receipt>, out: seq<Observation>) {
    && |out| == |rows|
    && InCallOrder(plan, out)
    && FirstRemovals({}, out) == Some(Seen(hash, rows))
  }

  ghost predicate Unions(hash: string -> string, rows: seq<Receipt>, out: seq<Observation>) {
    && Union(out, Eligible()) == Union(out, Selected()) == Union(out, Removed()) == Seen(hash, rows)
    && Union(out, Keys()) == AllKeys(rows)
  }

  lemma UnionAppend<T>(rows: seq<Observation>, o: Observation, f: Observation -> set<T>)
    ensures Union(rows + [o], f) == Union(rows, f) + f(o)
  {
    assert (rows + [o])[..|rows|] == rows;
  }

  /** What a projected row says about the row and the pairs seen before it. */
  ghost predicate RowOf(hash: string -> string, plan: LegPlan, seen: set<PairId>, row: Receipt, o: Observation) {
    && o.callOrdinal == row.callOrdinal && o.experimentPairId == plan.pairId && ValidObservation(o)
    && o.unknowns == plan.unknownsFor(row.callOrdinal)
    && o.newRemovals == RemovedPairs(hash, row) - seen
    && o.carried == PairIds(hash, Ids(row.carried))
    && o.eligible == o.selected == o.removed == RemovedPairs(hash, row) && o.removedKeys == RemovedKeys(row)
    && o.keyExposures == 2 * o.pairExposures
  }

  lemma ProjectRowOf(hash: string -> string, plan: LegPlan, seen: set<PairId>, row: Receipt)
    requires ProjectRow(hash, plan, seen, row).Some?
    ensures RowOf(hash, plan, seen, row, ProjectRow(hash, plan, seen, row).value)
  {}

  lemma FirstStep(hash: string -> string, plan: LegPlan, before: seq<Receipt>, row: Receipt, out: seq<Observation>,
      o: Observation)
    requires FirstRemovals({}, out) == Some(Seen(hash, before))
    requires CarriedFrom(row.carried, CarryAfter({}, before)) && RowOf(hash, plan, Seen(hash, before), row, o)
    ensures FirstRemovals({}, out + [o]) == Some(Seen(hash, before + [row]))
  {
    CarriedSeen(hash, before, row);
    FirstRemovalsAppend({}, out, o);
    SeenGrows(hash, before, row, o.newRemovals);
  }

  lemma SeenGrows(hash: string -> string, before: seq<Receipt>, row: Receipt, fresh': set<PairId>)
    requires fresh' == RemovedPairs(hash, row) - Seen(hash, before)
    ensures Seen(hash, before) + fresh' == Seen(hash, before + [row])
  {
    SeenAppend(hash, before, row);
  }

  lemma ProjectedStep(hash: string -> string, plan: LegPlan, before: seq<Receipt>, row: Receipt, out: seq<Observation>,
      o: Observation)
    requires Projected(hash, plan, before, out) && OfCall(plan, o, |before| + 1)
    requires FirstRemovals({}, out + [o]) == Some(Seen(hash, before + [row]))
    ensures Projected(hash, plan, before + [row], out + [o])
  {
    InCallOrderAppend(plan, out, o);
  }

  lemma RowOfCall(hash: string -> string, plan: LegPlan, seen: set<PairId>, row: Receipt, o: Observation)
    requires RowOf(hash, plan, seen, row, o)
    ensures OfCall(plan, o, row.callOrdinal)
  {}

  lemma UnionsStep(hash: string -> string, plan: LegPlan, before: seq<Receipt>, row: Receipt, out: seq<Observation>,
      o: Observation)
    requires Unions(hash, before, out) && RowOf(hash, plan, Seen(hash, before), row, o)
    ensures Unions(hash, before + [row], out + [o])
  {
    UnionAppend(out, o, Eligible());
    UnionAppend(out, o, Selected());
    UnionAppend(out, o, Removed());
    UnionAppend(out, o, Keys());
    SeenAppend(hash, before, row);
    assert (before + [row])[..|before|] == before;
  }

  lemma ProjectLast(hash: string -> string, plan: LegPlan, before: seq<Receipt>, row: Receipt)
    requires Project(hash, plan, before + [row]).Some?
    ensures Project(hash, plan, before).Some? && ProjectRow(hash, plan, Seen(hash, before), row).Some?
    ensures Project(hash, plan, before + [row]).value ==
            Project(hash, plan, before).value + [ProjectRow(hash, plan, Seen(hash, before), row).value]
  {
    assert (before + [row])[..|before|] == before;
  }

  lemma NothingProjected(hash: string -> string, plan: LegPlan)
    ensures Projected(hash, plan, [], []) && Unions(hash, [], [])
  {}

  lemma LegStep(hash: string -> string, plan: LegPlan, before: seq<Receipt>, row: Receipt, out: seq<Observation>)
    requires Projected(hash, plan, before, out) && Unions(hash, before, out) && row.callOrdinal == |before| + 1
    requires CarriedFrom(row.carried, CarryAfter({}, before))
    requires Project(hash, plan, before + [row]).Some? && Project(hash, plan, before) == Some(out)
    ensures Projected(hash, plan, before + [row], Project(hash, plan, before + [row]).value)
    ensures Unions(hash, before + [row], Project(hash, plan, before + [row]).value)
  {
    ProjectLast(hash, plan, before, row);
    ProjectRowOf(hash, plan, Seen(hash, before), row);
    var o := ProjectRow(hash, plan, Seen(hash, before), row).value;
    FirstStep(hash, plan, before, row, out, o);
    RowOfCall(hash, plan, Seen(hash, before), row, o);
    ProjectedStep(hash, plan, before, row, out, o);
    UnionsStep(hash, plan, before, row, out, o);
  }

  lemma CarryRunLast(before: seq<Receipt>, row: Receipt)
    requires CarryRun({}, before + [row])
    ensures CarryRun({}, before) && CarriedFrom(row.carried, CarryAfter({}, before)) && row.callOrdinal == |before| + 1
  {
    assert (before + [row])[..|before|] == before;
  }

  lemma {:induction false} LegProjected(hash: string -> string, plan: LegPlan, rows: seq<Receipt>)
    requires CarryRun({}, rows) && Project(hash, plan, rows).Some?
    ensures Projected(hash, plan, rows, Project(hash, plan, rows).value)
    ensures Unions(hash, rows, Project(hash, plan, rows).value)
  {
    if rows == [] {
      NothingProjected(hash, plan);
    } else {
      var before, row := rows[..|rows| - 1], rows[|rows| - 1];
      FrontLast(rows);
      CarryRunLast(before, row);
      ProjectLast(hash, plan, before, row);
      LegProjected(hash, plan, before);
      LegStep(hash, plan, before, row, Project(hash, plan, before).value);
    }
  }

  /** All keys removed in a leg are whole pairs when each row's are. */
  lemma {:induction false} KeysPaired(hash: string -> string, plan: LegPlan, rows: seq<Receipt>)
    requires AllClean(plan, rows)
    ensures PurePairs(AllKeys(rows)) && Seen(hash, rows) == PairIds(hash, Ids(AllKeys(rows)))
  {
    if rows != [] {
      var n := |rows| - 1;
      KeysPaired(hash, plan, rows[..n]);
      assert rows == rows[..n] + [rows[n]];
      AllCleanAppend(plan, rows[..n], rows[n]);
      assert Ids(AllKeys(rows)) == Ids(AllKeys(rows[..n])) + Ids(RemovedKeys(rows[n]));
    }
  }

  lemma ProjectedSorted(hash: string -> string, plan: LegPlan, rows: seq<Receipt>, out: seq<Observation>)
    requires Projected(hash, plan, rows, out)
    ensures Sorting.Sort(out, ByOrdinal) == out && DistinctNeighbours(out)
  {
    Sorting.SortFixes(out, ByOrdinal);
  }

  /** No unknown of the leg's calls is named like an inherited property. */
  predicate PlainPlan(plan: LegPlan, calls: nat) { forall i | 1 <= i <= calls :: PlainReasons(plan.unknownsFor(i)) }

  lemma PlainProjected(hash: string -> string, plan: LegPlan, rows: seq<Receipt>, out: seq<Observation>)
    requires Projected(hash, plan, rows, out)
    ensures AllPlain(out) <==> PlainPlan(plan, |rows|)
  {
    if AllPlain(out) {
      forall i | 1 <= i <= |rows| ensures PlainReasons(plan.unknownsFor(i)) {
        assert out[i - 1] in out;
      }
    }
  }

  lemma ProjectedAggregates(hash: string -> string, plan: LegPlan, rows: seq<Receipt>, out: seq<Observation>)
    requires rows != [] && Projected(hash, plan, rows, out)
    requires |Union(out, Keys())| == 2 * |Union(out, Removed())|
    ensures Aggregates(out) <==> PlainPlan(plan, |rows|)
  {
    ProjectedSorted(hash, plan, rows, out);
    PlainProjected(hash, plan, rows, out);
    SummaryAccepted(out);
  }

  /**
   The dose of a leg with no initial carried removals: when the projection accepts
   its rows, the aggregation accepts the result exactly when no unknown reason is
   an inherited name, and each removed pair is counted as a new removal once.
   */
  lemma LegDose(hash: string -> string, plan: LegPlan, rows: seq<Receipt>)
    requires Injective(hash) && CarryRun({}, rows) && rows != [] && plan.pairId != "" && AllClean(plan, rows)
    ensures Project(hash, plan, rows).Some?
    ensures var out := Project(hash, plan, rows).value;
            && out != [] && Sorting.Sort(out, ByOrdinal) == out
            && (Aggregates(out) <==> PlainPlan(plan, |rows|))
            && Union(out, Removed()) == Seen(hash, rows)
            && Sum(out, NewCount()) == |Union(out, Removed())|
  {
    ProjectionAccepts(hash, plan, rows);
    LegProjected(hash, plan, rows);
    var out := Project(hash, plan, rows).value;
    ProjectedSorted(hash, plan, rows, out);
    NewCallsCountPairs({}, out);
    KeysPaired(hash, plan, rows);
    TwoKeysPerPair(hash, AllKeys(rows));
    ProjectedAggregates(hash, plan, rows, out);
  }
}
