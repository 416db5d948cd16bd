/**
 Carried removals: the fingerprint of a tool pair in a conversation, and the basis
 of the next composition, which drops the carried pairs that were not restored.
 The hash of a list of messages is a parameter.
 */
module CarriedRemovals {
  import opened Wrappers
  import opened LiveLog
  import opened LiveDriver
  import opened DuplicateRead
  import opened Filters

  // ----- the fingerprint of a pair ---------------------------------------

  /** Tool-call blocks with this id that the fingerprint sees in a message. */
  function CallsIn(m: Message, id: Id): (n: nat) {
    if IsResultOf(m, id) || m.role != "assistant" || !m.content.Array? then 0 else BlockCount(Blocks(m.content), id)
  }

  predicate IsResultOf(m: Message, id: Id) { m.role == "toolResult" && m.toolCallId == Some(id) }

  /** The message belongs to the pair. */
  predicate Mentions(m: Message, id: Id) { IsResultOf(m, id) || CallsIn(m, id) > 0 }

  function OfPair(id: Id): Message -> Option<Message> { (m: Message) => if Mentions(m, id) then Some(m) else None }

  function Calls(ms: seq<Message>, id: Id): (n: nat) {
    if ms == [] then 0 else Calls(ms[..|ms| - 1], id) + CallsIn(ms[|ms| - 1], id)
  }

  function Results(ms: seq<Message>, id: Id): (n: nat) {
    if ms == [] then 0 else Results(ms[..|ms| - 1], id) + (if IsResultOf(ms[|ms| - 1], id) then 1 else 0)
  }

  type MessagesHash = seq<Message> -> string

  /** The hash of the pair's messages; `None` unless there is one call and one result. */
  function Fingerprint(hash: MessagesHash, ms: seq<Message>, id: Id): (r: Option<string>) {
    if Calls(ms, id) == 1 && Results(ms, id) == 1 then Some(hash(FilterMap(ms, OfPair(id)))) else None
  }

  lemma CountStep(ms: seq<Message>, id: Id, i: nat)
    requires i < |ms|
    ensures Calls(ms[..i + 1], id) == Calls(ms[..i], id) + CallsIn(ms[i], id)
    ensures Results(ms[..i + 1], id) == Results(ms[..i], id) + (if IsResultOf(ms[i], id) then 1 else 0)
  {
    assert ms[..i + 1][..i] == ms[..i];
  }

  /** `c1ToolPairFingerprint`: the filter that counts while it selects. */
  method ToolPairFingerprint(hash: MessagesHash, ms: seq<Message>, id: Id) returns (r: Option<string>)
    ensures r == Fingerprint(hash, ms, id)
  {
    var calls, results, pair := 0, 0, [];
    for i := 0 to |ms|
      invariant calls == Calls(ms[..i], id) && results == Results(ms[..i], id)
      invariant pair == FilterMap(ms[..i], OfPair(id))
    {
      CountStep(ms, id, i);
      FilterMapStep(ms, OfPair(id), i);
      var m := ms[i];
      if m.role == "toolResult" && m.toolCallId == Some(id) {
        results := results + 1;
        pair := pair + [m];
      } else if m.role == "assistant" && m.content.Array? {
        var matches := BlockCount(Blocks(m.content), id);
        calls := calls + matches;
        if matches > 0 { pair := pair + [m]; }
      }
    }
    assert ms[..|ms|] == ms;
    if calls != 1 || results != 1 { return None; }
    return Some(hash(pair));
  }

  /** Messages that do not mention the pair never change its fingerprint, wherever they stand. */
  lemma {:induction false} FingerprintIgnoresOthers(ms: seq<Message>, id: Id)
    ensures Calls(FilterMap(ms, OfPair(id)), id) == Calls(ms, id)
    ensures Results(FilterMap(ms, OfPair(id)), id) == Results(ms, id)
  {
    if ms != [] {
      var n := |ms| - 1;
      FingerprintIgnoresOthers(ms[..n], id);
      if Mentions(ms[n], id) {
        var kept := FilterMap(ms[..n], OfPair(id));
        assert (kept + [ms[n]])[..|kept|] == kept;
      } else {
        assert FilterMap(ms, OfPair(id)) == FilterMap(ms[..n], OfPair(id));
      }
    }
  }

  /** Two conversations with the same messages of the pair have the same fingerprint. */
  lemma FingerprintOfPair(hash: MessagesHash, ms: seq<Message>, ns: seq<Message>, id: Id)
    requires FilterMap(ms, OfPair(id)) == FilterMap(ns, OfPair(id))
    ensures Fingerprint(hash, ms, id) == Fingerprint(hash, ns, id)
  {
    FingerprintIgnoresOthers(ms, id);
    FingerprintIgnoresOthers(ns, id);
  }

  lemma {:induction false} SilentFilter(ms: seq<Message>, id: Id)
    requires forall m | m in ms :: !Mentions(m, id)
    ensures FilterMap(ms, OfPair(id)) == []
  {
    if ms != [] { SilentFilter(ms[..|ms| - 1], id); }
  }

  /** A conversation that goes on without touching the pair keeps the carried fingerprint valid. */
  lemma FingerprintSurvivesGrowth(hash: MessagesHash, ms: seq<Message>, more: seq<Message>, id: Id)
    requires forall m | m in more :: !Mentions(m, id)
    ensures Fingerprint(hash, ms + more, id) == Fingerprint(hash, ms, id)
  {
    FilterMapConcat(ms, more, OfPair(id));
    SilentFilter(more, id);
    FingerprintOfPair(hash, ms + more, ms, id);
  }

  // ----- the composition basis -------------------------------------------

  datatype Removal = Removal(toolCallId: Id, fingerprint: string, transitionId: string)

  predicate Restored(retained: set<Key>, id: Id) { ToolCall(id) in retained && ToolResult(id) in retained }

  predicate Touched(retained: set<Key>, id: Id) { ToolCall(id) in retained || ToolResult(id) in retained }

  /** The removal still describes its pair. */
  predicate Proven(hash: MessagesHash, ms: seq<Message>, r: Removal) {
    r.transitionId != "" && Fingerprint(hash, ms, r.toolCallId) == Some(r.fingerprint)
  }

  /** The removal is restored, or untouched and proven. */
  predicate Acceptable(hash: MessagesHash, ms: seq<Message>, retained: set<Key>, r: Removal) {
    Restored(retained, r.toolCallId) || (!Touched(retained, r.toolCallId) && Proven(hash, ms, r))
  }

  function CarriedIds(removals: seq<Removal>, retained: set<Key>): (r: set<Id>) {
    set x | x in removals && !Restored(retained, x.toolCallId) :: x.toolCallId
  }

  function RemovalIds(removals: seq<Removal>): (r: set<Id>) { set x | x in removals :: x.toolCallId }

  lemma CarriedStep(removals: seq<Removal>, retained: set<Key>, i: nat)
    requires i < |removals|
    ensures CarriedIds(removals[..i + 1], retained) ==
            CarriedIds(removals[..i], retained)
            + (if Restored(retained, removals[i].toolCallId) then {} else {removals[i].toolCallId})
  {
    assert removals[..i + 1] == removals[..i] + [removals[i]];
    assert forall x :: x in removals[..i] + [removals[i]] <==> x in removals[..i] || x == removals[i];
  }

  /** `c1CompositionBasis`: the carried source keys, or an error. */
  method CompositionBasis(hash: MessagesHash, ms: seq<Message>, removals: seq<Removal>, retained: set<Key>)
    returns (r: Option<set<Key>>)
    ensures r.Some? <==> forall x | x in removals :: Acceptable(hash, ms, retained, x)
    ensures r.Some? ==> r.value == PairKeys(CarriedIds(removals, retained))
  {
    var ids: set<Id> := {};
    for i := 0 to |removals|
      invariant ids == CarriedIds(removals[..i], retained)
      invariant forall j | 0 <= j < i :: Acceptable(hash, ms, retained, removals[j])
    {
      CarriedStep(removals, retained, i);
      var x := removals[i];
      assert x in removals;
      if !Restored(retained, x.toolCallId) {
        if Touched(retained, x.toolCallId) || x.transitionId == "" { return None; }
        var mark := ToolPairFingerprint(hash, ms, x.toolCallId);
        if mark != Some(x.fingerprint) { return None; }
        ids := ids + {x.toolCallId};
      }
    }
    assert removals[..|removals|] == removals;
    return Some(PairKeys(ids));
  }

  /**
   What the driver relies on: the carried keys are whole pairs of the carry, none of
   them retained, and exactly the unrestored ones.
   */
  lemma BasisFeedsCarry(hash: MessagesHash, ms: seq<Message>, removals: seq<Removal>, retained: set<Key>)
    requires forall x | x in removals :: Acceptable(hash, ms, retained, x)
    ensures CarriedFrom(PairKeys(CarriedIds(removals, retained)), RemovalIds(removals))
    ensures PairKeys(CarriedIds(removals, retained)) !! retained
    ensures CarriedIds(removals, retained) ==
            RemovalIds(removals) - (set id | id in RemovalIds(removals) && Restored(retained, id))
  {
    forall k | k in PairKeys(CarriedIds(removals, retained)) ensures k !in retained {
      assert k.id in CarriedIds(removals, retained);
      var x :| x in removals && !Restored(retained, x.toolCallId) && x.toolCallId == k.id;
      assert Acceptable(hash, ms, retained, x);
    }
  }

  /** Both keys of the pair are retained, or neither is and the pair is still the one that was removed. */
  predicate BasisAllows(hash: MessagesHash, ms: seq<Message>, retained: set<Key>, r: Removal) {
    if ToolCall(r.toolCallId) in retained then ToolResult(r.toolCallId) in retained
    else
      && ToolResult(r.toolCallId) !in retained && r.transitionId != ""
      && Fingerprint(hash, ms, r.toolCallId) == Some(r.fingerprint)
  }

  /** The keys that are carried are those of the removed pairs that are not retained. */
  lemma BasisExact(hash: MessagesHash, ms: seq<Message>, removals: seq<Removal>, retained: set<Key>)
    ensures (forall x | x in removals :: Acceptable(hash, ms, retained, x)) <==>
            forall x | x in removals :: BasisAllows(hash, ms, retained, x)
    ensures (forall x | x in removals :: Acceptable(hash, ms, retained, x)) ==>
              forall k :: k in PairKeys(CarriedIds(removals, retained)) <==>
                          k !in retained && exists x | x in removals ::
                                              k == ToolCall(x.toolCallId) || k == ToolResult(x.toolCallId)
  {
    forall x ensures Acceptable(hash, ms, retained, x) <==> BasisAllows(hash, ms, retained, x) {}
    if forall x | x in removals :: Acceptable(hash, ms, retained, x) {
      forall k
        ensures k in PairKeys(CarriedIds(removals, retained)) <==>
                k !in retained && exists x | x in removals ::
                                    k == ToolCall(x.toolCallId) || k == ToolResult(x.toolCallId)
      {
        CarriedKey(hash, ms, removals, retained, k);
      }
    }
  }

  lemma CarriedKey(hash: MessagesHash, ms: seq<Message>, removals: seq<Removal>, retained: set<Key>, k: Key)
    requires forall x | x in removals :: Acceptable(hash, ms, retained, x)
    ensures k in PairKeys(CarriedIds(removals, retained)) <==>
            k !in retained && exists x | x in removals ::
                                k == ToolCall(x.toolCallId) || k == ToolResult(x.toolCallId)
  {
    if k in PairKeys(CarriedIds(removals, retained)) {
      assert k.id in CarriedIds(removals, retained);
      var x :| x in removals && !Restored(retained, x.toolCallId) && x.toolCallId == k.id;
      assert Acceptable(hash, ms, retained, x) && (k == ToolCall(x.toolCallId) || k == ToolResult(x.toolCallId));
    }
    if k !in retained && exists x | x in removals :: k == ToolCall(x.toolCallId) || k == ToolResult(x.toolCallId) {
      var x :| x in removals && (k == ToolCall(x.toolCallId) || k == ToolResult(x.toolCallId));
      assert Acceptable(hash, ms, retained, x) && !Restored(retained, x.toolCallId);
      assert x.toolCallId in CarriedIds(removals, retained);
    }
  }
}
