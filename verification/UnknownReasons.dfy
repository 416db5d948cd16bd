/**
 The counts of unknown lifecycle reasons: what the schema accepts of one call's
 record, and the merge of a leg's records into one. The merge starts from an
 ordinary object, so looking up a reason that every object inherits finds a
 function, and adding a count to that makes a text.
 */
module UnknownReasons {
  import opened Sequences

  type Unknowns = map<string, real>

  predicate IsCount(x: real) { x >= 0.0 && x == x.Floor as real }

  /** No empty reason, whole non-negative counts. */
  predicate WellFormed(u: Unknowns) { "" !in u && forall r | r in u :: IsCount(u[r]) }

  predicate Inherited(reason: string) {
    || reason == "constructor" || reason == "hasOwnProperty" || reason == "isPrototypeOf"
    || reason == "propertyIsEnumerable" || reason == "toLocaleString" || reason == "toString"
    || reason == "valueOf" || reason == "__defineGetter__" || reason == "__defineSetter__"
    || reason == "__lookupGetter__" || reason == "__lookupSetter__"
  }

  predicate PlainReasons(u: Unknowns) { forall r | r in u :: !Inherited(r) }

  /** A property of the merged record: a number, or the text of a function with counts behind it. */
  datatype Slot = Total(count: real) | Text

  type Merged = map<string, Slot>

  function Lookup(m: Merged, reason: string): (s: Slot) {
    if reason in m then m[reason] else if Inherited(reason) then Text else Total(0.0)
  }

  function Plus(s: Slot, x: real): (r: Slot) {
    match s
    case Total(c) => Total(c + x)
    case Text => Text
  }

  /** Adding the counts of some of a record's reasons. */
  function AddReasons(m: Merged, u: Unknowns, reasons: set<string>): (r: Merged)
    requires reasons <= u.Keys
  {
    map k | k in m.Keys + reasons :: if k in reasons then Plus(Lookup(m, k), u[k]) else m[k]
  }

  function Merge(us: seq<Unknowns>): (r: Merged) {
    if us == [] then map[] else AddReasons(Merge(us[..|us| - 1]), us[|us| - 1], us[|us| - 1].Keys)
  }

  lemma MergeLast(us: seq<Unknowns>, i: nat)
    requires i < |us|
    ensures Merge(us[..i + 1]) == AddReasons(Merge(us[..i]), us[i], us[i].Keys)
  {
    assert us[..i + 1][..i] == us[..i];
  }

  lemma AddReason(m: Merged, u: Unknowns, added: set<string>, reason: string)
    requires added <= u.Keys && reason in u && reason !in added
    ensures AddReasons(m, u, added + {reason}) ==
            AddReasons(m, u, added)[reason := Plus(Lookup(AddReasons(m, u, added), reason), u[reason])]
  {
    assert Lookup(AddReasons(m, u, added), reason) == Lookup(m, reason);
  }

  /** The loop over the entries of one record. */
  method AddRecord(before: Merged, u: Unknowns) returns (m: Merged)
    ensures m == AddReasons(before, u, u.Keys)
  {
    m := before;
    var left, added := u.Keys, {};
    while left != {}
      invariant left !! added && left + added == u.Keys
      invariant m == AddReasons(before, u, added)
      decreases left
    {
      var reason :| reason in left;
      AddReason(before, u, added, reason);
      m := m[reason := Plus(Lookup(m, reason), u[reason])];
      left, added := left - {reason}, added + {reason};
    }
    assert added == u.Keys;
  }

  /** The loop over the records. */
  method MergeUnknowns(us: seq<Unknowns>) returns (m: Merged)
    ensures m == Merge(us)
  {
    m := map[];
    for i := 0 to |us|
      invariant m == Merge(us[..i])
    {
      m := AddRecord(m, us[i]);
      MergeLast(us, i);
    }
    assert us[..|us|] == us;
  }

  // ----- what the merge holds --------------------------------------------

  function CountIn(u: Unknowns, reason: string): (c: real) { if reason in u then u[reason] else 0.0 }

  function TotalOf(us: seq<Unknowns>, reason: string): (t: real) {
    if us == [] then 0.0 else TotalOf(us[..|us| - 1], reason) + CountIn(us[|us| - 1], reason)
  }

  ghost predicate Mentioned(us: seq<Unknowns>, reason: string) { exists u | u in us :: reason in u }

  lemma MentionedLast(us: seq<Unknowns>, reason: string)
    requires us != []
    ensures Mentioned(us, reason) <==> Mentioned(us[..|us| - 1], reason) || reason in us[|us| - 1]
  {
    FrontLast(us);
    assert us[|us| - 1] in us;
  }

  /** The merge holds each mentioned reason with its total, unless every object inherits that name. */
  lemma {:induction false} MergeExact(us: seq<Unknowns>, reason: string)
    ensures reason in Merge(us) <==> Mentioned(us, reason)
    ensures !Mentioned(us, reason) ==> TotalOf(us, reason) == 0.0
    ensures reason in Merge(us) ==>
              Merge(us)[reason] == if Inherited(reason) then Text else Total(TotalOf(us, reason))
  {
    if us != [] {
      MentionedLast(us, reason);
      MergeExact(us[..|us| - 1], reason);
    }
  }

  ghost predicate AllWellFormed(us: seq<Unknowns>) { forall u | u in us :: WellFormed(u) }

  lemma WholeCount(n: nat)
    ensures IsCount(n as real)
  {}

  lemma CountsAdd(a: real, b: real)
    requires IsCount(a) && IsCount(b)
    ensures IsCount(a + b)
  {
    var m: nat, n: nat := a.Floor, b.Floor;
    assert a + b == (m + n) as real;
    WholeCount(m + n);
  }

  lemma {:induction false} TotalIsCount(us: seq<Unknowns>, reason: string)
    requires AllWellFormed(us)
    ensures IsCount(TotalOf(us, reason))
  {
    if us != [] {
      var n := |us| - 1;
      FrontLast(us);
      assert us[n] in us;
      TotalIsCount(us[..n], reason);
      CountsAdd(TotalOf(us[..n], reason), CountIn(us[n], reason));
    }
  }

  predicate MergedWellFormed(m: Merged) { "" !in m && forall r | r in m :: m[r].Total? && IsCount(m[r].count) }

  /** The schema accepts the merge of accepted records exactly when no reason is an inherited name. */
  lemma MergeAccepted(us: seq<Unknowns>)
    requires AllWellFormed(us)
    ensures MergedWellFormed(Merge(us)) <==> forall u | u in us :: PlainReasons(u)
  {
    var m := Merge(us);
    MergeExact(us, "");
    if MergedWellFormed(m) {
      forall u, r | u in us && r in u ensures !Inherited(r) {
        MergeExact(us, r);
        assert m[r].Total?;
      }
    } else if forall u | u in us :: PlainReasons(u) {
      forall r | r in m ensures m[r].Total? && IsCount(m[r].count) {
        MergeExact(us, r);
        TotalIsCount(us, r);
      }
      assert false;
    }
  }
}
