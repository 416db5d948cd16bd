/**
 What each append of the live driver keeps about its log, on log values alone:
 the call being written is the last accounted one, so the strict accounting can
 follow it step by step.
 */
module LiveProtocol {
  import opened Wrappers
  import opened LiveLog

  ghost predicate Distinct(ids: seq<Id>) { forall i, j | 0 <= i < j < |ids| :: ids[i] != ids[j] }

  ghost predicate GapFree(log: seq<Checkpoint>) { forall i | 0 <= i < |log| :: log[i].checkpointOrdinal == i + 1 }

  ghost predicate RunsIn(calls: seq<Call>, ids: seq<Id>) { forall c | c in calls :: c.runId in ids }

  /** Every opened run has its first call on record. */
  ghost predicate Opened(calls: seq<Call>, ids: seq<Id>) { forall id | id in ids :: !NoKey(calls, id, 1) }

  /**
   The log of a driver between legs. `runs` holds the run ids of the legs whose
   first outbound permit was acknowledged, in order.
   */
  ghost predicate Good(log: seq<Checkpoint>, runs: seq<Id>) {
    && GapFree(log)
    && (Distinct(runs) <==> Account(log).Some?)
    && (Distinct(runs) ==>
          && Shaped(log)
          && RunsIn(Account(log).value, runs)
          && Opened(Account(log).value, runs))
  }

  /** Calls of a run have ordinals below `k`. */
  ghost predicate Below(calls: seq<Call>, runId: Id, k: nat) {
    forall c | c in calls && c.runId == runId :: c.callOrdinal < k
  }

  /** The driver is about to run call `k` of a leg. */
  ghost predicate AtCall(log: seq<Checkpoint>, runs: seq<Id>, runId: Id, k: nat) {
    && k >= 1
    && Good(log, runs)
    && (k > 1 ==>
          && runs != [] && runs[|runs| - 1] == runId
          && (Distinct(runs) ==> Below(Account(log).value, runId, k)))
  }

  /** The driver is inside a call: the accounting holds it last, as `c`, after the `prior` ones. */
  ghost predicate InCall(log: seq<Checkpoint>, runs: seq<Id>, prior: seq<Call>, c: Call) {
    && Good(log, runs)
    && c.callOrdinal >= 1
    && runs != [] && runs[|runs| - 1] == c.runId
    && (Distinct(runs) ==> Account(log) == Some(prior + [c]) && Below(prior, c.runId, c.callOrdinal))
  }

  /** The accounted calls of a log, none when it is rejected. */
  ghost function CallsOf(log: seq<Checkpoint>): (r: seq<Call>) {
    if Account(log).Some? then Account(log).value else []
  }

  function OpenedBy(runs: seq<Id>, runId: Id, k: nat): (r: seq<Id>) { if k == 1 then runs + [runId] else runs }

  lemma GapFreeAppend(log: seq<Checkpoint>, c: Checkpoint)
    requires GapFree(log) && c.checkpointOrdinal == |log| + 1
    ensures GapFree(log + [c])
  {}

  lemma BelowNoKey(calls: seq<Call>, runId: Id, k: nat)
    requires Below(calls, runId, k)
    ensures NoKey(calls, runId, k)
  {
    forall i | 0 <= i < |calls| ensures !HasKey(calls[i], runId, k) { assert calls[i] in calls; }
  }

  lemma FindLast(calls: seq<Call>, c: Call, runId: Id, k: nat)
    requires NoKey(calls, runId, k) && HasKey(c, runId, k)
    ensures Find(calls + [c], runId, k) == |calls|
  {
    assert !NoKey(calls + [c], runId, k) by { assert (calls + [c])[|calls|] == c; }
  }

  lemma FindNone(calls: seq<Call>, runId: Id, k: nat)
    ensures Find(calls, runId, k) == |calls| <==> NoKey(calls, runId, k)
  {}

  lemma DistinctAppend(ids: seq<Id>, id: Id)
    ensures Distinct(ids + [id]) <==> Distinct(ids) && id !in ids
  {
    var all := ids + [id];
    if Distinct(all) {
      forall i | 0 <= i < |ids| ensures ids[i] != id { assert all[i] != all[|ids|]; }
      forall i, j | 0 <= i < j < |ids| ensures ids[i] != ids[j] { assert all[i] != all[j]; }
    }
  }

  function NewCall(capture: Capture, k: nat): (c: Call) { Call(capture.runId, k, capture, None, [], false) }

  /** A permit is new to the accounting exactly when the opened runs stay distinct. */
  lemma PermitFresh(log: seq<Checkpoint>, runs: seq<Id>, runId: Id, k: nat)
    requires AtCall(log, runs, runId, k) && Distinct(runs)
    ensures Distinct(OpenedBy(runs, runId, k)) <==> NoKey(Account(log).value, runId, k)
    ensures Distinct(OpenedBy(runs, runId, k)) ==> Below(Account(log).value, runId, k)
  {
    var calls := Account(log).value;
    if k == 1 {
      DistinctAppend(runs, runId);
      if runId !in runs {
        forall c | c in calls ensures c.runId != runId {}
        BelowNoKey(calls, runId, k);
      }
    } else {
      BelowNoKey(calls, runId, k);
    }
  }

  lemma NoKeyAppend(calls: seq<Call>, c: Call, runId: Id, k: nat)
    ensures NoKey(calls + [c], runId, k) <==> NoKey(calls, runId, k) && !HasKey(c, runId, k)
  {
    var all := calls + [c];
    if NoKey(all, runId, k) {
      assert !HasKey(all[|calls|], runId, k);
      forall i | 0 <= i < |calls| ensures !HasKey(calls[i], runId, k) { assert all[i] == calls[i]; }
    }
  }

  /** An acknowledged permit. */
  lemma PermitStep(log: seq<Checkpoint>, runs: seq<Id>, capture: Capture, k: nat)
    requires AtCall(log, runs, capture.runId, k)
    ensures InCall(log + [Checkpoint(|log| + 1, OutboundPermitted(k, capture))],
                   OpenedBy(runs, capture.runId, k), CallsOf(log), NewCall(capture, k))
  {
    var cp := Checkpoint(|log| + 1, OutboundPermitted(k, capture));
    var runs' := OpenedBy(runs, capture.runId, k);
    AccountAppend(log, cp);
    ShapedAppend(log, cp);
    GapFreeAppend(log, cp);
    DistinctAppend(runs, capture.runId);
    if Distinct(runs) {
      var calls := Account(log).value;
      PermitFresh(log, runs, capture.runId, k);
      FindNone(calls, capture.runId, k);
      if Distinct(runs') {
        PermitOpens(calls, runs, capture, k);
      }
    }
  }

  lemma PermitOpens(calls: seq<Call>, runs: seq<Id>, capture: Capture, k: nat)
    requires RunsIn(calls, runs) && Opened(calls, runs)
    requires k > 1 ==> capture.runId in runs
    requires k >= 1
    ensures RunsIn(calls + [NewCall(capture, k)], OpenedBy(runs, capture.runId, k))
    ensures Opened(calls + [NewCall(capture, k)], OpenedBy(runs, capture.runId, k))
  {
    var c := NewCall(capture, k);
    forall id | id in OpenedBy(runs, capture.runId, k) ensures !NoKey(calls + [c], id, 1) {
      NoKeyAppend(calls, c, id, 1);
    }
  }

  /** The other acknowledged events of a call. */
  lemma CallEventStep(log: seq<Checkpoint>, runs: seq<Id>, prior: seq<Call>, c: Call, e: Event)
    requires InCall(log, runs, prior, c) && !e.OutboundPermitted? && EventRun(e) == c.runId
    requires e.callOrdinal == c.callOrdinal
    requires CallStep(c, e).Some?
    requires e.ResponseReceived? ==> CountsRequests(e.receipt)
    requires e.ResponseRecorded? ==> c.receipt == Some(e.evidence.receipt)
    ensures InCall(log + [Checkpoint(|log| + 1, e)], runs, prior, CallStep(c, e).value)
  {
    var cp := Checkpoint(|log| + 1, e);
    AccountAppend(log, cp);
    ShapedAppend(log, cp);
    GapFreeAppend(log, cp);
    if Distinct(runs) {
      BelowNoKey(prior, c.runId, c.callOrdinal);
      FindLast(prior, c, c.runId, c.callOrdinal);
      CallStepOpens(prior, c, CallStep(c, e).value, runs);
      assert (prior + [c])[|prior| := CallStep(c, e).value] == prior + [CallStep(c, e).value];
    }
  }

  lemma CallStepOpens(prior: seq<Call>, c: Call, c': Call, runs: seq<Id>)
    requires RunsIn(prior + [c], runs) && Opened(prior + [c], runs)
    requires c'.runId == c.runId && c'.callOrdinal == c.callOrdinal
    ensures RunsIn(prior + [c'], runs) && Opened(prior + [c'], runs)
  {
    assert c in prior + [c];
    forall x | x in prior + [c'] ensures x.runId in runs { assert x in prior + [c] || x == c'; }
    forall id | id in runs ensures !NoKey(prior + [c'], id, 1) {
      NoKeyAppend(prior, c, id, 1);
      NoKeyAppend(prior, c', id, 1);
    }
  }

  /** A finished call leaves the driver ready for the next one. */
  lemma NextCall(log: seq<Checkpoint>, runs: seq<Id>, prior: seq<Call>, c: Call)
    requires InCall(log, runs, prior, c)
    ensures AtCall(log, runs, c.runId, c.callOrdinal + 1)
  {
    if Distinct(runs) {
      forall x | x in prior + [c] && x.runId == c.runId ensures x.callOrdinal < c.callOrdinal + 1 {
        assert x in prior || x == c;
      }
    }
  }

  /**
   A write that was skipped but followed by an acknowledged one is fatal: whatever
   comes later, the accounting rejects the log.
   */
  lemma GapRejected(log: seq<Checkpoint>, c: Checkpoint, rest: seq<Checkpoint>)
    requires c.checkpointOrdinal != |log| + 1
    ensures Account(log + [c] + rest).None?
  {
    AccountAppend(log, c);
    assert (log + [c] + rest)[..|log| + 1] == log + [c];
    AccountPrefix(log + [c] + rest, |log| + 1);
  }
}
