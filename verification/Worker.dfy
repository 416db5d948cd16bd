/** The in-memory claim store, shared by every dispatch of a worker. */
module ClaimStores {

  datatype Op = ClaimOp(id: string) | ReleaseOp(id: string)

  /** After these operations the id is claimed: it was claimed and not released since. */
  predicate Held(history: seq<Op>, id: string) {
    if history == [] then false
    else
      var last := history[|history| - 1];
      if last.id == id then last.ClaimOp? else Held(history[..|history| - 1], id)
  }

  lemma HeldAppend(history: seq<Op>, op: Op, id: string)
    ensures Held(history + [op], id) <==> if op.id == id then op.ClaimOp? else Held(history, id)
  {
    assert (history + [op])[..|history|] == history;
  }

  /** A claim operation at this point of the history was granted. */
  predicate GrantedAt(history: seq<Op>, i: nat)
    requires i < |history|
  {
    history[i].ClaimOp? && !Held(history[..i], history[i].id)
  }

  lemma {:induction false} HeldUntilReleased(history: seq<Op>, i: nat, j: nat)
    requires i < j <= |history| && history[i].ClaimOp?
    requires forall k | i < k < j :: history[k] != ReleaseOp(history[i].id)
    ensures Held(history[..j], history[i].id)
  {
    assert history[..j] == history[..j - 1] + [history[j - 1]];
    HeldAppend(history[..j - 1], history[j - 1], history[i].id);
    if j > i + 1 { HeldUntilReleased(history, i, j - 1); }
  }

  /** An id is never granted twice without a release in between. */
  lemma GrantsNeedRelease(history: seq<Op>, i: nat, j: nat) returns (k: nat)
    requires i < j < |history| && history[i].id == history[j].id && GrantedAt(history, i) && GrantedAt(history, j)
    ensures i < k < j && history[k] == ReleaseOp(history[i].id)
  {
    assert exists k | i < k < j :: history[k] == ReleaseOp(history[i].id) by {
      if forall k | i < k < j :: history[k] != ReleaseOp(history[i].id) { HeldUntilReleased(history, i, j); }
    }
    k :| i < k < j && history[k] == ReleaseOp(history[i].id);
  }

  class ClaimStore {
    var claimed: set<string>
    ghost var history: seq<Op>

    /** The set holds what the operations so far leave claimed. */
    ghost predicate Valid()
      reads this
    {
      forall id :: id in claimed <==> Held(history, id)
    }

    constructor ()
      ensures Valid() && claimed == {} && history == []
    {
      claimed, history := {}, [];
    }

    method Claim(id: string) returns (granted: bool)
      requires Valid()
      modifies this
      ensures Valid() && history == old(history) + [ClaimOp(id)] && claimed == old(claimed) + {id}
      ensures granted <==> !Held(old(history), id)
      ensures granted <==> GrantedAt(history, |history| - 1)
    {
      forall x ensures Held(history + [ClaimOp(id)], x) <==> x in claimed + {id} {
        HeldAppend(history, ClaimOp(id), x);
      }
      assert (history + [ClaimOp(id)])[..|history|] == history;
      history := history + [ClaimOp(id)];
      if id in claimed {
        assert claimed == claimed + {id};
        return false;
      }
      claimed := claimed + {id};
      granted := true;
    }

    method Release(id: string) returns (held: bool)
      requires Valid()
      modifies this
      ensures Valid() && history == old(history) + [ReleaseOp(id)] && claimed == old(claimed) - {id}
      ensures held <==> Held(old(history), id)
    {
      forall x ensures Held(history + [ReleaseOp(id)], x) <==> x in claimed - {id} {
        HeldAppend(history, ReleaseOp(id), x);
      }
      history := history + [ReleaseOp(id)];
      held := id in claimed;
      claimed := claimed - {id};
    }

    /** Whether the last operation on the id was a claim. */
    method IsClaimed(id: string) returns (r: bool)
      requires Valid()
      ensures r <==> Held(history, id)
    {
      r := id in claimed;
    }
  }
}

/**
 Worker dispatch as a step machine. A step runs one dispatch from one await to the
 next; between two steps any other dispatch may run and any signal may abort. The
 environment's answer to each await is arbitrary.
 */
module Worker {
  import opened Wrappers
  import ClaimStores

  type Id = string

  datatype Outcome = ValidationRejected | ClaimRejected | RevisionMismatch | Succeeded | Partial | Cancelled

  datatype Reason =
    | Validation | ClaimTaken | RevisionFailed | WorktreeFailed
    | AgentCancelled | AgentTimedOut | AgentFailed
    | StateViolation | AddFailed | CheckFailed | DurationExceeded | CommandTimedOut
    | EmptyPatch | ExportFailed

  /** The recovery file of an execution request. */
  datatype Record = Running | Interrupted(cleanupSucceeded: bool)

  datatype Output = Output(
    outcome: Outcome,
    claimGranted: bool,
    reason: Option<Reason>,
    patch: Option<string>,
    recovery: Option<Record>)

  /** The await a dispatch is suspended at; `Threw` is a rejected promise. */
  datatype Point =
    | Start | Revision | Creating | Abandoning | WritingRunning
    | Agent | Head | Branch | Staging | DiffCheck | Command(index: nat) | Export
    | Cleanup | WritingInterrupted | RemovingRecord | Artifacts
    | Returned(output: Output) | Threw

  datatype AgentEnd = Pending | Completed | CancelledEnd | FailedEnd

  /** What the dispatch has learnt so far; `None` is not yet learnt. */
  datatype Facts = Facts(
    agent: AgentEnd,
    atBase: Option<bool>,
    detached: Option<bool>,
    staged: Option<bool>,
    diffClean: Option<bool>,
    commandsRun: nat,
    timedOut: bool,
    exhausted: bool,
    exportFailed: bool,
    emptyClaim: bool,
    abortSeen: bool)

  predicate Untouched(f: Facts) {
    && f.agent.Pending? && f.atBase.None? && f.detached.None? && f.staged.None? && f.diffClean.None?
    && f.commandsRun == 0 && !f.timedOut && !f.exhausted && !f.exportFailed && !f.emptyClaim && !f.abortSeen
  }

  datatype Dispatch = Dispatch(
    id: Id,
    signal: nat,
    point: Point,
    granted: bool,
    recorded: bool,
    outcome: Outcome,
    reason: Option<Reason>,
    patch: Option<string>,
    cleanupSucceeded: bool,
    facts: Facts)

  datatype World = World(
    commands: nat,
    claimed: set<Id>,
    records: map<Id, Record>,
    worktrees: set<Id>,
    aborted: set<nat>,
    dispatches: seq<Dispatch>)

  /**
   The answer to an await. `threw`: it rejected. `good`: what it reports (a valid
   request, exit code 0, HEAD at the base, no branch, no timeout, a clean removal).
   `cancelled`, `timedOut`, `mismatch`: the kind of error. `late`: the duration
   budget is spent when it is next compared. `claimsChanges`: the agent's summary.
   */
  datatype Answer = Answer(
    threw: bool, good: bool, cancelled: bool, timedOut: bool, mismatch: bool, late: bool,
    patch: string, claimsChanges: bool)

  /** A dispatch and the shared state after one of its steps. */
  datatype Local = Local(d: Dispatch, claimed: set<Id>, records: map<Id, Record>, worktrees: set<Id>)

  function Return(d: Dispatch, outcome: Outcome, reason: Reason): (r: Dispatch) {
    d.(point := Returned(Output(outcome, d.granted, Some(reason), None, None)))
  }

  function MarkCancelled(d: Dispatch): (r: Dispatch) { d.(outcome := Cancelled, reason := Some(AgentCancelled)) }

  function MarkPartial(d: Dispatch, reason: Reason): (r: Dispatch) { d.(outcome := Partial, reason := Some(reason)) }

  /** The last abort check, then the cleanup await. */
  function Finally(d: Dispatch, aborted: bool): (r: Dispatch) {
    (if aborted then MarkCancelled(d) else d).(point := Cleanup, facts := d.facts.(abortSeen := aborted))
  }

  function AgentEnded(d: Dispatch, a: Answer): (r: Dispatch) {
    if !a.threw then d.(facts := d.facts.(agent := Completed))
    else if a.cancelled then MarkCancelled(d.(facts := d.facts.(agent := CancelledEnd)))
    else MarkPartial(d.(facts := d.facts.(agent := FailedEnd)), if a.timedOut then AgentTimedOut else AgentFailed)
  }

  function AfterAgent(d: Dispatch, aborted: bool, a: Answer): (r: Dispatch) {
    var ended := AgentEnded(d, a);
    var checked := if aborted then MarkCancelled(ended) else ended;
    if checked.outcome == Cancelled then Finally(checked, aborted) else checked.(point := Head)
  }

  function AfterHead(d: Dispatch, aborted: bool, a: Answer): (r: Dispatch) {
    var read := d.(facts := d.facts.(atBase := Some(a.good)));
    if a.good then read.(point := Branch) else Finally(MarkPartial(read, StateViolation), aborted)
  }

  function AfterBranch(d: Dispatch, aborted: bool, a: Answer): (r: Dispatch) {
    var read := d.(facts := d.facts.(detached := Some(a.good)));
    if a.good then read.(point := Staging) else Finally(MarkPartial(read, StateViolation), aborted)
  }

  function AfterStaging(d: Dispatch, aborted: bool, a: Answer): (r: Dispatch) {
    var ran := d.(facts := d.facts.(staged := Some(a.good)));
    if a.good then ran.(point := DiffCheck) else Finally(MarkPartial(ran, AddFailed), aborted)
  }

  /** The abort check after the verification loop, and the export await. */
  function AfterCommands(d: Dispatch, aborted: bool): (r: Dispatch) {
    var checked := if aborted then MarkCancelled(d) else d;
    if checked.outcome == Cancelled then Finally(checked, aborted) else checked.(point := Export)
  }

  /** The head of the verification loop, about to run command `i` of `n`. */
  function NextCommand(d: Dispatch, i: nat, n: nat, aborted: bool, late: bool): (r: Dispatch) {
    if i >= n then AfterCommands(d, aborted)
    else if aborted then AfterCommands(MarkCancelled(d), aborted)
    else if late then AfterCommands(MarkPartial(d.(facts := d.facts.(exhausted := true)), DurationExceeded), aborted)
    else d.(point := Command(i))
  }

  function AfterDiffCheck(d: Dispatch, n: nat, aborted: bool, a: Answer): (r: Dispatch) {
    var ran := d.(facts := d.facts.(diffClean := Some(a.good)));
    NextCommand(if a.good then ran else MarkPartial(ran, CheckFailed), 0, n, aborted, a.late)
  }

  function AfterRun(d: Dispatch, i: nat, a: Answer): (r: Dispatch) {
    if a.timedOut then MarkPartial(d.(facts := d.facts.(commandsRun := i + 1, timedOut := true)), CommandTimedOut)
    else d.(facts := d.facts.(commandsRun := i + 1))
  }

  function AfterCommand(d: Dispatch, i: nat, n: nat, aborted: bool, a: Answer): (r: Dispatch) {
    NextCommand(AfterRun(d, i, a), i + 1, n, aborted, a.late)
  }

  function AfterExport(d: Dispatch, aborted: bool, a: Answer): (r: Dispatch) {
    var exported :=
      if a.threw then MarkPartial(d.(facts := d.facts.(exportFailed := true)), ExportFailed)
      else
        var kept := d.(patch := Some(a.patch));
        if a.patch == "" && a.claimsChanges && d.facts.agent.Completed?
        then MarkPartial(kept.(facts := kept.facts.(emptyClaim := true)), EmptyPatch) else kept;
    Finally(exported, aborted)
  }

  function Finish(d: Dispatch): (r: Dispatch) {
    d.(point := Returned(Output(d.outcome, true, d.reason, d.patch,
                                if d.outcome != Succeeded then Some(Interrupted(d.cleanupSucceeded)) else None)))
  }

  /** A step inside the main section, which touches no shared state. */
  function Advance(d: Dispatch, n: nat, aborted: bool, a: Answer): (r: Dispatch)
    requires Working(d.point)
  {
    match d.point
    case Agent => AfterAgent(d, aborted, a)
    case Export => AfterExport(d, aborted, a)
    case _ =>
      if a.threw then d.(point := Threw)
      else
        match d.point
        case Head => AfterHead(d, aborted, a)
        case Branch => AfterBranch(d, aborted, a)
        case Staging => AfterStaging(d, aborted, a)
        case DiffCheck => AfterDiffCheck(d, n, aborted, a)
        case Command(i) => AfterCommand(d, i, n, aborted, a)
  }

  /** A write of the recovery file; a failing one may or may not have written. */
  function Write(records: map<Id, Record>, id: Id, record: Record, a: Answer): (r: map<Id, Record>) {
    if a.threw && !a.good then records else records[id := record]
  }

  /** A step before the main section: validation, claim, revision, worktree, running record. */
  function Prepare(d: Dispatch, w: World, aborted: bool, a: Answer): (r: Local) {
    var same := Local(d, w.claimed, w.records, w.worktrees);
    match d.point
    case Start =>
      if !a.good then same.(d := Return(d, ValidationRejected, Validation))
      else if d.id in w.claimed then same.(d := Return(d, ClaimRejected, ClaimTaken))
      else same.(d := d.(granted := true, point := Revision), claimed := w.claimed + {d.id})
    case Revision =>
      if !a.threw then same.(d := d.(point := Creating))
      else if aborted then same.(d := Return(d, Cancelled, AgentCancelled))
      else if a.mismatch then same.(d := Return(d, RevisionMismatch, RevisionFailed))
      else same.(d := Return(d, Partial, RevisionFailed))
    case Creating =>
      var created := same.(worktrees := if !a.threw || a.good then w.worktrees + {d.id} else w.worktrees);
      if !a.threw then created.(d := d.(point := WritingRunning))
      else if aborted then created.(d := d.(point := Abandoning))
      else created.(d := Return(d, Partial, WorktreeFailed))
    case Abandoning =>
      same.(d := Return(d, Cancelled, AgentCancelled),
            worktrees := if !a.threw && a.good then w.worktrees - {d.id} else w.worktrees)
    case WritingRunning =>
      same.(d := if a.threw then d.(point := Threw) else d.(point := Agent, recorded := true),
            records := Write(w.records, d.id, Running, a))
    case _ => same
  }

  /** The first step on the store itself: validation, then the store decides. */
  method StartDispatch(store: ClaimStores.ClaimStore, d: Dispatch, w: World, aborted: bool, a: Answer)
    returns (r: Local)
    requires store.Valid() && store.claimed == w.claimed && d.point.Start?
    modifies store
    ensures store.Valid() && r == Prepare(d, w, aborted, a) && store.claimed == r.claimed
    ensures r.d.granted && !d.granted ==> !ClaimStores.Held(old(store.history), d.id)
  {
    r := Local(d, w.claimed, w.records, w.worktrees);
    if !a.good {
      r := r.(d := Return(d, ValidationRejected, Validation));
      return;
    }
    var granted := store.Claim(d.id);
    if granted {
      r := r.(d := d.(granted := true, point := Revision), claimed := store.claimed);
    } else {
      assert w.claimed + {d.id} == w.claimed;
      r := r.(d := Return(d, ClaimRejected, ClaimTaken));
    }
  }

  /** A step after the main section: cleanup, recovery record, artifacts, result. */
  function Settle(d: Dispatch, w: World, a: Answer): (r: Local) {
    var same := Local(d, w.claimed, w.records, w.worktrees);
    match d.point
    case Cleanup =>
      var ok := !a.threw && a.good;
      same.(d := d.(cleanupSucceeded := ok,
                    point := if d.outcome != Succeeded then WritingInterrupted else RemovingRecord),
            worktrees := if ok then w.worktrees - {d.id} else w.worktrees)
    case WritingInterrupted =>
      same.(d := d.(point := if a.threw then Threw else Artifacts),
            records := Write(w.records, d.id, Interrupted(d.cleanupSucceeded), a))
    case RemovingRecord =>
      same.(d := d.(point := if a.threw then Threw else Artifacts),
            records := if a.threw && !a.good then w.records else w.records - {d.id})
    case Artifacts => same.(d := if a.threw then d.(point := Threw) else Finish(d))
    case _ => same
  }

  predicate Preparing(p: Point) { p.Start? || p.Revision? || p.Creating? || p.Abandoning? || p.WritingRunning? }

  /** One step of a dispatch. `d.point` says which await is answered. */
  function Resume(d: Dispatch, w: World, a: Answer): (r: Local) {
    var aborted := d.signal in w.aborted;
    if Preparing(d.point) then Prepare(d, w, aborted, a)
    else if Working(d.point) then Local(Advance(d, w.commands, aborted, a), w.claimed, w.records, w.worktrees)
    else Settle(d, w, a)
  }

  // ----- runs ------------------------------------------------------------

  datatype Event = Arrive(id: Id, signal: nat) | Abort(signal: nat) | Wake(index: nat, answer: Answer)

  function NewDispatch(id: Id, signal: nat): (d: Dispatch) {
    Dispatch(id, signal, Start, false, false, Succeeded, None, None, false,
             Facts(Pending, None, None, None, None, 0, false, false, false, false, false))
  }

  function Step(w: World, e: Event): (r: World) {
    match e
    case Arrive(id, signal) => w.(dispatches := w.dispatches + [NewDispatch(id, signal)])
    case Abort(signal) => w.(aborted := w.aborted + {signal})
    case Wake(i, a) =>
      if i >= |w.dispatches| then w
      else
        var next := Resume(w.dispatches[i], w, a);
        w.(dispatches := w.dispatches[i := next.d], claimed := next.claimed, records := next.records,
           worktrees := next.worktrees)
  }

  /** Any interleaving, from any claims, records, worktrees and aborts. */
  function Run(w: World, events: seq<Event>): (r: World) {
    if events == [] then w else Step(Run(w, events[..|events| - 1]), events[|events| - 1])
  }

  // ----- the invariant ---------------------------------------------------

  predicate AfterCleanup(p: Point) {
    p.Cleanup? || p.WritingInterrupted? || p.RemovingRecord? || p.Artifacts? || p.Returned?
  }

  /** The worktree exists and the running record is written. */
  predicate Working(p: Point) {
    p.Agent? || p.Head? || p.Branch? || p.Staging? || p.DiffCheck? || p.Command? || p.Export?
  }

  /** Nothing learnt so far speaks against success. */
  predicate Unblemished(f: Facts) {
    && !f.agent.FailedEnd? && !f.agent.CancelledEnd?
    && f.atBase != Some(false) && f.detached != Some(false) && f.staged != Some(false) && f.diffClean != Some(false)
    && !f.timedOut && !f.exhausted && !f.exportFailed && !f.emptyClaim
  }

  /** Every check was made. */
  predicate Complete(f: Facts, commands: nat) {
    && !f.agent.Pending? && f.atBase.Some? && f.detached.Some? && f.staged.Some? && f.diffClean.Some?
    && (f.exhausted || f.commandsRun == commands)
  }

  /** What is known at each await of the main section. */
  predicate Reached(p: Point, f: Facts, commands: nat) {
    match p
    case Agent => Untouched(f)
    case Head => !f.agent.Pending? && f.commandsRun == 0 && f.atBase == f.detached == f.staged == f.diffClean == None
    case Branch =>
      !f.agent.Pending? && f.commandsRun == 0 && f.atBase == Some(true) && f.detached == f.staged == f.diffClean == None
    case Staging =>
      !f.agent.Pending? && f.commandsRun == 0 && f.atBase == f.detached == Some(true) && f.staged == f.diffClean == None
    case DiffCheck =>
      !f.agent.Pending? && f.commandsRun == 0 && f.atBase == f.detached == f.staged == Some(true) && f.diffClean == None
    case Command(i) =>
      && !f.agent.Pending? && f.atBase == f.detached == f.staged == Some(true) && f.diffClean.Some?
      && f.commandsRun == i < commands
    case Export =>
      f.atBase == f.detached == f.staged == Some(true) && Complete(f, commands)
    case _ => true
  }

  /** How the outcome of a dispatch follows from what it learnt. */
  predicate OutcomeOk(d: Dispatch, w: World) {
    var aborted := d.signal in w.aborted;
    && (d.outcome.Succeeded? || d.outcome.Partial? || d.outcome.Cancelled?)
    && (d.reason.None? <==> d.outcome.Succeeded?)
    && d.facts.commandsRun <= w.commands
    && (d.outcome.Succeeded? ==> Unblemished(d.facts))
    && (d.outcome.Partial? ==> !Unblemished(d.facts))
    && (Working(d.point) ==>
          && !d.outcome.Cancelled? && !d.facts.agent.CancelledEnd? && !d.facts.abortSeen
          && d.patch.None? && !d.facts.exportFailed && !d.facts.emptyClaim
          && Reached(d.point, d.facts, w.commands))
    && (AfterCleanup(d.point) && d.recorded ==>
          && (d.facts.abortSeen ==> aborted)
          && (d.outcome.Cancelled? <==> d.facts.abortSeen || d.facts.agent.CancelledEnd?)
          && (d.outcome.Succeeded? ==> Complete(d.facts, w.commands) && d.patch.Some?))
  }

  /** The recovery record of a dispatch that owns its execution request. */
  predicate RecordOk(d: Dispatch, w: World) {
    d.recorded ==>
      match d.point
      case Artifacts =>
        if d.outcome.Succeeded? then d.id !in w.records
        else d.id in w.records && w.records[d.id] == Interrupted(d.cleanupSucceeded)
      case Returned(o) =>
        && o == Finish(d).point.output
        && (if d.outcome.Succeeded? then d.id !in w.records
            else d.id in w.records && w.records[d.id] == Interrupted(d.cleanupSucceeded))
      case Threw => true
      case _ => d.id in w.records && w.records[d.id] == Running
  }

  predicate FlagsOk(d: Dispatch, w: World) {
    && (d.granted ==> d.id in w.claimed)
    && (!d.granted ==> d.point.Start? || d.point.Returned?)
    && (d.point.Start? ==> !d.granted)
    && (d.recorded ==> d.granted)
    && (Working(d.point) || d.point.Cleanup? || d.point.WritingInterrupted? || d.point.RemovingRecord?
        || d.point.Artifacts?
        ==> d.recorded)
    && (d.recorded ==> Working(d.point) || AfterCleanup(d.point) || d.point.Threw?)
    && (d.point.WritingInterrupted? ==> !d.outcome.Succeeded?)
    && (d.point.RemovingRecord? ==> d.outcome.Succeeded?)
    && (!d.recorded ==> d.outcome.Succeeded? && Untouched(d.facts) && d.reason.None? && d.patch.None?)
  }

  predicate DispatchOk(d: Dispatch, w: World) { FlagsOk(d, w) && OutcomeOk(d, w) && RecordOk(d, w) }

  ghost predicate Exclusive(w: World) {
    forall i, j | 0 <= i < j < |w.dispatches| && w.dispatches[i].granted && w.dispatches[j].granted ::
      w.dispatches[i].id != w.dispatches[j].id
  }

  /** The worktree of a dispatch: there until its cleanup succeeds. */
  predicate TreeOk(d: Dispatch, w: World) {
    && (d.point.WritingRunning? || (d.recorded && (Working(d.point) || d.point.Cleanup?)) ==> d.id in w.worktrees)
    && (d.recorded && AfterCleanup(d.point) && !d.point.Cleanup? ==> (d.id in w.worktrees <==> !d.cleanupSucceeded))
  }

  ghost predicate Inv(w: World) {
    && Exclusive(w)
    && (forall i | 0 <= i < |w.dispatches| :: DispatchOk(w.dispatches[i], w))
    && (forall i | 0 <= i < |w.dispatches| :: TreeOk(w.dispatches[i], w))
  }

  // ----- each step keeps it ----------------------------------------------

  /** A step of the main section keeps the dispatch's identity and only raises its outcome. */
  ghost predicate Raises(d: Dispatch, r: Dispatch, aborted: bool) {
    && r.id == d.id && r.signal == d.signal && r.granted == d.granted && r.recorded == d.recorded
    && Rank(d.outcome) <= Rank(r.outcome)
    && (if r.point.Cleanup? then r.facts.abortSeen == aborted else !AfterCleanup(r.point))
  }

  function Rank(o: Outcome): (r: nat) {
    match o
    case Cancelled => 2
    case Partial => 1
    case _ => 0
  }

  /** The local half of the invariant, for a dispatch that has written its record. */
  ghost predicate MainOk(d: Dispatch, w: World) {
    d.recorded && d.granted && OutcomeOk(d, w) && (Working(d.point) || d.point.Cleanup? || d.point.Threw?)
  }

  lemma AgentStep(d: Dispatch, w: World, aborted: bool, a: Answer)
    requires MainOk(d, w) && d.point.Agent? && aborted == (d.signal in w.aborted)
    ensures MainOk(AfterAgent(d, aborted, a), w) && Raises(d, AfterAgent(d, aborted, a), aborted)
  {}

  lemma HeadStep(d: Dispatch, w: World, aborted: bool, a: Answer)
    requires MainOk(d, w) && d.point.Head? && aborted == (d.signal in w.aborted)
    ensures MainOk(AfterHead(d, aborted, a), w) && Raises(d, AfterHead(d, aborted, a), aborted)
  {}

  lemma BranchStep(d: Dispatch, w: World, aborted: bool, a: Answer)
    requires MainOk(d, w) && d.point.Branch? && aborted == (d.signal in w.aborted)
    ensures MainOk(AfterBranch(d, aborted, a), w) && Raises(d, AfterBranch(d, aborted, a), aborted)
  {}

  lemma StagingStep(d: Dispatch, w: World, aborted: bool, a: Answer)
    requires MainOk(d, w) && d.point.Staging? && aborted == (d.signal in w.aborted)
    ensures MainOk(AfterStaging(d, aborted, a), w) && Raises(d, AfterStaging(d, aborted, a), aborted)
  {}

  /** The dispatch between two verification commands, `i` of which have run. */
  ghost predicate BetweenCommands(d: Dispatch, w: World, i: nat) {
    && d.recorded && d.granted && (d.outcome.Succeeded? || d.outcome.Partial?)
    && (d.reason.None? <==> d.outcome.Succeeded?)
    && (d.outcome.Succeeded? <==> Unblemished(d.facts))
    && !d.facts.agent.CancelledEnd? && !d.facts.abortSeen && d.patch.None? && !d.facts.exportFailed
    && !d.facts.emptyClaim && !d.facts.agent.Pending?
    && d.facts.atBase == d.facts.detached == d.facts.staged == Some(true)
    && d.facts.diffClean.Some? && d.facts.commandsRun == i <= w.commands
  }

  lemma NextCommandStep(d: Dispatch, w: World, i: nat, aborted: bool, late: bool)
    requires BetweenCommands(d, w, i) && aborted == (d.signal in w.aborted)
    ensures var r := NextCommand(d, i, w.commands, aborted, late); MainOk(r, w) && Raises(d, r, aborted)
  {}

  lemma DiffCheckStep(d: Dispatch, w: World, aborted: bool, a: Answer)
    requires MainOk(d, w) && d.point.DiffCheck? && aborted == (d.signal in w.aborted)
    ensures var r := AfterDiffCheck(d, w.commands, aborted, a); MainOk(r, w) && Raises(d, r, aborted)
  {
    var ran := d.(facts := d.facts.(diffClean := Some(a.good)));
    NextCommandStep(if a.good then ran else MarkPartial(ran, CheckFailed), w, 0, aborted, a.late);
  }

  lemma CommandStep(d: Dispatch, w: World, aborted: bool, a: Answer)
    requires MainOk(d, w) && d.point.Command? && aborted == (d.signal in w.aborted)
    ensures MainOk(AfterCommand(d, d.point.index, w.commands, aborted, a), w)
    ensures Raises(d, AfterCommand(d, d.point.index, w.commands, aborted, a), aborted)
  {
    CommandRan(d, w, a);
    NextCommandStep(AfterRun(d, d.point.index, a), w, d.point.index + 1, aborted, a.late);
  }

  lemma CommandRan(d: Dispatch, w: World, a: Answer)
    requires MainOk(d, w) && d.point.Command?
    ensures BetweenCommands(AfterRun(d, d.point.index, a), w, d.point.index + 1)
    ensures Rank(d.outcome) <= Rank(AfterRun(d, d.point.index, a).outcome)
  {}

  lemma ExportStep(d: Dispatch, w: World, aborted: bool, a: Answer)
    requires MainOk(d, w) && d.point.Export? && aborted == (d.signal in w.aborted)
    ensures MainOk(AfterExport(d, aborted, a), w) && Raises(d, AfterExport(d, aborted, a), aborted)
  {}

  lemma AdvanceStep(d: Dispatch, w: World, aborted: bool, a: Answer)
    requires MainOk(d, w) && Working(d.point) && aborted == (d.signal in w.aborted)
    ensures MainOk(Advance(d, w.commands, aborted, a), w) && Raises(d, Advance(d, w.commands, aborted, a), aborted)
  {
    match d.point
    case Agent => AgentStep(d, w, aborted, a);
    case Export => ExportStep(d, w, aborted, a);
    case Head => HeadStep(d, w, aborted, a);
    case Branch => BranchStep(d, w, aborted, a);
    case Staging => StagingStep(d, w, aborted, a);
    case DiffCheck => DiffCheckStep(d, w, aborted, a);
    case Command(i) => CommandStep(d, w, aborted, a);
  }

  function Commit(w: World, r: Local): (w': World) {
    w.(claimed := r.claimed, records := r.records, worktrees := r.worktrees)
  }

  /** Preparing moves the point and sets flags; nothing is decided yet. */
  ghost predicate Prepared(d: Dispatch, r: Dispatch) {
    && r.outcome == d.outcome && r.reason == d.reason && r.patch == d.patch && r.facts == d.facts
    && (r.recorded <==> r.point.Agent?)
    && (Preparing(r.point) || r.point.Agent? || r.point.Threw? || r.point.Returned?)
  }

  lemma PrepareMoves(d: Dispatch, w: World, aborted: bool, a: Answer)
    requires FlagsOk(d, w) && Preparing(d.point)
    ensures Prepared(d, Prepare(d, w, aborted, a).d)
  {}

  lemma PreparedOutcome(d: Dispatch, r: Dispatch, w: World, w': World)
    requires OutcomeOk(d, w) && FlagsOk(d, w) && Preparing(d.point) && Prepared(d, r) && w'.commands == w.commands
    ensures OutcomeOk(r, w')
  {}

  lemma StartFlags(d: Dispatch, w: World, aborted: bool, a: Answer)
    requires FlagsOk(d, w) && d.point.Start?
    ensures FlagsOk(Prepare(d, w, aborted, a).d, Commit(w, Prepare(d, w, aborted, a)))
  {}

  lemma PrepareFlags(d: Dispatch, w: World, aborted: bool, a: Answer)
    requires FlagsOk(d, w) && Preparing(d.point)
    ensures FlagsOk(Prepare(d, w, aborted, a).d, Commit(w, Prepare(d, w, aborted, a)))
  {
    if d.point.Start? { StartFlags(d, w, aborted, a); } else { GrantedFlags(d, w, aborted, a); }
  }

  lemma GrantedFlags(d: Dispatch, w: World, aborted: bool, a: Answer)
    requires FlagsOk(d, w) && Preparing(d.point) && !d.point.Start?
    ensures FlagsOk(Prepare(d, w, aborted, a).d, Commit(w, Prepare(d, w, aborted, a)))
  {
    match d.point
    case Revision =>
    case Creating =>
    case Abandoning =>
    case WritingRunning =>
  }

  lemma PrepareRecord(d: Dispatch, w: World, aborted: bool, a: Answer)
    requires FlagsOk(d, w) && Preparing(d.point)
    ensures RecordOk(Prepare(d, w, aborted, a).d, Commit(w, Prepare(d, w, aborted, a)))
  {}

  lemma SettleFlags(d: Dispatch, w: World, a: Answer)
    requires FlagsOk(d, w) && !Preparing(d.point) && !Working(d.point)
    ensures FlagsOk(Settle(d, w, a).d, Commit(w, Settle(d, w, a)))
  {}

  lemma SettleRecord(d: Dispatch, w: World, a: Answer)
    requires FlagsOk(d, w) && RecordOk(d, w) && !Preparing(d.point) && !Working(d.point)
    ensures RecordOk(Settle(d, w, a).d, Commit(w, Settle(d, w, a)))
  {}

  /** Settling moves the point; what was learnt and decided stays. */
  lemma SettleMoves(d: Dispatch, w: World, a: Answer)
    requires !Preparing(d.point) && !Working(d.point)
    ensures var r := Settle(d, w, a).d;
            && r.signal == d.signal && r.outcome == d.outcome && r.reason == d.reason
            && r.patch == d.patch && r.facts == d.facts && r.recorded == d.recorded
            && !Working(r.point) && (AfterCleanup(r.point) ==> AfterCleanup(d.point))
  {
    match d.point
    case Cleanup =>
    case WritingInterrupted =>
    case RemovingRecord =>
    case Artifacts =>
    case _ =>
  }

  lemma SettledOutcome(d: Dispatch, r: Dispatch, w: World, w': World)
    requires OutcomeOk(d, w) && w'.commands == w.commands && w'.aborted == w.aborted
    requires && r.signal == d.signal && r.outcome == d.outcome && r.reason == d.reason
             && r.patch == d.patch && r.facts == d.facts && r.recorded == d.recorded
             && !Working(r.point) && (AfterCleanup(r.point) ==> AfterCleanup(d.point))
    ensures OutcomeOk(r, w')
  {}

  lemma SettleOutcome(d: Dispatch, w: World, a: Answer)
    requires DispatchOk(d, w) && !Preparing(d.point) && !Working(d.point)
    ensures OutcomeOk(Settle(d, w, a).d, Commit(w, Settle(d, w, a)))
  {
    SettleMoves(d, w, a);
    SettledOutcome(d, Settle(d, w, a).d, w, Commit(w, Settle(d, w, a)));
  }

  /** The dispatch that steps keeps its own invariant. */
  lemma OwnStep(d: Dispatch, w: World, a: Answer)
    requires DispatchOk(d, w)
    ensures DispatchOk(Resume(d, w, a).d, Commit(w, Resume(d, w, a)))
  {
    if Preparing(d.point) {
      var r := Prepare(d, w, d.signal in w.aborted, a);
      PrepareFlags(d, w, d.signal in w.aborted, a);
      PrepareRecord(d, w, d.signal in w.aborted, a);
      PrepareMoves(d, w, d.signal in w.aborted, a);
      PreparedOutcome(d, r.d, w, Commit(w, r));
    } else if Working(d.point) {
      AdvanceStep(d, w, d.signal in w.aborted, a);
    } else {
      SettleFlags(d, w, a);
      SettleRecord(d, w, a);
      SettleOutcome(d, w, a);
    }
  }

  lemma PrepareTree(d: Dispatch, w: World, aborted: bool, a: Answer)
    requires FlagsOk(d, w) && TreeOk(d, w) && Preparing(d.point)
    ensures TreeOk(Prepare(d, w, aborted, a).d, Commit(w, Prepare(d, w, aborted, a)))
  {
    PrepareMoves(d, w, aborted, a);
  }

  lemma SettleTree(d: Dispatch, w: World, a: Answer)
    requires FlagsOk(d, w) && TreeOk(d, w) && !Preparing(d.point) && !Working(d.point)
    ensures TreeOk(Settle(d, w, a).d, Commit(w, Settle(d, w, a)))
  {}

  lemma OwnTree(d: Dispatch, w: World, a: Answer)
    requires DispatchOk(d, w) && TreeOk(d, w)
    ensures TreeOk(Resume(d, w, a).d, Commit(w, Resume(d, w, a)))
  {
    if Preparing(d.point) {
      PrepareTree(d, w, d.signal in w.aborted, a);
    } else if Working(d.point) {
      AdvanceStep(d, w, d.signal in w.aborted, a);
    } else {
      SettleTree(d, w, a);
    }
  }

  // ----- other dispatches ------------------------------------------------

  /** What a step of a dispatch may do to the state it shares with the others. */
  ghost predicate Framed(d: Dispatch, w: World, r: Local) {
    && r.d.id == d.id && r.d.signal == d.signal
    && w.claimed <= r.claimed
    && (d.granted ==> r.d.granted)
    && (r.d.granted && !d.granted ==> d.id !in w.claimed)
    && (!r.d.granted ==> r.records == w.records && r.worktrees == w.worktrees)
    && (forall id | id != d.id :: OwnRecord(r.records, id) == OwnRecord(w.records, id))
    && (forall id | id != d.id :: id in r.worktrees <==> id in w.worktrees)
  }

  function OwnRecord(records: map<Id, Record>, id: Id): (r: Option<Record>) {
    if id in records then Some(records[id]) else None
  }

  lemma PrepareFrame(d: Dispatch, w: World, aborted: bool, a: Answer)
    requires FlagsOk(d, w) && Preparing(d.point)
    ensures Framed(d, w, Prepare(d, w, aborted, a))
  {}

  lemma SettleFrame(d: Dispatch, w: World, a: Answer)
    requires FlagsOk(d, w) && !Preparing(d.point) && !Working(d.point)
    ensures Framed(d, w, Settle(d, w, a))
  {}

  /** Only the dispatch that was granted the claim touches its record and its worktree. */
  lemma ResumeFrame(d: Dispatch, w: World, a: Answer)
    requires DispatchOk(d, w)
    ensures Framed(d, w, Resume(d, w, a))
  {
    var aborted := d.signal in w.aborted;
    if Preparing(d.point) {
      PrepareFrame(d, w, aborted, a);
    } else if Working(d.point) {
      AdvanceStep(d, w, aborted, a);
    } else {
      SettleFrame(d, w, a);
    }
  }

  /** A dispatch is not disturbed by a step that leaves its own record alone. */
  lemma Undisturbed(d: Dispatch, w: World, w': World)
    requires DispatchOk(d, w)
    requires w'.commands == w.commands && w.claimed <= w'.claimed && w.aborted <= w'.aborted
    requires d.granted ==> OwnRecord(w'.records, d.id) == OwnRecord(w.records, d.id)
    ensures DispatchOk(d, w')
  {}

  lemma UndisturbedTree(d: Dispatch, w: World, w': World)
    requires FlagsOk(d, w) && TreeOk(d, w) && (d.granted ==> (d.id in w'.worktrees <==> d.id in w.worktrees))
    ensures TreeOk(d, w')
  {}

  lemma WakeKeeps(w: World, i: nat, a: Answer)
    requires Inv(w) && i < |w.dispatches|
    ensures Inv(Step(w, Wake(i, a)))
  {
    var d := w.dispatches[i];
    var r := Resume(d, w, a);
    var w' := Step(w, Wake(i, a));
    OwnStep(d, w, a);
    OwnTree(d, w, a);
    ResumeFrame(d, w, a);
    forall j | 0 <= j < |w.dispatches| && j != i
      ensures DispatchOk(w.dispatches[j], w') && TreeOk(w.dispatches[j], w')
      ensures w.dispatches[j].granted && r.d.granted ==> w.dispatches[j].id != d.id
    {
      var o := w.dispatches[j];
      Apart(w, i, j, r);
      Undisturbed(o, w, w');
      UndisturbedTree(o, w, w');
    }
    OnlyDispatchesDiffer(r.d, Commit(w, r), w');
  }

  lemma OnlyDispatchesDiffer(d: Dispatch, w: World, w': World)
    requires DispatchOk(d, w)
    requires w' == w.(dispatches := w'.dispatches)
    ensures DispatchOk(d, w')
  {}

  /** Two dispatches of one request are never both granted, and granted ones stay apart. */
  lemma Apart(w: World, i: nat, j: nat, r: Local)
    requires Inv(w) && i < |w.dispatches| && j < |w.dispatches| && i != j && Framed(w.dispatches[i], w, r)
    ensures w.dispatches[j].granted && r.d.granted ==> w.dispatches[j].id != w.dispatches[i].id
    ensures w.dispatches[j].granted ==>
              OwnRecord(r.records, w.dispatches[j].id) == OwnRecord(w.records, w.dispatches[j].id)
    ensures w.dispatches[j].granted ==> (w.dispatches[j].id in r.worktrees <==> w.dispatches[j].id in w.worktrees)
  {
    var d, o := w.dispatches[i], w.dispatches[j];
    assert DispatchOk(o, w);
    if o.granted && d.granted {
      assert o.id != d.id;
    }
  }

  lemma StepKeeps(w: World, e: Event)
    requires Inv(w)
    ensures Inv(Step(w, e))
  {
    var w' := Step(w, e);
    match e
    case Arrive(id, signal) =>
      forall i | 0 <= i < |w.dispatches| ensures DispatchOk(w.dispatches[i], w') {
        Undisturbed(w.dispatches[i], w, w');
      }
    case Abort(signal) =>
      forall i | 0 <= i < |w.dispatches| ensures DispatchOk(w.dispatches[i], w') {
        Undisturbed(w.dispatches[i], w, w');
      }
    case Wake(i, a) =>
      if i < |w.dispatches| { WakeKeeps(w, i, a); }
  }

  /** A worker about to take its first dispatch; anything may be left from before. */
  ghost predicate Idle(w: World) { w.dispatches == [] }

  lemma {:induction false} RunKeeps(w: World, events: seq<Event>)
    requires Idle(w)
    ensures Inv(Run(w, events))
  {
    if events != [] {
      RunKeeps(w, events[..|events| - 1]);
      StepKeeps(Run(w, events[..|events| - 1]), events[|events| - 1]);
    }
  }

  // ----- what a dispatch keeps from step to step -------------------------

  /** Entering the cleanup records whether the last check saw an abort. */
  ghost predicate Follows(d: Dispatch, d': Dispatch, aborted: bool) {
    && d'.id == d.id && d'.signal == d.signal
    && (d.granted ==> d'.granted)
    && (d.recorded ==> d'.recorded && Rank(d.outcome) <= Rank(d'.outcome))
    && (d.recorded && AfterCleanup(d.point) ==> d'.facts == d.facts && d'.outcome == d.outcome)
    && (!AfterCleanup(d.point) && AfterCleanup(d'.point) && d'.recorded ==> d'.facts.abortSeen == aborted)
  }

  lemma PrepareFollows(d: Dispatch, w: World, aborted: bool, a: Answer)
    requires FlagsOk(d, w) && Preparing(d.point)
    ensures Follows(d, Prepare(d, w, aborted, a).d, aborted)
  {}

  lemma SettleFollows(d: Dispatch, w: World, aborted: bool, a: Answer)
    requires FlagsOk(d, w) && !Preparing(d.point) && !Working(d.point)
    ensures Follows(d, Settle(d, w, a).d, aborted)
  {}

  lemma ResumeFollows(d: Dispatch, w: World, a: Answer)
    requires DispatchOk(d, w)
    ensures Follows(d, Resume(d, w, a).d, d.signal in w.aborted)
  {
    var aborted := d.signal in w.aborted;
    if Preparing(d.point) {
      PrepareFollows(d, w, aborted, a);
    } else if Working(d.point) {
      AdvanceStep(d, w, aborted, a);
    } else {
      SettleFollows(d, w, aborted, a);
    }
  }

  lemma StepFollows(w: World, e: Event, i: nat)
    requires Inv(w) && i < |w.dispatches|
    ensures i < |Step(w, e).dispatches| && w.aborted <= Step(w, e).aborted
    ensures Step(w, e).dispatches[i] == w.dispatches[i]
            || Follows(w.dispatches[i], Step(w, e).dispatches[i], w.dispatches[i].signal in w.aborted)
  {
    if e.Wake? && e.index == i { ResumeFollows(w.dispatches[i], w, e.answer); }
  }

  // ----- whole runs ------------------------------------------------------

  /** The same dispatch later: it keeps its identity and its claim, and its rank has not fallen. */
  ghost predicate Later(d: Dispatch, d': Dispatch) {
    && d'.id == d.id && d'.signal == d.signal && (d.granted ==> d'.granted)
    && (d.recorded ==> d'.recorded && Rank(d.outcome) <= Rank(d'.outcome))
  }

  lemma LaterStep(w: World, e: Event, i: nat, d: Dispatch)
    requires Inv(w) && i < |w.dispatches| && Later(d, w.dispatches[i])
    ensures i < |Step(w, e).dispatches| && Later(d, Step(w, e).dispatches[i])
  {
    StepFollows(w, e, i);
  }

  /** From any moment of a run to its end a dispatch keeps its identity, its claim and its rank. */
  lemma {:induction false} RunFollows(w: World, events: seq<Event>, m: nat, i: nat)
    requires Idle(w) && m <= |events| && i < |Run(w, events[..m]).dispatches|
    ensures i < |Run(w, events).dispatches|
    ensures Later(Run(w, events[..m]).dispatches[i], Run(w, events).dispatches[i])
  {
    if m == |events| {
      assert events[..m] == events;
    } else {
      var front := events[..|events| - 1];
      assert front[..m] == events[..m];
      RunFollows(w, front, m, i);
      RunKeeps(w, front);
      LaterStep(Run(w, front), events[|events| - 1], i, Run(w, events[..m]).dispatches[i]);
    }
  }

  /**
   In every interleaving at most one dispatch per execution request ever gets past
   the claim: whoever holds it at one moment and whoever holds it later are one.
   */
  lemma SingleOwner(w: World, events: seq<Event>, m: nat, i: nat, j: nat)
    requires Idle(w) && m <= |events| && i < |Run(w, events[..m]).dispatches| && j < |Run(w, events).dispatches|
    requires Run(w, events[..m]).dispatches[i].granted && Run(w, events).dispatches[j].granted
    requires Run(w, events[..m]).dispatches[i].id == Run(w, events).dispatches[j].id
    ensures i == j
  {
    RunFollows(w, events, m, i);
    RunKeeps(w, events);
  }

  /**
   A dispatch that returned after writing its running record left the recovery
   record in place, and returned it, exactly when it did not succeed, and left its
   worktree exactly when the cleanup did not.
   */
  lemma RecoveryExact(w: World, events: seq<Event>, i: nat)
    requires Idle(w) && i < |Run(w, events).dispatches|
    requires Run(w, events).dispatches[i].recorded && Run(w, events).dispatches[i].point.Returned?
    ensures var d, end := Run(w, events).dispatches[i], Run(w, events);
            var o := d.point.output;
            && (d.id in end.records <==> o.outcome != Succeeded)
            && o.recovery == OwnRecord(end.records, d.id)
            && (o.recovery.Some? ==> o.recovery == Some(Interrupted(d.cleanupSucceeded)))
            && (o.reason.None? <==> o.outcome == Succeeded)
            && (d.id in end.worktrees <==> !d.cleanupSucceeded)
  {
    RunKeeps(w, events);
    assert DispatchOk(Run(w, events).dispatches[i], Run(w, events));
  }

  /** Everything a success rests on. */
  predicate Flawless(d: Dispatch, commands: nat) {
    var f := d.facts;
    && f.agent == Completed
    && f.atBase == Some(true) && f.detached == Some(true) && f.staged == Some(true) && f.diffClean == Some(true)
    && f.commandsRun == commands && !f.timedOut && !f.exhausted
    && d.patch.Some? && !f.exportFailed && !f.emptyClaim
  }

  lemma FinishedOutcome(d: Dispatch, w: World)
    requires OutcomeOk(d, w) && d.recorded && AfterCleanup(d.point)
    ensures d.outcome == Cancelled <==> d.facts.abortSeen || d.facts.agent == CancelledEnd
    ensures d.outcome == Succeeded <==> !d.facts.abortSeen && Flawless(d, w.commands)
  {
    if d.outcome == Succeeded {
      Known(d.facts.atBase);
      Known(d.facts.detached);
      Known(d.facts.staged);
      Known(d.facts.diffClean);
    }
  }

  lemma Known(o: Option<bool>)
    requires o.Some? && o != Some(false)
    ensures o == Some(true)
  {
    var b: bool := o.value;
    assert o == Some(b) && b == true;
  }

  /** The abort came before the last check of a dispatch that has not reached it. */
  ghost predicate Doomed(d: Dispatch, w: World) {
    && d.signal in w.aborted
    && (AfterCleanup(d.point) && d.recorded ==> d.facts.abortSeen)
    && (d.point.Returned? ==> d.recorded)
  }

  lemma {:induction false} AbortDooms(w: World, events: seq<Event>, m: nat, i: nat)
    requires Idle(w) && m <= |events| && i < |Run(w, events[..m]).dispatches|
    requires WorkingAborted(Run(w, events[..m]), i)
    ensures i < |Run(w, events).dispatches| && DoomedAt(Run(w, events), i)
  {
    if m == |events| {
      assert events[..m] == events;
      RunKeeps(w, events);
      StillWorking(Run(w, events).dispatches[i], Run(w, events));
    } else {
      var front := events[..|events| - 1];
      assert front[..m] == events[..m];
      AbortDooms(w, front, m, i);
      RunKeeps(w, front);
      StaysDoomed(Run(w, front), events[|events| - 1], i);
    }
  }

  /** An abort before the last check cancels the dispatch, whatever else happens. */
  lemma AbortCancels(w: World, events: seq<Event>, m: nat, i: nat)
    requires Idle(w) && m <= |events| && i < |Run(w, events[..m]).dispatches|
    requires WorkingAborted(Run(w, events[..m]), i)
    ensures i < |Run(w, events).dispatches|
    ensures var d := Run(w, events).dispatches[i]; d.point.Returned? ==> d.point.output.outcome == Cancelled
  {
    AbortDooms(w, events, m, i);
    RunKeeps(w, events);
    DoomedCancelled(Run(w, events), i);
  }

  /** The dispatch is in the main section and its signal is aborted. */
  predicate WorkingAborted(w: World, i: nat)
    requires i < |w.dispatches|
  {
    w.dispatches[i].signal in w.aborted && Working(w.dispatches[i].point)
  }

  ghost predicate DoomedAt(w: World, i: nat)
    requires i < |w.dispatches|
  {
    Doomed(w.dispatches[i], w) && w.dispatches[i].recorded
  }

  lemma StillWorking(d: Dispatch, w: World)
    requires DispatchOk(d, w) && Working(d.point) && d.signal in w.aborted
    ensures Doomed(d, w) && d.recorded
  {}

  /** A doomed dispatch stays doomed. */
  lemma StaysDoomed(w: World, e: Event, i: nat)
    requires Inv(w) && i < |w.dispatches| && DoomedAt(w, i)
    ensures i < |Step(w, e).dispatches| && DoomedAt(Step(w, e), i)
  {
    StepFollows(w, e, i);
  }

  lemma DoomedCancelled(w: World, i: nat)
    requires Inv(w) && i < |w.dispatches| && DoomedAt(w, i)
    ensures var d := w.dispatches[i]; d.point.Returned? ==> d.point.output.outcome == Cancelled
  {
    assert DispatchOk(w.dispatches[i], w);
  }
}
