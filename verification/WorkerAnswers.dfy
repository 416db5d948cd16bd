/**
 What a dispatch returns, read off the answers it was given. The journal of a
 dispatch is what each of its awaits answered and whether its signal was aborted
 then; the output follows from the journal alone.
 */
module WorkerAnswers {
  import opened Wrappers
  import opened Worker

  datatype Told = Told(point: Point, aborted: bool, answer: Answer)

  predicate Settled(p: Point) { p.Returned? || p.Threw? }

  /** The answers that dispatch `i` was given in a run. */
  function Journal(w: World, events: seq<Event>, i: nat): (j: seq<Told>) {
    if events == [] then []
    else
      var n := |events| - 1;
      Journal(w, events[..n], i) + Heard(Run(w, events[..n]), events[n], i)
  }

  function Heard(w: World, e: Event, i: nat): (j: seq<Told>) {
    if e.Wake? && e.index == i && i < |w.dispatches| && !Settled(w.dispatches[i].point)
    then [Told(w.dispatches[i].point, w.dispatches[i].signal in w.aborted, e.answer)] else []
  }

  type Answers = map<Point, Told>

  /** The last answer given at each await. */
  function AnswersIn(j: seq<Told>): (at: Answers) {
    if j == [] then map[] else AnswersIn(j[..|j| - 1])[j[|j| - 1].point := j[|j| - 1]]
  }

  // ----- the table of blemishes ------------------------------------------

  predicate AgentDone(at: Answers) { Agent in at && !at[Agent].answer.threw }

  /** What one answer holds against success; `n` commands are configured. */
  function Blemish(n: nat, done: bool, t: Told): (r: Option<Reason>) {
    var a := t.answer;
    match t.point
    case Agent =>
      if !a.threw then None
      else Some(if a.cancelled then AgentCancelled else if a.timedOut then AgentTimedOut else AgentFailed)
    case Head => if a.good then None else Some(StateViolation)
    case Branch => if a.good then None else Some(StateViolation)
    case Staging => if a.good then None else Some(AddFailed)
    case DiffCheck => if a.late && 0 < n then Some(DurationExceeded) else if a.good then None else Some(CheckFailed)
    case Command(k) =>
      if a.late && k + 1 < n then Some(DurationExceeded) else if a.timedOut then Some(CommandTimedOut) else None
    case Export =>
      if a.threw then Some(ExportFailed)
      else if a.patch == "" && a.claimsChanges && done then Some(EmptyPatch) else None
    case _ => None
  }

  /** The last thing that an answer holds against success. */
  function LastBlemish(n: nat, j: seq<Told>): (r: Option<Reason>) {
    if j == [] then None
    else
      var last := Blemish(n, AgentDone(AnswersIn(j)), j[|j| - 1]);
      if last.Some? then last else LastBlemish(n, j[..|j| - 1])
  }

  /** Whether the last check of the main section saw an abort. */
  predicate LastCheck(j: seq<Told>) {
    j != [] && if Working(j[|j| - 1].point) then j[|j| - 1].aborted else LastCheck(j[..|j| - 1])
  }

  predicate AgentWasCancelled(at: Answers) { Agent in at && at[Agent].answer.threw && at[Agent].answer.cancelled }

  function Exported(at: Answers): (p: Option<string>) {
    if Export in at && !at[Export].answer.threw then Some(at[Export].answer.patch) else None
  }

  /** The agent claimed changes and the exported patch is empty. */
  predicate EmptyClaim(at: Answers) {
    AgentDone(at) && Exported(at) == Some("") && at[Export].answer.claimsChanges
  }

  predicate CleanedUp(at: Answers) { Cleanup in at && !at[Cleanup].answer.threw && at[Cleanup].answer.good }

  predicate GoodAt(at: Answers, p: Point) { p in at && at[p].answer.good }

  /** Command `k` ran without a timeout and left time for the next one. */
  predicate CommandFine(n: nat, at: Answers, k: nat) {
    && Command(k) in at && !at[Command(k)].answer.timedOut
    && (k + 1 < n ==> !at[Command(k)].answer.late)
  }

  /** Every answer that a success needs, given and good. */
  predicate AllFine(n: nat, at: Answers) {
    && AgentDone(at)
    && GoodAt(at, Head) && GoodAt(at, Branch) && GoodAt(at, Staging) && GoodAt(at, DiffCheck)
    && (0 < n ==> !at[DiffCheck].answer.late)
    && (forall k: nat | k < n :: CommandFine(n, at, k))
    && Export in at && !at[Export].answer.threw
    && (at[Export].answer.claimsChanges ==> at[Export].answer.patch != "")
  }

  // ----- what a dispatch knows is what it was told -----------------------

  /** What matters of a journal. */
  datatype Digest = Digest(at: Answers, aborted: bool, blemish: Option<Reason>)

  function DigestOf(n: nat, j: seq<Told>): (g: Digest) { Digest(AnswersIn(j), LastCheck(j), LastBlemish(n, j)) }

  function Add(n: nat, g: Digest, t: Told): (r: Digest) {
    var at := g.at[t.point := t];
    var last := Blemish(n, AgentDone(at), t);
    Digest(at, if Working(t.point) then t.aborted else g.aborted, if last.Some? then last else g.blemish)
  }

  lemma DigestAppend(n: nat, j: seq<Told>, t: Told)
    ensures DigestOf(n, j + [t]) == Add(n, DigestOf(n, j), t)
  {
    assert (j + [t])[..|j|] == j;
  }

  function EndAt(at: Answers): (r: AgentEnd) {
    if Agent !in at then Pending
    else if !at[Agent].answer.threw then Completed
    else if at[Agent].answer.cancelled then CancelledEnd
    else FailedEnd
  }

  /** Which awaits of the main section have been answered. */
  ghost predicate Present(f: Facts, at: Answers) {
    && f.agent == EndAt(at)
    && (f.atBase.Some? <==> Head in at) && (f.detached.Some? <==> Branch in at)
    && (f.staged.Some? <==> Staging in at) && (f.diffClean.Some? <==> DiffCheck in at)
    && CommandsIn(at, f.commandsRun)
  }

  /** The first `c` commands were answered, and no other. */
  ghost predicate CommandsIn(at: Answers, c: nat) { forall k: nat :: Command(k) in at <==> k < c }

  lemma CommandsGrow(at: Answers, c: nat, t: Told)
    requires CommandsIn(at, c) && t.point == Command(c)
    ensures CommandsIn(at[t.point := t], c + 1)
  {
    forall k: nat ensures Command(k) in at[t.point := t] <==> k < c + 1 {
      assert Command(k) == Command(c) <==> k == c;
    }
  }

  lemma CommandsStay(at: Answers, c: nat, t: Told)
    requires CommandsIn(at, c) && !t.point.Command?
    ensures CommandsIn(at[t.point := t], c)
  {}

  /** What holds from the main section on. */
  ghost predicate Reports(d: Dispatch, g: Digest) {
    && (d.facts.emptyClaim <==> EmptyClaim(g.at))
    && Present(d.facts, g.at) && d.patch == Exported(g.at) && (Working(d.point) ==> Export !in g.at)
    && (AfterCleanup(d.point) ==> d.facts.abortSeen == g.aborted)
    && d.reason == (if d.outcome == Cancelled then Some(AgentCancelled) else g.blemish)
    && (AfterCleanup(d.point) && !d.point.Cleanup? ==> d.cleanupSucceeded == CleanedUp(g.at))
  }

  // ----- each step of the main section -----------------------------------

  /** What a step of the main section needs to know of its dispatch. */
  ghost predicate Awaiting(d: Dispatch, n: nat, g: Digest, t: Told) {
    && Working(d.point) && t.point == d.point && d.outcome != Cancelled && d.patch.None? && Reports(d, g)
    && (d.point.Command? ==> d.facts.commandsRun == d.point.index < n)
  }

  lemma FinallyTold(d: Dispatch, aborted: bool, g: Digest)
    requires d.facts.emptyClaim <==> EmptyClaim(g.at)
    requires Present(d.facts, g.at) && d.patch == Exported(g.at) && g.aborted == aborted
    requires d.reason == if d.outcome == Cancelled then Some(AgentCancelled) else g.blemish
    ensures Reports(Finally(d, aborted), g)
  {}

  lemma AfterCommandsTold(d: Dispatch, aborted: bool, g: Digest)
    requires d.facts.emptyClaim <==> EmptyClaim(g.at)
    requires Present(d.facts, g.at) && d.patch == Exported(g.at) && g.aborted == aborted && Export !in g.at
    requires d.reason == if d.outcome == Cancelled then Some(AgentCancelled) else g.blemish
    ensures Reports(AfterCommands(d, aborted), g)
  {
    var checked := if aborted then MarkCancelled(d) else d;
    if checked.outcome == Cancelled { FinallyTold(checked, aborted, g); }
  }

  lemma NextTold(d: Dispatch, i: nat, n: nat, aborted: bool, late: bool, g: Digest)
    requires !d.facts.emptyClaim
    requires Present(d.facts, g.at) && d.patch == Exported(g.at) && Export !in g.at && d.outcome != Cancelled
    requires g.aborted == aborted
    requires g.blemish == if late && i < n then Some(DurationExceeded) else d.reason
    ensures Reports(NextCommand(d, i, n, aborted, late), g)
  {
    if i >= n {
      AfterCommandsTold(d, aborted, g);
    } else if aborted {
      AfterCommandsTold(MarkCancelled(d), aborted, g);
    } else if late {
      AfterCommandsTold(MarkPartial(d.(facts := d.facts.(exhausted := true)), DurationExceeded), aborted, g);
    }
  }

  /** An answer outside the checks of the main section changes none of them. */
  lemma PresentOther(f: Facts, at: Answers, t: Told)
    requires Present(f, at) && (t.point.Export? || !Working(t.point))
    ensures Present(f, at[t.point := t]) && (AgentDone(at[t.point := t]) <==> f.agent.Completed?)
  {
    CommandsStay(at, f.commandsRun, t);
  }

  /** One more command, and nothing else, was noted. */
  predicate OneMore(f: Facts, f': Facts) {
    && f'.agent == f.agent && f'.atBase == f.atBase && f'.detached == f.detached && f'.staged == f.staged
    && f'.diffClean == f.diffClean && f'.commandsRun == f.commandsRun + 1
  }

  lemma PresentRan(f: Facts, f': Facts, at: Answers, t: Told)
    requires Present(f, at) && t.point == Command(f.commandsRun) && OneMore(f, f')
    ensures Present(f', at[t.point := t])
  {
    CommandsGrow(at, f.commandsRun, t);
    assert EndAt(at[t.point := t]) == EndAt(at);
  }

  lemma RanIs(d: Dispatch, k: nat, a: Answer)
    requires d.outcome != Cancelled && d.facts.commandsRun == k
    ensures var r := AfterRun(d, k, a);
            && OneMore(d.facts, r.facts) && r.outcome != Cancelled && r.patch == d.patch
            && r.facts.emptyClaim == d.facts.emptyClaim
            && r.reason == if a.timedOut then Some(CommandTimedOut) else d.reason
  {
    if a.timedOut {
      assert AfterRun(d, k, a).facts == d.facts.(commandsRun := k + 1, timedOut := true);
    } else {
      assert AfterRun(d, k, a).facts == d.facts.(commandsRun := k + 1);
    }
  }

  lemma EndedIs(d: Dispatch, a: Answer)
    requires d.outcome != Cancelled
    ensures var r := AgentEnded(d, a);
            && r.patch == d.patch && r.facts == d.facts.(agent := r.facts.agent)
            && r.facts.agent == (if !a.threw then Completed else if a.cancelled then CancelledEnd else FailedEnd)
            && (r.outcome == Cancelled <==> a.threw && a.cancelled)
            && r.reason == (if !a.threw then d.reason
                            else Some(if a.cancelled then AgentCancelled
                                      else if a.timedOut then AgentTimedOut else AgentFailed))
  {
    if !a.threw {
      assert AgentEnded(d, a).facts == d.facts.(agent := Completed);
    } else if a.cancelled {
      assert AgentEnded(d, a).facts == d.facts.(agent := CancelledEnd);
    } else {
      assert AgentEnded(d, a).facts == d.facts.(agent := FailedEnd);
    }
  }

  lemma AgentTold(d: Dispatch, n: nat, g: Digest, t: Told)
    requires Awaiting(d, n, g, t) && d.point.Agent?
    ensures Reports(AfterAgent(d, t.aborted, t.answer), Add(n, g, t))
  {
    var a, g' := t.answer, Add(n, g, t);
    CommandsStay(g.at, d.facts.commandsRun, t);
    var ended := AgentEnded(d, a);
    EndedIs(d, a);
    assert Present(ended.facts, g'.at);
    if t.aborted {
      FinallyTold(MarkCancelled(ended), t.aborted, g');
    } else if ended.outcome == Cancelled {
      FinallyTold(ended, t.aborted, g');
    }
  }

  lemma HeadTold(d: Dispatch, n: nat, g: Digest, t: Told)
    requires Awaiting(d, n, g, t) && d.point.Head?
    ensures Reports(AfterHead(d, t.aborted, t.answer), Add(n, g, t))
  {
    var ran, g' := d.(facts := d.facts.(atBase := Some(t.answer.good))), Add(n, g, t);
    CommandsStay(g.at, d.facts.commandsRun, t);
    assert Present(ran.facts, g'.at);
    if !t.answer.good { FinallyTold(MarkPartial(ran, StateViolation), t.aborted, g'); }
  }

  lemma BranchTold(d: Dispatch, n: nat, g: Digest, t: Told)
    requires Awaiting(d, n, g, t) && d.point.Branch?
    ensures Reports(AfterBranch(d, t.aborted, t.answer), Add(n, g, t))
  {
    var ran, g' := d.(facts := d.facts.(detached := Some(t.answer.good))), Add(n, g, t);
    CommandsStay(g.at, d.facts.commandsRun, t);
    assert Present(ran.facts, g'.at);
    if !t.answer.good { FinallyTold(MarkPartial(ran, StateViolation), t.aborted, g'); }
  }

  lemma StagingTold(d: Dispatch, n: nat, g: Digest, t: Told)
    requires Awaiting(d, n, g, t) && d.point.Staging?
    ensures Reports(AfterStaging(d, t.aborted, t.answer), Add(n, g, t))
  {
    var ran, g' := d.(facts := d.facts.(staged := Some(t.answer.good))), Add(n, g, t);
    CommandsStay(g.at, d.facts.commandsRun, t);
    assert Present(ran.facts, g'.at);
    if !t.answer.good { FinallyTold(MarkPartial(ran, AddFailed), t.aborted, g'); }
  }

  lemma DiffCheckTold(d: Dispatch, n: nat, g: Digest, t: Told)
    requires Awaiting(d, n, g, t) && d.point.DiffCheck?
    ensures Reports(AfterDiffCheck(d, n, t.aborted, t.answer), Add(n, g, t))
  {
    var ran, g' := d.(facts := d.facts.(diffClean := Some(t.answer.good))), Add(n, g, t);
    CommandsStay(g.at, d.facts.commandsRun, t);
    assert Present(ran.facts, g'.at);
    if t.answer.good {
      NextTold(ran, 0, n, t.aborted, t.answer.late, g');
    } else {
      NextTold(MarkPartial(ran, CheckFailed), 0, n, t.aborted, t.answer.late, g');
    }
  }

  lemma CommandAdds(n: nat, g: Digest, t: Told, k: nat)
    requires t.point == Command(k) && Export !in g.at
    ensures var g' := Add(n, g, t);
            && g'.at == g.at[t.point := t] && Export !in g'.at && g'.aborted == t.aborted
            && g'.blemish == (if t.answer.late && k + 1 < n then Some(DurationExceeded)
                              else if t.answer.timedOut then Some(CommandTimedOut)
                              else g.blemish)
  {}

  lemma CommandTold(d: Dispatch, n: nat, g: Digest, t: Told)
    requires Awaiting(d, n, g, t) && d.point.Command?
    ensures Reports(AfterCommand(d, d.point.index, n, t.aborted, t.answer), Add(n, g, t))
  {
    var k, g' := d.point.index, Add(n, g, t);
    var ran := AfterRun(d, k, t.answer);
    CommandAdds(n, g, t, k);
    RanIs(d, k, t.answer);
    PresentRan(d.facts, ran.facts, g.at, t);
    NextTold(ran, k + 1, n, t.aborted, t.answer.late, g');
  }

  lemma ExportTold(d: Dispatch, n: nat, g: Digest, t: Told)
    requires Awaiting(d, n, g, t) && d.point.Export?
    ensures Reports(AfterExport(d, t.aborted, t.answer), Add(n, g, t))
  {
    var a, g' := t.answer, Add(n, g, t);
    PresentOther(d.facts, g.at, t);
    var kept := d.(patch := Some(a.patch));
    if a.threw {
      FinallyTold(MarkPartial(d.(facts := d.facts.(exportFailed := true)), ExportFailed), t.aborted, g');
    } else if a.patch == "" && a.claimsChanges && d.facts.agent.Completed? {
      FinallyTold(MarkPartial(kept.(facts := kept.facts.(emptyClaim := true)), EmptyPatch), t.aborted, g');
    } else {
      FinallyTold(kept, t.aborted, g');
    }
  }

  lemma CheckTold(d: Dispatch, n: nat, g: Digest, t: Told)
    requires Awaiting(d, n, g, t) && (d.point.Head? || d.point.Branch? || d.point.Staging?) && !t.answer.threw
    ensures Reports(Advance(d, n, t.aborted, t.answer), Add(n, g, t))
  {
    match d.point
    case Head => HeadTold(d, n, g, t);
    case Branch => BranchTold(d, n, g, t);
    case Staging => StagingTold(d, n, g, t);
  }

  lemma RunTold(d: Dispatch, n: nat, g: Digest, t: Told)
    requires Awaiting(d, n, g, t) && (d.point.DiffCheck? || d.point.Command?) && !t.answer.threw
    ensures Reports(Advance(d, n, t.aborted, t.answer), Add(n, g, t))
  {
    if d.point.DiffCheck? { DiffCheckTold(d, n, g, t); } else { CommandTold(d, n, g, t); }
  }

  lemma EdgeTold(d: Dispatch, n: nat, g: Digest, t: Told)
    requires Awaiting(d, n, g, t) && (d.point.Agent? || d.point.Export?)
    ensures Reports(Advance(d, n, t.aborted, t.answer), Add(n, g, t))
  {
    if d.point.Agent? { AgentTold(d, n, g, t); } else { ExportTold(d, n, g, t); }
  }

  lemma ThrewTold(d: Dispatch, n: nat, t: Told)
    requires Working(d.point) && !d.point.Agent? && !d.point.Export? && t.answer.threw
    ensures Advance(d, n, t.aborted, t.answer).point.Threw?
  {}

  lemma AdvanceTold(d: Dispatch, n: nat, g: Digest, t: Told)
    requires Awaiting(d, n, g, t)
    ensures var r := Advance(d, n, t.aborted, t.answer); r.point.Threw? || Reports(r, Add(n, g, t))
  {
    if d.point.Agent? || d.point.Export? {
      EdgeTold(d, n, g, t);
    } else if t.answer.threw {
      ThrewTold(d, n, t);
    } else if d.point.DiffCheck? || d.point.Command? {
      RunTold(d, n, g, t);
    } else {
      CheckTold(d, n, g, t);
    }
  }

  /** The await a dispatch is at has not been answered before. */
  lemma Unanswered(d: Dispatch, w: World, g: Digest, t: Told)
    requires OutcomeOk(d, w) && Working(d.point) && Reports(d, g) && t.point == d.point
    ensures d.point !in g.at && Awaiting(d, w.commands, g, t)
  {}

  lemma SettleTold(d: Dispatch, w: World, g: Digest, t: Told)
    requires d.recorded && !Preparing(d.point) && !Working(d.point) && !Settled(d.point) && Reports(d, g)
    requires t.point == d.point
    ensures var r := Settle(d, w, t.answer).d; r.point.Threw? || Reports(r, Add(w.commands, g, t))
  {
    PresentOther(d.facts, g.at, t);
    SettleMoves(d, w, t.answer);
    var g' := Add(w.commands, g, t);
    assert Exported(g'.at) == Exported(g.at) && EmptyClaim(g'.at) == EmptyClaim(g.at);
    match d.point
    case Cleanup =>
    case WritingInterrupted =>
    case RemovingRecord =>
    case Artifacts =>
  }

  // ----- before the main section -----------------------------------------

  /** The result of a dispatch that ended before the main section, by its last answer. */
  function EarlyOutput(granted: bool, t: Told): (o: Output) {
    match t.point
    case Start =>
      if !t.answer.good then Output(ValidationRejected, granted, Some(Validation), None, None)
      else Output(ClaimRejected, granted, Some(ClaimTaken), None, None)
    case Revision =>
      if t.aborted then Output(Cancelled, granted, Some(AgentCancelled), None, None)
      else if t.answer.mismatch then Output(RevisionMismatch, granted, Some(RevisionFailed), None, None)
      else Output(Partial, granted, Some(RevisionFailed), None, None)
    case Creating => Output(Partial, granted, Some(WorktreeFailed), None, None)
    case _ => Output(Cancelled, granted, Some(AgentCancelled), None, None)
  }

  ghost predicate Early(d: Dispatch, j: seq<Told>) {
    && (forall t | t in j :: Preparing(t.point))
    && (d.point.Returned? ==>
          && j != [] && d.point.output == EarlyOutput(d.granted, j[|j| - 1])
          && (d.granted <==> !j[|j| - 1].point.Start?)
          && (d.granted ==> j[|j| - 1].answer.threw || j[|j| - 1].point.Abandoning?))
  }

  lemma {:induction false} EarlyNothing(n: nat, j: seq<Told>)
    requires forall t | t in j :: Preparing(t.point)
    ensures LastBlemish(n, j).None? && forall p | p in AnswersIn(j) :: Preparing(p)
  {
    if j != [] {
      assert j[|j| - 1] in j;
      EarlyNothing(n, j[..|j| - 1]);
    }
  }

  lemma NothingReported(d: Dispatch, w: World, j: seq<Told>)
    requires d.point.Agent? && d.outcome == Succeeded && d.reason.None? && d.patch.None? && Untouched(d.facts)
    requires LastBlemish(w.commands, j).None? && forall p | p in AnswersIn(j) :: Preparing(p)
    ensures Reports(d, DigestOf(w.commands, j))
  {}

  lemma PrepareTold(d: Dispatch, w: World, j: seq<Told>, t: Told)
    requires FlagsOk(d, w) && Preparing(d.point) && Early(d, j)
    requires t.point == d.point && t.aborted == (d.signal in w.aborted)
    ensures var r := Prepare(d, w, t.aborted, t.answer).d;
            r.point.Threw? || if r.recorded then Reports(r, DigestOf(w.commands, j + [t])) else Early(r, j + [t])
  {
    EarlyNothing(w.commands, j + [t]);
    match d.point
    case Start =>
    case Revision =>
    case Creating =>
    case Abandoning =>
    case WritingRunning => if !t.answer.threw { NothingReported(Prepare(d, w, t.aborted, t.answer).d, w, j + [t]); }
  }

  // ----- over a run ------------------------------------------------------

  /** No await of the main section was answered twice. */
  ghost predicate Once(j: seq<Told>) {
    forall x, y | 0 <= x < |j| && 0 <= y < |j| && Working(j[x].point) && j[x].point == j[y].point :: x == y
  }

  lemma {:induction false} AnsweredIn(j: seq<Told>)
    ensures forall t | t in j :: t.point in AnswersIn(j)
    ensures forall p | p in AnswersIn(j) :: AnswersIn(j)[p] in j && AnswersIn(j)[p].point == p
  {
    if j != [] {
      AnsweredIn(j[..|j| - 1]);
      assert j == j[..|j| - 1] + [j[|j| - 1]];
    }
  }

  lemma OnceAppend(j: seq<Told>, t: Told)
    requires Once(j) && (Working(t.point) ==> t.point !in AnswersIn(j))
    ensures Once(j + [t])
  {
    AnsweredIn(j);
    assert forall x | 0 <= x < |j| :: j[x] in j;
  }

  ghost predicate Tells(d: Dispatch, n: nat, j: seq<Told>) {
    Once(j) && (!d.point.Threw? ==> if d.recorded then Reports(d, DigestOf(n, j)) else Early(d, j))
  }

  /** A step keeps what a dispatch knows equal to what it was told. */
  lemma ResumeTold(d: Dispatch, w: World, j: seq<Told>, a: Answer)
    requires DispatchOk(d, w) && Tells(d, w.commands, j) && !Settled(d.point)
    ensures Tells(Resume(d, w, a).d, w.commands, j + [Told(d.point, d.signal in w.aborted, a)])
  {
    var t := Told(d.point, d.signal in w.aborted, a);
    if Preparing(d.point) {
      PrepareTold(d, w, j, t);
    } else {
      MainTold(d, w, j, t);
    }
    if !Working(d.point) { OnceAppend(j, t); }
  }

  lemma MainTold(d: Dispatch, w: World, j: seq<Told>, t: Told)
    requires DispatchOk(d, w) && d.recorded && Once(j) && Reports(d, DigestOf(w.commands, j)) && !Settled(d.point)
    requires t.point == d.point && t.aborted == (d.signal in w.aborted)
    ensures var r := Resume(d, w, t.answer).d; r.point.Threw? || Reports(r, DigestOf(w.commands, j + [t]))
    ensures Resume(d, w, t.answer).d.recorded && Once(j + [t])
  {
    var g := DigestOf(w.commands, j);
    DigestAppend(w.commands, j, t);
    if Working(d.point) {
      Unanswered(d, w, g, t);
      AdvanceTold(d, w.commands, g, t);
      AdvanceStep(d, w, t.aborted, t.answer);
    } else {
      SettleTold(d, w, g, t);
      SettleMoves(d, w, t.answer);
    }
    OnceAppend(j, t);
  }

  /** The awaits whose rejection rejects the dispatch. */
  predicate Rejects(p: Point) {
    || p.WritingRunning? || p.Head? || p.Branch? || p.Staging? || p.DiffCheck? || p.Command?
    || p.WritingInterrupted? || p.RemovingRecord? || p.Artifacts?
  }

  predicate RecordedIn(j: seq<Told>) { exists t | t in j :: t.point.WritingRunning? && !t.answer.threw }

  predicate RejectedIn(j: seq<Told>) { j != [] && Rejects(j[|j| - 1].point) && j[|j| - 1].answer.threw }

  ghost predicate Flags(d: Dispatch, j: seq<Told>) {
    (d.recorded <==> RecordedIn(j)) && (d.point.Threw? <==> RejectedIn(j))
  }

  lemma ResumeFlags(d: Dispatch, w: World, a: Answer)
    requires DispatchOk(d, w) && !Settled(d.point)
    ensures var r := Resume(d, w, a).d;
            && (r.recorded <==> d.recorded || (d.point.WritingRunning? && !a.threw))
            && (r.point.Threw? <==> Rejects(d.point) && a.threw)
  {
    if Preparing(d.point) {
      PrepareMoves(d, w, d.signal in w.aborted, a);
    } else if Working(d.point) {
      AdvanceThrows(d, w.commands, d.signal in w.aborted, a);
      AdvanceStep(d, w, d.signal in w.aborted, a);
    } else {
      SettleMoves(d, w, a);
    }
  }

  lemma NextGoesOn(d: Dispatch, i: nat, n: nat, aborted: bool, late: bool)
    ensures !NextCommand(d, i, n, aborted, late).point.Threw?
  {}

  lemma AdvanceThrows(d: Dispatch, n: nat, aborted: bool, a: Answer)
    requires Working(d.point)
    ensures Advance(d, n, aborted, a).point.Threw? <==> Rejects(d.point) && a.threw
  {
    match d.point
    case Agent =>
    case Head =>
    case Branch =>
    case Staging =>
    case DiffCheck =>
      var ran := d.(facts := d.facts.(diffClean := Some(a.good)));
      NextGoesOn(if a.good then ran else MarkPartial(ran, CheckFailed), 0, n, aborted, a.late);
    case Command(k) => NextGoesOn(AfterRun(d, k, a), k + 1, n, aborted, a.late);
    case Export =>
  }

  lemma FlagsAppend(d: Dispatch, w: World, j: seq<Told>, t: Told)
    requires DispatchOk(d, w) && !Settled(d.point) && Flags(d, j) && t.point == d.point
    ensures Flags(Resume(d, w, t.answer).d, j + [t])
  {
    ResumeFlags(d, w, t.answer);
    assert t in j + [t];
    assert forall x :: x in j + [t] <==> x in j || x == t;
  }

  lemma SettledStays(d: Dispatch, w: World, a: Answer)
    requires Settled(d.point)
    ensures Resume(d, w, a).d == d
  {}

  lemma {:induction false} NotYet(w: World, events: seq<Event>, i: nat)
    requires |Run(w, events).dispatches| <= i
    ensures Journal(w, events, i) == []
  {
    if events != [] { NotYet(w, events[..|events| - 1], i); }
  }

  lemma {:induction false} CommandsFixed(w: World, events: seq<Event>)
    ensures Run(w, events).commands == w.commands
  {
    if events != [] { CommandsFixed(w, events[..|events| - 1]); }
  }

  /** A new dispatch was told nothing. */
  lemma NewTold(n: nat, id: Id, signal: nat)
    ensures Tells(NewDispatch(id, signal), n, []) && Flags(NewDispatch(id, signal), [])
  {}

  lemma WakeTold(w: World, i: nat, a: Answer, j: seq<Told>)
    requires Inv(w) && i < |w.dispatches| && Tells(w.dispatches[i], w.commands, j) && Flags(w.dispatches[i], j)
    ensures var d, j' := Step(w, Wake(i, a)).dispatches[i], j + Heard(w, Wake(i, a), i);
            Tells(d, w.commands, j') && Flags(d, j')
  {
    var d := w.dispatches[i];
    if Settled(d.point) {
      SettledStays(d, w, a);
      assert j + [] == j;
    } else {
      ResumeTold(d, w, j, a);
      FlagsAppend(d, w, j, Told(d.point, d.signal in w.aborted, a));
    }
  }

  /** Any event leaves a dispatch knowing what it was told. */
  lemma EventTold(w: World, e: Event, i: nat, j: seq<Told>)
    requires Inv(w) && i < |w.dispatches| && Tells(w.dispatches[i], w.commands, j) && Flags(w.dispatches[i], j)
    ensures i < |Step(w, e).dispatches|
    ensures var d, j' := Step(w, e).dispatches[i], j + Heard(w, e, i); Tells(d, w.commands, j') && Flags(d, j')
  {
    if e.Wake? && e.index == i {
      WakeTold(w, i, e.answer, j);
    } else {
      assert Heard(w, e, i) == [] && j + [] == j;
    }
  }

  lemma ArrivalTold(w: World, e: Event, i: nat)
    requires |w.dispatches| <= i < |Step(w, e).dispatches|
    ensures Heard(w, e, i) == []
    ensures Tells(Step(w, e).dispatches[i], w.commands, []) && Flags(Step(w, e).dispatches[i], [])
  {
    NewTold(w.commands, e.id, e.signal);
  }

  /** In every run each dispatch knows exactly what it was told. */
  lemma {:induction false} JournalTold(w: World, events: seq<Event>, i: nat)
    requires Idle(w) && i < |Run(w, events).dispatches|
    ensures var d, j := Run(w, events).dispatches[i], Journal(w, events, i);
            Tells(d, w.commands, j) && Flags(d, j)
  {
    var front, e := events[..|events| - 1], events[|events| - 1];
    RunKeeps(w, front);
    CommandsFixed(w, front);
    if i < |Run(w, front).dispatches| {
      JournalTold(w, front, i);
      EventTold(Run(w, front), e, i, Journal(w, front, i));
    } else {
      NotYet(w, front, i);
      ArrivalTold(Run(w, front), e, i);
    }
  }

  // ----- the outcome -----------------------------------------------------

  /** The answers of a journal without blemish. */
  lemma {:induction false} NoBlemish(n: nat, j: seq<Told>)
    requires LastBlemish(n, j).None?
    ensures forall t | t in j :: Blemish(n, false, t).None?
  {
    if j != [] {
      NoBlemish(n, j[..|j| - 1]);
      assert j == j[..|j| - 1] + [j[|j| - 1]];
    }
  }

  lemma {:induction false} FineMeansNoBlemish(n: nat, j: seq<Told>)
    requires forall t | t in j :: Blemish(n, true, t).None?
    ensures LastBlemish(n, j).None?
  {
    if j != [] {
      assert j[|j| - 1] in j;
      FineMeansNoBlemish(n, j[..|j| - 1]);
    }
  }

  /** An await of the main section has one answer. */
  lemma OneAnswer(j: seq<Told>, t: Told)
    requires Once(j) && t in j && Working(t.point)
    ensures t.point in AnswersIn(j) && AnswersIn(j)[t.point] == t
  {
    AnsweredIn(j);
    var u := AnswersIn(j)[t.point];
    var x :| 0 <= x < |j| && j[x] == t;
    var y :| 0 <= y < |j| && j[y] == u;
    assert x == y;
  }

  lemma AllFineNoBlemish(n: nat, j: seq<Told>)
    requires Once(j) && AllFine(n, AnswersIn(j)) && forall k: nat | Command(k) in AnswersIn(j) :: k < n
    ensures LastBlemish(n, j).None?
  {
    forall t | t in j ensures Blemish(n, true, t).None? {
      if Working(t.point) {
        OneAnswer(j, t);
        if t.point.Command? { assert CommandFine(n, AnswersIn(j), t.point.index); }
      }
    }
    FineMeansNoBlemish(n, j);
  }

  /** Every await that a success needs was answered. */
  ghost predicate AllAnswered(n: nat, at: Answers) {
    && Agent in at && Head in at && Branch in at && Staging in at && DiffCheck in at && Export in at
    && forall k: nat | k < n :: Command(k) in at
  }

  lemma FlawlessAnswered(d: Dispatch, n: nat, g: Digest)
    requires Reports(d, g) && Flawless(d, n)
    ensures AllAnswered(n, g.at) && !EmptyClaim(g.at) && AgentDone(g.at)
  {}

  lemma UnblemishedFine(n: nat, at: Answers)
    requires AllAnswered(n, at) && !EmptyClaim(at)
    requires forall p | p in at :: at[p].point == p && Blemish(n, false, at[p]).None?
    ensures AllFine(n, at)
  {
    forall k: nat | k < n ensures CommandFine(n, at, k) {
      assert Command(k) in at;
    }
  }

  lemma NoBlemishFine(d: Dispatch, n: nat, j: seq<Told>)
    requires LastBlemish(n, j).None? && Reports(d, DigestOf(n, j))
    requires Flawless(d, n)
    ensures AllFine(n, AnswersIn(j))
  {
    NoBlemish(n, j);
    AnsweredIn(j);
    FlawlessAnswered(d, n, DigestOf(n, j));
    UnblemishedFine(n, AnswersIn(j));
  }

  /**
   What a dispatch that reached its main section returns, by its answers alone. It
   is cancelled exactly when the last check saw an abort or the agent was cancelled,
   and succeeds exactly when it is not and every answer was fine. Its reason is the
   last thing an answer held against it, its patch the exported one.
   */
  lemma OutcomeExact(w: World, events: seq<Event>, i: nat)
    requires Idle(w) && i < |Run(w, events).dispatches|
    requires Run(w, events).dispatches[i].point.Returned? && RecordedIn(Journal(w, events, i))
    ensures var o, j := Run(w, events).dispatches[i].point.output, Journal(w, events, i);
            var at := AnswersIn(j);
            && (o.outcome == Cancelled <==> LastCheck(j) || AgentWasCancelled(at))
            && (o.outcome == Succeeded <==> !LastCheck(j) && AllFine(w.commands, at))
            && (o.outcome == Cancelled || o.outcome == Succeeded || o.outcome == Partial)
            && o.claimGranted && o.patch == Exported(at)
            && o.reason == (if o.outcome == Cancelled then Some(AgentCancelled) else LastBlemish(w.commands, j))
            && o.recovery == (if o.outcome == Succeeded then None else Some(Interrupted(CleanedUp(at))))
            && Once(j)
  {
    var end, j := Run(w, events), Journal(w, events, i);
    JournalTold(w, events, i);
    RunKeeps(w, events);
    CommandsFixed(w, events);
    ReportsOutcome(end.dispatches[i], end, j);
  }

  lemma ReportsOutcome(d: Dispatch, w: World, j: seq<Told>)
    requires DispatchOk(d, w) && d.recorded && d.point.Returned? && Once(j) && Reports(d, DigestOf(w.commands, j))
    ensures var o, at := d.point.output, AnswersIn(j);
            && (o.outcome == Cancelled <==> LastCheck(j) || AgentWasCancelled(at))
            && (o.outcome == Succeeded <==> !LastCheck(j) && AllFine(w.commands, at))
            && (o.outcome == Cancelled || o.outcome == Succeeded || o.outcome == Partial)
            && o.claimGranted && o.patch == Exported(at)
            && o.reason == (if o.outcome == Cancelled then Some(AgentCancelled) else LastBlemish(w.commands, j))
            && o.recovery == (if o.outcome == Succeeded then None else Some(Interrupted(CleanedUp(at))))
  {
    FinishedOutcome(d, w);
    assert d.point.output == Finish(d).point.output;
    if d.outcome == Succeeded { NoBlemishFine(d, w.commands, j); }
    if !LastCheck(j) && AllFine(w.commands, AnswersIn(j)) {
      CommandsBounded(d, w);
      AllFineNoBlemish(w.commands, j);
    }
  }

  lemma CommandsBounded(d: Dispatch, w: World)
    requires DispatchOk(d, w) && d.recorded && d.point.Returned?
    ensures d.facts.commandsRun <= w.commands
  {}

  /** What a dispatch that never reached its main section returns, by its last answer. */
  lemma EarlyExact(w: World, events: seq<Event>, i: nat)
    requires Idle(w) && i < |Run(w, events).dispatches|
    requires Run(w, events).dispatches[i].point.Returned? && !RecordedIn(Journal(w, events, i))
    ensures var o, j := Run(w, events).dispatches[i].point.output, Journal(w, events, i);
            && j != [] && o == EarlyOutput(!j[|j| - 1].point.Start?, j[|j| - 1])
            && (j[|j| - 1].point.Revision? || j[|j| - 1].point.Creating? ==> j[|j| - 1].answer.threw)
  {
    JournalTold(w, events, i);
  }

  /** A dispatch rejects exactly when the last await it was told about rejects it. */
  lemma RejectsExact(w: World, events: seq<Event>, i: nat)
    requires Idle(w) && i < |Run(w, events).dispatches|
    ensures Run(w, events).dispatches[i].point.Threw? <==> RejectedIn(Journal(w, events, i))
  {
    JournalTold(w, events, i);
  }

  // ----- claims ----------------------------------------------------------

  predicate WasRejected(d: Dispatch) { d.point.Returned? && d.point.output.outcome == ClaimRejected }

  ghost predicate Holds(w: World, id: Id) {
    exists k :: 0 <= k < |w.dispatches| && w.dispatches[k].granted && w.dispatches[k].id == id
  }

  /** Claimed is what was claimed before the run and what its dispatches were granted. */
  ghost predicate Claims(before: set<Id>, w: World) {
    && (forall id :: id in w.claimed <==> id in before || Holds(w, id))
    && (forall k | 0 <= k < |w.dispatches| && w.dispatches[k].granted :: w.dispatches[k].id !in before)
    && (forall k | 0 <= k < |w.dispatches| && WasRejected(w.dispatches[k]) ::
          !w.dispatches[k].granted && w.dispatches[k].id in w.claimed)
  }

  lemma ResumeClaims(d: Dispatch, w: World, a: Answer)
    requires DispatchOk(d, w)
    ensures var r := Resume(d, w, a);
            && r.claimed == (if r.d.granted && !d.granted then w.claimed + {d.id} else w.claimed)
            && (WasRejected(r.d) && !WasRejected(d) ==> !r.d.granted && d.id in w.claimed)
            && (WasRejected(d) ==> r.d == d)
  {
    if Preparing(d.point) {
      match d.point
      case Start =>
      case Revision =>
      case Creating =>
      case Abandoning =>
      case WritingRunning =>
    } else if Working(d.point) {
      AdvanceStep(d, w, d.signal in w.aborted, a);
    } else {
      SettleMoves(d, w, a);
    }
  }

  /** After a step of dispatch `i` a request is held if it was, or if the step was granted it. */
  lemma WakeHolds(w: World, i: nat, a: Answer, id: Id)
    requires Inv(w) && i < |w.dispatches|
    ensures var r := Resume(w.dispatches[i], w, a);
            Holds(Step(w, Wake(i, a)), id) <==> Holds(w, id) || (r.d.granted && id == w.dispatches[i].id)
  {
    var d, w' := w.dispatches[i], Step(w, Wake(i, a));
    ResumeFrame(d, w, a);
    if Holds(w, id) {
      var k :| 0 <= k < |w.dispatches| && w.dispatches[k].granted && w.dispatches[k].id == id;
      assert w'.dispatches[k].granted && w'.dispatches[k].id == id;
    }
    if Holds(w', id) {
      var k :| 0 <= k < |w'.dispatches| && w'.dispatches[k].granted && w'.dispatches[k].id == id;
      assert k == i || w.dispatches[k] == w'.dispatches[k];
    }
    assert w'.dispatches[i] == Resume(d, w, a).d;
  }

  lemma WakeClaims(before: set<Id>, w: World, i: nat, a: Answer)
    requires Inv(w) && Claims(before, w) && i < |w.dispatches|
    ensures Claims(before, Step(w, Wake(i, a)))
  {
    var d, w' := w.dispatches[i], Step(w, Wake(i, a));
    ResumeFrame(d, w, a);
    ResumeClaims(d, w, a);
    forall id
      ensures Holds(w', id) <==> Holds(w, id) || (Resume(d, w, a).d.granted && id == d.id)
    {
      WakeHolds(w, i, a, id);
    }
    assert d.granted ==> Holds(w, d.id);
    assert forall k | 0 <= k < |w'.dispatches| && k != i :: w'.dispatches[k] == w.dispatches[k];
  }

  lemma ArriveClaims(before: set<Id>, w: World, id: Id, signal: nat)
    requires Claims(before, w)
    ensures Claims(before, Step(w, Arrive(id, signal)))
  {
    var w' := Step(w, Arrive(id, signal));
    forall x ensures Holds(w', x) <==> Holds(w, x) {
      if Holds(w, x) {
        var k :| 0 <= k < |w.dispatches| && w.dispatches[k].granted && w.dispatches[k].id == x;
        assert w'.dispatches[k] == w.dispatches[k];
      }
    }
  }

  lemma AbortClaims(before: set<Id>, w: World, signal: nat)
    requires Claims(before, w)
    ensures Claims(before, Step(w, Abort(signal)))
  {
    var w' := Step(w, Abort(signal));
    forall x ensures Holds(w', x) <==> Holds(w, x) {}
  }

  lemma {:induction false} RunClaims(w: World, events: seq<Event>)
    requires Idle(w)
    ensures Claims(w.claimed, Run(w, events))
  {
    if events != [] {
      var front, e := events[..|events| - 1], events[|events| - 1];
      RunClaims(w, front);
      RunKeeps(w, front);
      match e
      case Arrive(id, signal) => ArriveClaims(w.claimed, Run(w, front), id, signal);
      case Abort(signal) => AbortClaims(w.claimed, Run(w, front), signal);
      case Wake(i, a) => if i < |Run(w, front).dispatches| { WakeClaims(w.claimed, Run(w, front), i, a); }
    }
  }

  ghost predicate HeldByOther(w: World, i: nat)
    requires i < |w.dispatches|
  {
    exists k :: 0 <= k < |w.dispatches| && k != i && w.dispatches[k].granted && w.dispatches[k].id == w.dispatches[i].id
  }

  /**
   A claim is granted only for a request that was free and that no other dispatch
   is granted; it is refused only when one of the two holds.
   */
  lemma ClaimExact(w: World, events: seq<Event>, i: nat)
    requires Idle(w) && i < |Run(w, events).dispatches|
    ensures var end := Run(w, events);
            var d := end.dispatches[i];
            && (d.granted ==> d.id !in w.claimed && !HeldByOther(end, i))
            && (WasRejected(d) ==> d.id in w.claimed || HeldByOther(end, i))
  {
    RunClaims(w, events);
    RunKeeps(w, events);
  }
}
