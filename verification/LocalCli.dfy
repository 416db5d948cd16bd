/**
 The local CLI process boundary: bounded output buffers, the incremental line
 observer, and the termination state machine, whose events may come in any order.
 */
module LocalCli {
  import opened Wrappers
  import opened Texts
  import opened Sequences

  type Byte = b: int | 0 <= b < 256
  type Chunk = seq<Byte>

  function Flatten(chunks: seq<Chunk>): (r: Chunk) {
    if chunks == [] then [] else Flatten(chunks[..|chunks| - 1]) + chunks[|chunks| - 1]
  }

  lemma FlattenAppend(chunks: seq<Chunk>, chunk: Chunk)
    ensures Flatten(chunks + [chunk]) == Flatten(chunks) + chunk
  {
    assert (chunks + [chunk])[..|chunks|] == chunks;
  }

  // ----- bounded buffers -------------------------------------------------

  function Min(a: int, b: int): (r: int) { if a <= b then a else b }

  /** The first `cap` bytes of everything that arrived. */
  function Kept(cap: nat, chunks: seq<Chunk>): (r: Chunk) {
    Flatten(chunks)[..Min(cap, |Flatten(chunks)|)]
  }

  /** A chunk went over the cap, or arrived when the cap was already reached. */
  predicate Truncates(cap: nat, chunks: seq<Chunk>) {
    if chunks == [] then false
    else
      var before := chunks[..|chunks| - 1];
      Truncates(cap, before) || |Flatten(before)| >= cap || |Flatten(chunks)| > cap
  }

  lemma TruncatesAppend(cap: nat, chunks: seq<Chunk>, chunk: Chunk)
    ensures Truncates(cap, chunks + [chunk]) <==>
            Truncates(cap, chunks) || |Flatten(chunks)| >= cap || |Flatten(chunks)| + |chunk| > cap
  {
    assert (chunks + [chunk])[..|chunks|] == chunks;
    FlattenAppend(chunks, chunk);
  }

  /** Nothing is lost while nothing was truncated. */
  lemma {:induction false} UntruncatedKeepsAll(cap: nat, chunks: seq<Chunk>)
    requires !Truncates(cap, chunks)
    ensures |Flatten(chunks)| <= cap && Kept(cap, chunks) == Flatten(chunks)
  {
    if chunks != [] { UntruncatedKeepsAll(cap, chunks[..|chunks| - 1]); }
  }

  /** With non-empty chunks the flag says exactly that more than `cap` bytes came. */
  lemma {:induction false} TruncatedExactly(cap: nat, chunks: seq<Chunk>)
    requires forall i | 0 <= i < |chunks| :: chunks[i] != []
    ensures Truncates(cap, chunks) <==> |Flatten(chunks)| > cap
  {
    if chunks != [] {
      TruncatedExactly(cap, chunks[..|chunks| - 1]);
      assert chunks[|chunks| - 1] != [];
    }
  }

  /** An empty chunk after exactly `cap` bytes sets the flag although nothing was cut. */
  lemma EmptyChunkTruncates(cap: nat, chunks: seq<Chunk>)
    requires |Flatten(chunks)| == cap
    ensures Truncates(cap, chunks + [[]]) && Kept(cap, chunks + [[]]) == Flatten(chunks + [[]])
  {
    TruncatesAppend(cap, chunks, []);
    FlattenAppend(chunks, []);
  }

  class OutputAccumulator {
    const cap: nat
    var chunks: seq<Chunk>
    var bytes: nat
    var truncated: bool
    ghost var arrived: seq<Chunk>

    ghost predicate Valid()
      reads this
    {
      && bytes == |Flatten(chunks)|
      && Flatten(chunks) == Kept(cap, arrived)
      && (truncated <==> Truncates(cap, arrived))
    }

    constructor (limit: nat)
      ensures Valid() && cap == limit && arrived == []
    {
      cap := limit;
      chunks, bytes, truncated, arrived := [], 0, false, [];
    }

    /** `appendChunk`, with its four exits. */
    method AppendChunk(chunk: Chunk)
      requires Valid()
      modifies this
      ensures Valid() && arrived == old(arrived) + [chunk]
    {
      TruncatesAppend(cap, arrived, chunk);
      FlattenAppend(arrived, chunk);
      if !truncated { UntruncatedKeepsAll(cap, arrived); }
      KeptAppend(cap, arrived, chunk);
      arrived := arrived + [chunk];
      if truncated { return; }
      var remaining := cap - bytes;
      if remaining <= 0 {
        truncated := true;
        return;
      }
      if |chunk| > remaining {
        FlattenAppend(chunks, chunk[..remaining]);
        chunks, bytes, truncated := chunks + [chunk[..remaining]], bytes + remaining, true;
        return;
      }
      FlattenAppend(chunks, chunk);
      chunks, bytes := chunks + [chunk], bytes + |chunk|;
    }
  }

  lemma {:induction false} TruncatedFull(cap: nat, chunks: seq<Chunk>)
    requires Truncates(cap, chunks)
    ensures |Flatten(chunks)| >= cap
  {
    if chunks != [] && Truncates(cap, chunks[..|chunks| - 1]) { TruncatedFull(cap, chunks[..|chunks| - 1]); }
  }

  lemma KeptAppend(cap: nat, chunks: seq<Chunk>, chunk: Chunk)
    ensures |Flatten(chunks)| >= cap ==> Kept(cap, chunks + [chunk]) == Kept(cap, chunks)
    ensures Truncates(cap, chunks) ==> |Flatten(chunks)| >= cap
    ensures |Flatten(chunks)| < cap < |Flatten(chunks)| + |chunk| ==>
              Kept(cap, chunks + [chunk]) == Flatten(chunks) + chunk[..cap - |Flatten(chunks)|]
    ensures |Flatten(chunks)| + |chunk| <= cap ==> Kept(cap, chunks + [chunk]) == Flatten(chunks) + chunk
  {
    FlattenAppend(chunks, chunk);
    if Truncates(cap, chunks) { TruncatedFull(cap, chunks); }
  }

  // ----- the line observer -----------------------------------------------

  class LineObserver {
    const cap: nat
    var buffer: Text
    var overflowed: bool
    var lines: seq<Text>
    ghost var fed: Text

    /** The lines passed on and the residue are the split of everything fed in. */
    ghost predicate Valid()
      reads this
    {
      && (!overflowed ==> lines + [buffer] == Split(fed, NL))
      && (overflowed ==> |fed| > cap)
    }

    constructor (limit: nat)
      ensures Valid() && cap == limit && fed == [] && lines == [] && !overflowed
    {
      cap := limit;
      buffer, overflowed, lines, fed := [], false, [], [];
    }

    /** `emitLines`: passes on complete lines and keeps the residue. */
    method EmitLines(text: Text)
      requires Valid()
      modifies this
      ensures Valid() && fed == old(fed) + text && old(lines) <= lines
      ensures |fed| <= cap ==> !overflowed
    {
      SplitExtend(fed, text, NL);
      ResidueBound(fed, NL);
      if !overflowed { FrontLastOf(lines, buffer, Split(fed, NL)); }
      fed := fed + text;
      if overflowed { return; }
      buffer := buffer + text;
      if |buffer| > cap {
        buffer, overflowed := [], true;
        return;
      }
      var complete, residue := Drain(buffer);
      Append3(lines, complete, [residue]);
      lines, buffer := lines + complete, residue;
    }
  }

  lemma FrontLastOf<T>(front: seq<T>, last: T, s: seq<T>)
    requires front + [last] == s
    ensures Front(s) == front && Last(s) == last
  {}

  /** The loop that cuts complete lines off the buffer. */
  method Drain(text: Text) returns (complete: seq<Text>, residue: Text)
    ensures complete + [residue] == Split(text, NL)
  {
    complete, residue := [], text;
    var index := IndexOf(residue, [NL], 0);
    while index != -1
      invariant index == IndexOf(residue, [NL], 0)
      invariant complete + Split(residue, NL) == Split(text, NL)
      decreases |residue|
    {
      LineSplit(residue, index);
      Append3(complete, [residue[..index]], Split(residue[index + 1..], NL));
      complete, residue := complete + [residue[..index]], residue[index + 1..];
      index := IndexOf(residue, [NL], 0);
    }
    NoLine(residue);
  }

  lemma UnitAt(t: Text, k: nat)
    requires k < |t|
    ensures At(t, [NL], k) <==> t[k] == NL
  {
    assert t[k..k + 1] == [t[k]];
  }

  lemma FirstLine(t: Text, i: int)
    requires i != -1 && i == IndexOf(t, [NL], 0)
    ensures 0 <= i < |t| && t[i] == NL && NL !in t[..i]
  {
    UnitAt(t, i);
    forall k | 0 <= k < i ensures t[k] != NL {
      assert !At(t, [NL], k);
      UnitAt(t, k);
    }
  }

  lemma LineSplit(t: Text, i: int)
    requires i != -1 && i == IndexOf(t, [NL], 0)
    ensures 0 <= i < |t| && Split(t, NL) == [t[..i]] + Split(t[i + 1..], NL)
  {
    FirstLine(t, i);
    CutAt(t, i);
    SplitCons(t[..i], t[i], t[i + 1..]);
  }

  lemma NoLine(t: Text)
    requires IndexOf(t, [NL], 0) == -1
    ensures Split(t, NL) == [t]
  {
    forall k | 0 <= k < |t| ensures t[k] != NL {
      assert !At(t, [NL], k);
      UnitAt(t, k);
    }
    SplitFree(t, NL);
  }

  lemma {:induction false} ResidueBound(t: Text, c: Unit)
    ensures |Split(t, c)[|Split(t, c)| - 1]| <= |t|
  {
    if t != [] { ResidueBound(t[1..], c); }
  }

  // ----- the termination machine -----------------------------------------

  datatype Phase = Active | Terminating | Settled

  datatype Why = TimedOut | Cancelled

  /** One call of `resolve` or `reject`. */
  datatype Settlement =
    | Resolved(timedOut: bool, cancelled: bool, exitCode: Option<int>, stdout: Chunk, stdoutTruncated: bool,
               stderr: Chunk, stderrTruncated: bool)
    | Rejected

  datatype Event =
    | StdoutData(chunk: Chunk) | StderrData(chunk: Chunk)
    | Deadline | Abort | ForcedTimer | ChildError | ChildClose(code: Option<int>)

  datatype Caps = Caps(stdout: nat, stderr: nat)

  datatype State = State(
    phase: Phase,
    termination: Option<Why>,
    deadlineArmed: bool,
    forcedArmed: bool,
    promise: seq<Settlement>,
    out: seq<Chunk>,
    err: seq<Chunk>)

  const STARTED := State(Active, None, true, false, [], [], [])

  function ResultOf(caps: Caps, why: Option<Why>, code: Option<int>, out: seq<Chunk>,
      err: seq<Chunk>): (r: Settlement) {
    Resolved(why == Some(TimedOut), why == Some(Cancelled), code, Kept(caps.stdout, out), Truncates(caps.stdout, out),
             Kept(caps.stderr, err), Truncates(caps.stderr, err))
  }

  /** `finish` and `fail`: only the first settlement counts, and it clears both timers. */
  function Settle(s: State, x: Settlement): (r: State) {
    if s.promise != [] then s else s.(promise := [x], deadlineArmed := false, forcedArmed := false)
  }

  function Terminate(s: State, why: Why): (r: State) {
    if s.phase != Active then s else s.(phase := Terminating, termination := Some(why), forcedArmed := true)
  }

  function Handle(caps: Caps, s: State, e: Event): (r: State) {
    match e
    case StdoutData(chunk) => s.(out := s.out + [chunk])
    case StderrData(chunk) => s.(err := s.err + [chunk])
    case Deadline => if s.deadlineArmed then Terminate(s.(deadlineArmed := false), TimedOut) else s
    case Abort => Terminate(s, Cancelled)
    case ForcedTimer =>
      if s.forcedArmed then Settle(s.(forcedArmed := false), ResultOf(caps, s.termination, None, s.out, s.err)) else s
    case ChildError =>
      if s.phase == Terminating then Settle(s, ResultOf(caps, s.termination, None, s.out, s.err))
      else Settle(s, Rejected)
    case ChildClose(code) =>
      if s.phase == Terminating then Settle(s, ResultOf(caps, s.termination, code, s.out, s.err))
      else Settle(s.(phase := Settled), ResultOf(caps, None, code, s.out, s.err))
  }

  function Run(caps: Caps, events: seq<Event>): (r: State) {
    if events == [] then STARTED else Handle(caps, Run(caps, events[..|events| - 1]), events[|events| - 1])
  }

  /**
   What the caller should get, read off the events from left to right: the first
   of abort and deadline gives the reason, the first of close, error and (once
   terminating) the forced timer settles.
   */
  function Reference(caps: Caps, events: seq<Event>, why: Option<Why>, out: seq<Chunk>,
      err: seq<Chunk>): (r: Option<Settlement>) {
    if events == [] then None
    else
      var rest := events[1..];
      match events[0]
      case StdoutData(chunk) => Reference(caps, rest, why, out + [chunk], err)
      case StderrData(chunk) => Reference(caps, rest, why, out, err + [chunk])
      case Deadline => Reference(caps, rest, if why.Some? then why else Some(TimedOut), out, err)
      case Abort => Reference(caps, rest, if why.Some? then why else Some(Cancelled), out, err)
      case ForcedTimer =>
        if why.Some? then Some(ResultOf(caps, why, None, out, err)) else Reference(caps, rest, why, out, err)
      case ChildError => Some(if why.Some? then ResultOf(caps, why, None, out, err) else Rejected)
      case ChildClose(code) => Some(ResultOf(caps, why, code, out, err))
  }

  /** The machine before it has settled. */
  ghost predicate Unsettled(s: State) {
    && s.promise == [] && s.phase != Settled
    && (s.phase == Terminating <==> s.termination.Some?)
    && (s.forcedArmed <==> s.termination.Some?)
    && (s.deadlineArmed || s.termination.Some?)
  }

  function RunFrom(caps: Caps, s: State, events: seq<Event>): (r: State)
    decreases |events|
  {
    if events == [] then s else RunFrom(caps, Handle(caps, s, events[0]), events[1..])
  }

  /** Nothing settles twice, and nothing undoes a settlement. */
  lemma {:induction false} SettledStays(caps: Caps, s: State, events: seq<Event>)
    requires |s.promise| == 1
    ensures RunFrom(caps, s, events).promise == s.promise
    decreases |events|
  {
    if events != [] { SettledStays(caps, Handle(caps, s, events[0]), events[1..]); }
  }

  lemma {:induction false} RunFromReference(caps: Caps, s: State, events: seq<Event>)
    requires Unsettled(s)
    ensures match Reference(caps, events, s.termination, s.out, s.err)
            case None => RunFrom(caps, s, events).promise == []
            case Some(x) => RunFrom(caps, s, events).promise == [x]
    decreases |events|
  {
    if events != [] {
      var next := Handle(caps, s, events[0]);
      if next.promise == [] {
        HandleUnsettled(caps, s, events[0]);
        RunFromReference(caps, next, events[1..]);
      } else {
        SettledStays(caps, next, events[1..]);
      }
    }
  }

  lemma HandleUnsettled(caps: Caps, s: State, e: Event)
    requires Unsettled(s) && Handle(caps, s, e).promise == []
    ensures Unsettled(Handle(caps, s, e))
  {}

  lemma {:induction false} RunSplits(caps: Caps, s: State, events: seq<Event>, e: Event)
    ensures RunFrom(caps, s, events + [e]) == Handle(caps, RunFrom(caps, s, events), e)
    decreases |events|
  {
    if events == [] {
      assert [e][1..] == [];
    } else {
      assert (events + [e])[1..] == events[1..] + [e];
      RunSplits(caps, Handle(caps, s, events[0]), events[1..], e);
    }
  }

  lemma {:induction false} RunIsRunFrom(caps: Caps, events: seq<Event>)
    ensures Run(caps, events) == RunFrom(caps, STARTED, events)
  {
    if events != [] {
      var n := |events| - 1;
      RunIsRunFrom(caps, events[..n]);
      RunSplits(caps, STARTED, events[..n], events[n]);
      assert events[..n] + [events[n]] == events;
    }
  }

  /** For every order of events the promise settles at most once, as the reference says. */
  lemma SettlesAsReference(caps: Caps, events: seq<Event>)
    ensures match Reference(caps, events, None, [], [])
            case None => Run(caps, events).promise == []
            case Some(x) => Run(caps, events).promise == [x]
  {
    RunIsRunFrom(caps, events);
    RunFromReference(caps, STARTED, events);
  }

  /** The first abort or deadline before any settling event. */
  function FirstReason(events: seq<Event>): (r: Option<Why>) {
    if events == [] || events[0].ChildError? || events[0].ChildClose? then None
    else if events[0].Deadline? then Some(TimedOut)
    else if events[0].Abort? then Some(Cancelled)
    else FirstReason(events[1..])
  }

  lemma {:induction false} ReferenceReason(caps: Caps, events: seq<Event>, why: Option<Why>, out: seq<Chunk>,
      err: seq<Chunk>)
    requires Reference(caps, events, why, out, err).Some?
    ensures var r, x := if why.Some? then why else FirstReason(events), Reference(caps, events, why, out, err).value;
            && (x.Rejected? ==> r.None?)
            && (x.Resolved? ==> x.timedOut == (r == Some(TimedOut)) && x.cancelled == (r == Some(Cancelled)))
    decreases |events|
  {
    var rest := events[1..];
    match events[0]
    case StdoutData(chunk) => ReferenceReason(caps, rest, why, out + [chunk], err);
    case StderrData(chunk) => ReferenceReason(caps, rest, why, out, err + [chunk]);
    case Deadline => ReferenceReason(caps, rest, if why.Some? then why else Some(TimedOut), out, err);
    case Abort => ReferenceReason(caps, rest, if why.Some? then why else Some(Cancelled), out, err);
    case ForcedTimer => if why.None? { ReferenceReason(caps, rest, why, out, err); }
    case ChildError =>
    case ChildClose(_) =>
  }

  /**
   The result carries exactly the first reason when termination began before the
   settlement, no reason otherwise, and never both.
   */
  lemma FirstReasonWins(caps: Caps, events: seq<Event>)
    ensures |Run(caps, events).promise| <= 1
    ensures forall x | x in Run(caps, events).promise ::
              if x.Rejected? then FirstReason(events).None?
              else && x.timedOut == (FirstReason(events) == Some(TimedOut))
                   && x.cancelled == (FirstReason(events) == Some(Cancelled))
                   && !(x.timedOut && x.cancelled)
  {
    SettlesAsReference(caps, events);
    if Reference(caps, events, None, [], []).Some? { ReferenceReason(caps, events, None, [], []); }
  }

  // ----- the event handlers ----------------------------------------------

  /**
   `StringDecoder`: the text decoded so far depends on the bytes so far only, it
   only grows, and it has no more code units than there are bytes.
   */
  ghost predicate IncrementalDecoder(decode: Chunk -> Text) {
    && (forall a, b :: DecodesOn(decode, a, b))
    && (forall a :: DecodesShort(decode, a))
  }

  predicate DecodesOn(decode: Chunk -> Text, a: Chunk, b: Chunk) { decode(a) <= decode(a + b) }

  predicate DecodesShort(decode: Chunk -> Text, a: Chunk) { |decode(a)| <= |a| }

  lemma DecodeStep(decode: Chunk -> Text, a: Chunk, b: Chunk)
    requires IncrementalDecoder(decode)
    ensures |decode(a)| <= |decode(a + b)| && decode(a) + decode(a + b)[|decode(a)|..] == decode(a + b)
  {
    assert DecodesOn(decode, a, b);
  }

  class CliRun {
    const caps: Caps
    const decode: Chunk -> Text
    const stdout: OutputAccumulator
    const stderr: OutputAccumulator
    const observer: LineObserver
    var decoded: Chunk
    var phase: Phase
    var termination: Option<Why>
    var deadlineArmed: bool
    var forcedArmed: bool
    var promise: seq<Settlement>

    ghost predicate Valid()
      reads this, stdout, stderr, observer
    {
      && stdout != stderr && stdout.Valid() && stderr.Valid() && observer.Valid()
      && stdout.cap == observer.cap == caps.stdout && stderr.cap == caps.stderr
      && IncrementalDecoder(decode)
      && decoded == Flatten(stdout.arrived) && observer.fed == decode(decoded)
    }

    ghost function Now(): (s: State)
      reads this, stdout, stderr
    {
      State(phase, termination, deadlineArmed, forcedArmed, promise, stdout.arrived, stderr.arrived)
    }

    constructor (limits: Caps, decoder: Chunk -> Text)
      requires IncrementalDecoder(decoder)
      ensures Valid() && Now() == STARTED && caps == limits && decode == decoder
      ensures fresh(stdout) && fresh(stderr) && fresh(observer)
    {
      assert DecodesShort(decoder, []);
      caps, decode := limits, decoder;
      stdout := new OutputAccumulator(limits.stdout);
      stderr := new OutputAccumulator(limits.stderr);
      observer := new LineObserver(limits.stdout);
      decoded := [];
      phase, termination, deadlineArmed, forcedArmed, promise := Active, None, true, false, [];
    }

    /** `baseResult` with the flags of a reason. */
    method TakeResult(why: Option<Why>, code: Option<int>) returns (x: Settlement)
      requires Valid()
      ensures x == ResultOf(caps, why, code, stdout.arrived, stderr.arrived)
    {
      var out := Concat(stdout.chunks);
      var err := Concat(stderr.chunks);
      return Resolved(why == Some(TimedOut), why == Some(Cancelled), code, out, stdout.truncated, err,
                      stderr.truncated);
    }

    method SettleWith(x: Settlement)
      requires Valid()
      modifies this`promise, this`deadlineArmed, this`forcedArmed
      ensures Valid() && Now() == Settle(old(Now()), x)
    {
      if promise == [] {
        promise, deadlineArmed, forcedArmed := [x], false, false;
      }
    }

    method Stop(why: Why)
      requires Valid()
      modifies this`phase, this`termination, this`forcedArmed
      ensures Valid() && Now() == Terminate(old(Now()), why)
    {
      if phase != Active { return; }
      phase, termination, forcedArmed := Terminating, Some(why), true;
    }

    method OnStdout(chunk: Chunk)
      requires Valid()
      modifies this`decoded, stdout, observer
      ensures Valid() && Now() == Handle(caps, old(Now()), StdoutData(chunk))
    {
      FlattenAppend(stdout.arrived, chunk);
      DecodeStep(decode, decoded, chunk);
      stdout.AppendChunk(chunk);
      var text := decode(decoded + chunk)[|decode(decoded)|..];
      observer.EmitLines(text);
      decoded := decoded + chunk;
    }

    method OnStderr(chunk: Chunk)
      requires Valid()
      modifies stderr
      ensures Valid() && Now() == Handle(caps, old(Now()), StderrData(chunk))
    {
      stderr.AppendChunk(chunk);
    }

    method OnDeadline()
      requires Valid()
      modifies this`phase, this`termination, this`forcedArmed, this`deadlineArmed
      ensures Valid() && Now() == Handle(caps, old(Now()), Deadline)
    {
      if !deadlineArmed { return; }
      deadlineArmed := false;
      Stop(TimedOut);
    }

    method OnAbort()
      requires Valid()
      modifies this`phase, this`termination, this`forcedArmed
      ensures Valid() && Now() == Handle(caps, old(Now()), Abort)
    {
      Stop(Cancelled);
    }

    method OnForcedTimer()
      requires Valid()
      modifies this`promise, this`deadlineArmed, this`forcedArmed
      ensures Valid() && Now() == Handle(caps, old(Now()), ForcedTimer)
    {
      if !forcedArmed { return; }
      forcedArmed := false;
      var x := TakeResult(termination, None);
      SettleWith(x);
    }

    method OnError()
      requires Valid()
      modifies this`promise, this`deadlineArmed, this`forcedArmed
      ensures Valid() && Now() == Handle(caps, old(Now()), ChildError)
    {
      if phase == Terminating {
        var x := TakeResult(termination, None);
        SettleWith(x);
      } else {
        SettleWith(Rejected);
      }
    }

    method OnClose(code: Option<int>)
      requires Valid()
      modifies this`promise, this`deadlineArmed, this`forcedArmed, this`phase
      ensures Valid() && Now() == Handle(caps, old(Now()), ChildClose(code))
    {
      if phase == Terminating {
        var x := TakeResult(termination, code);
        SettleWith(x);
      } else {
        phase := Settled;
        var x := TakeResult(None, code);
        SettleWith(x);
      }
    }

    /** The handler of an event. */
    method On(e: Event)
      requires Valid()
      modifies this, stdout, stderr, observer
      ensures Valid() && Now() == Handle(caps, old(Now()), e)
    {
      match e {
        case StdoutData(chunk) => OnStdout(chunk);
        case StderrData(chunk) => OnStderr(chunk);
        case Deadline => OnDeadline();
        case Abort => OnAbort();
        case ForcedTimer => OnForcedTimer();
        case ChildError => OnError();
        case ChildClose(code) => OnClose(code);
      }
    }
  }

  method Concat(chunks: seq<Chunk>) returns (r: Chunk)
    ensures r == Flatten(chunks)
  {
    r := [];
    for i := 0 to |chunks|
      invariant r == Flatten(chunks[..i])
    {
      assert chunks[..i + 1] == chunks[..i] + [chunks[i]];
      FlattenAppend(chunks[..i], chunks[i]);
      r := r + chunks[i];
    }
    assert chunks[..|chunks|] == chunks;
  }

  /**
   While stdout is not truncated the observer has not overflowed, and its lines
   and residue are the split of the decoded stream, whatever the chunks were.
   */
  lemma ObserverSeesAll(run: CliRun)
    requires run.Valid() && !run.stdout.truncated
    ensures !run.observer.overflowed
    ensures run.observer.lines + [run.observer.buffer] == Split(run.decode(Flatten(run.stdout.arrived)), NL)
  {
    UntruncatedKeepsAll(run.caps.stdout, run.stdout.arrived);
    assert DecodesShort(run.decode, run.decoded);
  }

  /** The whole process: every event in order, handled by the object. */
  method RunEvents(caps: Caps, decode: Chunk -> Text, events: seq<Event>) returns (run: CliRun)
    requires IncrementalDecoder(decode)
    ensures fresh(run) && run.Valid() && run.caps == caps && run.decode == decode && run.Now() == Run(caps, events)
    ensures |run.promise| <= 1
  {
    run := new CliRun(caps, decode);
    for i := 0 to |events|
      invariant fresh(run) && fresh(run.stdout) && fresh(run.stderr) && fresh(run.observer)
      invariant run.Valid() && run.caps == caps && run.decode == decode && run.Now() == Run(caps, events[..i])
    {
      assert events[..i + 1][..i] == events[..i];
      run.On(events[i]);
    }
    assert events[..|events|] == events;
    FirstReasonWins(caps, events);
  }
}
