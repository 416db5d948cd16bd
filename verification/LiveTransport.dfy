/**
 The capture-only transport of a live call. A capture is sent at most once, only
 with messages and envelope attached, and every attempt is either sent or blocked.
 */
module LiveTransport {
  import opened Wrappers
  import opened LiveLog

  datatype Pending = Pending(capture: Capture, messages: seq<string>, envelope: Option<string>)

  datatype Request = Request(capture: Capture, messages: seq<string>, envelope: string)

  class Transport {
    var pending: Option<Pending>
    var sent: seq<Request>
    var attempts: nat
    var blocked: nat
    ghost var captures: seq<Capture>

    /** The captures that were sent, in order, and the pending one are distinct captures taken. */
    ghost predicate Valid()
      reads this
    {
      && attempts == |sent| + blocked
      && |sent| + (if pending.Some? then 1 else 0) <= |captures|
      && (pending.Some? ==> captures[|captures| - 1] == pending.value.capture)
      && (forall i | 0 <= i < |sent| :: sent[i].messages != [] && sent[i].capture in captures)
    }

    constructor ()
      ensures Valid() && pending.None? && sent == [] && attempts == 0 && blocked == 0 && captures == []
    {
      pending, sent, attempts, blocked, captures := None, [], 0, 0, [];
    }

    /** `capture`; `valid` is the preflight validator's verdict on it. */
    method TakeCapture(c: Capture, valid: bool) returns (ok: bool)
      requires Valid()
      modifies this`pending, this`captures
      ensures Valid() && ok == (old(pending).None? && valid)
      ensures ok ==> pending == Some(Pending(c, [], None)) && captures == old(captures) + [c]
      ensures !ok ==> pending == old(pending) && captures == old(captures)
    {
      if pending.Some? || !valid { return false; }
      pending := Some(Pending(c, [], None));
      captures := captures + [c];
      ok := true;
    }

    /** `attachProviderBoundMessages`; `frozen` says that the envelope is the frozen one and fits the capture. */
    method Attach(messages: seq<string>, envelope: string, frozen: bool) returns (ok: bool)
      requires Valid()
      modifies this`pending
      ensures Valid()
      ensures ok ==
              (old(pending).Some? && old(pending).value.messages == [] && old(pending).value.envelope.None? && frozen)
      ensures pending ==
              if ok then Some(Pending(old(pending).value.capture, messages, Some(envelope))) else old(pending)
    {
      if pending.None? || pending.value.messages != [] || pending.value.envelope.Some? || !frozen { return false; }
      pending := Some(Pending(pending.value.capture, messages, Some(envelope)));
      ok := true;
    }

    /** `send` up to the outbound permit; `killed` and `withinBudget` are the guards' answers. */
    method Send(killed: bool, withinBudget: bool) returns (request: Option<Request>)
      requires Valid()
      modifies this`pending, this`sent, this`attempts, this`blocked
      ensures Valid() && pending.None? && attempts == old(attempts) + 1
      ensures request.Some? <==>
        && old(pending).Some? && old(pending).value.messages != [] && old(pending).value.envelope.Some?
        && !killed && withinBudget
      ensures request.Some? ==>
        && old(pending) == Some(Pending(request.value.capture, request.value.messages, Some(request.value.envelope)))
        && sent == old(sent) + [request.value] && blocked == old(blocked)
      ensures request.None? ==> sent == old(sent) && blocked == old(blocked) + 1
    {
      attempts := attempts + 1;
      var taken := pending;
      pending := None;
      if taken.None? || taken.value.messages == [] || taken.value.envelope.None? || killed || !withinBudget {
        blocked := blocked + 1;
        return None;
      }
      var r := Request(taken.value.capture, taken.value.messages, taken.value.envelope.value);
      sent := sent + [r];
      return Some(r);
    }
  }

  /** One call of the driver: however often it is sent afterwards, one capture gives one request. */
  method CaptureAndSend(c: Capture, valid: bool, messages: seq<string>, envelope: string, frozen: bool,
                        killed: bool, withinBudget: bool, extra: nat)
    returns (t: Transport)
    ensures fresh(t) && t.Valid() && t.attempts == extra + 1
    ensures |t.sent| == (if valid && frozen && messages != [] && !killed && withinBudget then 1 else 0)
    ensures forall r | r in t.sent :: r == Request(c, messages, envelope)
    ensures t.blocked == t.attempts - |t.sent|
  {
    t := new Transport();
    var ok := t.TakeCapture(c, valid);
    if ok { ok := t.Attach(messages, envelope, frozen); }
    var first := t.Send(killed, withinBudget);
    for i := 0 to extra
      invariant fresh(t) && t.Valid() && t.pending.None? && t.attempts == i + 1
      invariant t.sent == (if first.Some? then [first.value] else [])
    {
      var again := t.Send(killed, withinBudget);
    }
  }
}
