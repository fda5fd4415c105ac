/**
 How calls begin, wait and end.  In every reachable state each action either ends
 an owner's call, in one of four ways that are told apart here by what was asked of
 whom, or leaves it going; a call that ends leaves the same outcome in its record.
 */
module CallOutcomes {
  import opened Base
  import opened MutationLedger
  import opened MutationIdentity
  import opened MutationRuns

  /** Refused with this code before the handler: by the subscription's admission, by the context, or by the request's
      own checks. */
  function Refusal(c: Call, a: Action): Option<ErrorCode> {
    match (c.phase, a)
    case (Admitting, Admit(failure)) => failure
    case (Checking, Check(failure)) => failure
    case (Dispatching, Refuse(code)) => Some(code)
    case _ => None
  }

  /** The handler itself reports an error. */
  function HandlerError(c: Call, a: Action): Option<ErrorCode> {
    if c.phase.Running? && a.Return? && a.handled.Erred? then Some(a.handled.code) else None
  }

  /** The handler may have acted, but its result cannot be taken, encoded, queued or flushed. */
  predicate LosesResult(s: State, c: Call, a: Action) {
    match (c.phase, a)
    case (Running, Return(handled)) => handled.InvalidResult?
    case (Returned, Recheck(alive)) =>
      !alive || (c.connection < |s.connections| && s.connections[c.connection].cancelled)
    case (Encoding, Encode(encoded)) => encoded.None? || 35 + 256 + |encoded.value| > c.maximumBytes
    case (Prepared, Respond(alive, maximum)) =>
      !alive || c.raw.None? || 35 + |Escape(c.requestID)| + |c.raw.value| > maximum
    case (Responding, Rollback) => true
    case _ => false
  }

  /** The response has reached the peer. */
  predicate Delivered(c: Call, a: Action) {
    c.phase.Responding? && a.Commit? && c.flushed
  }

  datatype Ending = GoesOn | Ends(status: Status, answer: Result<string>)

  /** The four endings; at most one of them applies. */
  function EndingOf(s: State, c: Call, a: Action): Ending {
    if Refusal(c, a).Some? then Ends(Failed, Err(Refusal(c, a).value))
    else if HandlerError(c, a).Some? then Ends(Failed, Err(HandlerError(c, a).value))
    else if LosesResult(s, c, a) then Ends(Unknown, Err(OutcomeUnknown))
    else if Delivered(c, a) && c.raw.Some? then Ends(Succeeded, Ok(c.raw.value))
    else GoesOn
  }

  /** What an action makes of a call, before its record is finalized. */
  ghost predicate MoveIs(c: Call, v: Move, e: Ending) {
    match v
    case Local(d) => e.GoesOn? && !d.phase.Ended?
    case Finish(d, o, remove) =>
      && d.record == c.record && d.phase.Ended? && (remove <==> c.phase.Admitting?)
      && e == Ends(o.status, ReplyTo(o)) && d.answer == Some(ReplyTo(o))
  }

  lemma StandInLength(raw: string)
    ensures |Envelope(Placeholder(), raw)| == 35 + 256 + |raw|
  {
    EnvelopeLength(Placeholder(), raw);
    PlainEscapes(256);
    hide Escape, Envelope, Repeat;
  }

  lemma FailureIs(c: Call, d: Call, code: ErrorCode, remove: bool)
    requires d.record == c.record && (remove <==> c.phase.Admitting?)
    ensures MoveIs(c, Fail(d, code, remove), Ends(Failed, Err(code)))
  {
  }

  lemma NoAnswerIs(c: Call)
    requires !c.phase.Admitting?
    ensures MoveIs(c, GiveNoAnswer(c), Ends(Unknown, Err(OutcomeUnknown)))
  {
  }

  lemma RunningIs(s: State, c: Call, a: Action, alive: bool)
    requires c.record.Some? && c.phase.Running?
    ensures MoveIs(c, AfterHandler(alive, c, a), EndingOf(s, c, a))
  {
    hide Envelope, Placeholder, Repeat, Escape, Fail, GiveNoAnswer;
    var v := AfterHandler(alive, c, a);
    if HandlerError(c, a).Some? {
      var code, d := HandlerError(c, a).value, c.(handlerFailed := true);
      FailureIs(c, d, code, false);
      assert v == Fail(d, code, false);
      assert EndingOf(s, c, a) == Ends(Failed, Err(code));
    } else if LosesResult(s, c, a) {
      NoAnswerIs(c);
      assert v == GiveNoAnswer(c);
      assert EndingOf(s, c, a) == Ends(Unknown, Err(OutcomeUnknown));
    } else {
      assert v.Local? && !v.call.phase.Ended?;
      assert EndingOf(s, c, a) == GoesOn;
    }
  }

  lemma BeforeHandlerIs(s: State, c: Call, a: Action, alive: bool)
    requires c.record.Some? && (c.phase.Admitting? || c.phase.Checking? || c.phase.Dispatching?)
    ensures MoveIs(c, BeforeHandler(alive, c, a), EndingOf(s, c, a))
  {
    hide Escape, Fail;
    if Refusal(c, a).Some? {
      var code, d := Refusal(c, a).value, if c.phase.Admitting? then c.(refused := true) else c;
      FailureIs(c, d, code, c.phase.Admitting?);
      assert BeforeHandler(alive, c, a) == Fail(d, code, c.phase.Admitting?);
      assert EndingOf(s, c, a) == Ends(Failed, Err(code));
    } else {
      assert BeforeHandler(alive, c, a).Local? && !BeforeHandler(alive, c, a).call.phase.Ended?;
      assert EndingOf(s, c, a) == GoesOn;
    }
  }

  lemma TakingIs(s: State, c: Call, a: Action)
    requires c.connection < |s.connections| && c.record.Some? && (c.phase.Returned? || c.phase.Encoding?)
    ensures MoveIs(c, AfterHandler(!s.connections[c.connection].cancelled, c, a), EndingOf(s, c, a))
  {
    hide Envelope, Placeholder, Repeat, Escape, GiveNoAnswer;
    var v := AfterHandler(!s.connections[c.connection].cancelled, c, a);
    if a.Encode? && a.encoded.Some? { StandInLength(a.encoded.value); }
    if LosesResult(s, c, a) {
      NoAnswerIs(c);
      assert v == GiveNoAnswer(c);
      assert EndingOf(s, c, a) == Ends(Unknown, Err(OutcomeUnknown));
    } else {
      assert v.Local? && !v.call.phase.Ended?;
      assert EndingOf(s, c, a) == GoesOn;
    }
  }

  lemma SuccessIs(c: Call)
    requires c.phase.Responding? && c.flushed && c.raw.Some?
    ensures MoveIs(c, Deliver(c, Commit), Ends(Succeeded, Ok(c.raw.value)))
  {
  }

  lemma DeliverIs(s: State, c: Call, a: Action)
    requires c.record.Some? && (c.flushed ==> c.raw.Some?) && (c.phase.Prepared? || c.phase.Responding?)
    ensures MoveIs(c, Deliver(c, a), EndingOf(s, c, a))
  {
    hide Envelope, Escape, GiveNoAnswer;
    if c.raw.Some? { EnvelopeLength(c.requestID, c.raw.value); }
    if LosesResult(s, c, a) {
      NoAnswerIs(c);
      assert Deliver(c, a) == GiveNoAnswer(c);
      assert EndingOf(s, c, a) == Ends(Unknown, Err(OutcomeUnknown));
    } else if Delivered(c, a) {
      SuccessIs(c);
      assert EndingOf(s, c, a) == Ends(Succeeded, Ok(c.raw.value));
    } else {
      assert Deliver(c, a).Local? && !Deliver(c, a).call.phase.Ended?;
      assert EndingOf(s, c, a) == GoesOn;
    }
  }

  lemma MoveIsExact(s: State, c: Call, a: Action)
    requires c.connection < |s.connections| && StageWell(c) && c.record.Some? && !c.phase.Ended?
    ensures MoveIs(c, Next(s, c, a), EndingOf(s, c, a))
  {
    hide MoveIs, EndingOf, BeforeHandler, AfterHandler, Deliver, Retry, Envelope, Placeholder, Attaches;
    match c.phase
    case Admitting => BeforeHandlerIs(s, c, a, !s.connections[c.connection].cancelled);
    case Checking => BeforeHandlerIs(s, c, a, !s.connections[c.connection].cancelled);
    case Dispatching => BeforeHandlerIs(s, c, a, !s.connections[c.connection].cancelled);
    case Running => RunningIs(s, c, a, !s.connections[c.connection].cancelled);
    case Returned => TakingIs(s, c, a);
    case Encoding => TakingIs(s, c, a);
    case _ => DeliverIs(s, c, a);
  }

  // ---- In every run ----------------------------------------------------------------------

  ghost predicate Owner(s: State, i: nat) {
    && i < |s.calls| && s.calls[i].record.Some? && !s.calls[i].phase.Ended?
    && s.calls[i].record.value < |s.ledger.records|
  }

  /** The call has ended so, and so has its record unless a release decided it; a refused admission unlinks it. */
  ghost predicate EndsAs(s: State, s': State, i: nat, status: Status, answer: Result<string>)
    requires Owner(s, i) && i < |s'.calls|
  {
    var c, c', r := s.calls[i], s'.calls[i], s.calls[i].record.value;
    && c'.phase.Ended? && c'.answer == Some(answer) && c'.preempted == s.ledger.records[r].finalized
    && |s'.ledger.records| == |s.ledger.records|
    && (c'.preempted ==> s'.ledger == s.ledger)
    && (!c'.preempted ==>
          && s'.ledger.records[r].finalized && s'.ledger.records[r].status == status
          && Reply(s'.ledger.records[r]) == answer
          && (Keyed(s'.ledger, r) <==> Keyed(s.ledger, r) && !c.phase.Admitting?))
  }

  lemma PerformIs(m: Limits, s: State, i: nat, v: Move, e: Ending)
    requires MutationLedger.Inv(m, s.ledger) && Owner(s, i) && MoveIs(s.calls[i], v, e) && v.Finish?
    requires var r := s.calls[i].record.value; !s.ledger.records[r].finalized ==> Fits(s.ledger, r, v.outcome)
    ensures |Perform(s, i, v).calls| == |s.calls| && EndsAs(s, Perform(s, i, v), i, e.status, e.answer)
  {
    FinalizeKeepsInv(m, s.ledger, s.calls[i].record.value, v.outcome, v.remove);
    hide Finalize, MutationLedger.Inv, Keyed;
  }

  lemma FinishFits(s: State, i: nat, v: Move)
    requires Owner(s, i) && CallWell(s, i) && v.Finish? && FinishWell(s.calls[i], v.call, v.outcome, v.remove)
    requires v.call.maximumBytes == s.calls[i].maximumBytes
    ensures var r := s.calls[i].record.value; !s.ledger.records[r].finalized ==> Fits(s.ledger, r, v.outcome)
  {
    hide StageWell, Keyed, Names, JoinerWell;
  }

  /** Over every run: exactly these four things end an owner's call, each with its own status and answer, and only a
      refused admission takes the record out of the maps. */
  lemma EndingsAreExact(m: Limits, es: seq<Event>, i: nat, a: Action)
    requires Owner(Run(m, es), i)
    ensures var s, s' := Run(m, es), Step(m, Run(m, es), Act(i, a));
      && |s'.calls| == |s.calls|
      && (match EndingOf(s, s.calls[i], a)
          case Ends(status, answer) => EndsAs(s, s', i, status, answer)
          case GoesOn => !s'.calls[i].phase.Ended? && s'.ledger == s.ledger)
  {
    RunInvariant(m, es);
    hide Run, StageWell, Next, Keyed, FinishWell, MutationLedger.Inv, EndsAs, EndingOf;
    var s := Run(m, es);
    var c := s.calls[i];
    assert CallWell(s, i);
    hide PassedOnce, OwnerWell;
    var v := Next(s, c, a);
    NextMeans(s, c, a);
    MoveIsExact(s, c, a);
    if v.Finish? {
      FinishFits(s, i, v);
      PerformIs(m, s, i, v, EndingOf(s, c, a));
    }
    hide Finalize;
  }

  // ---- The other steps of a call ---------------------------------------------------------

  /** What the reservation makes of the call. */
  function Begun(c: Call, d: Reservation): Call {
    match d
    case Join(r) => c.(phase := Waiting, joined := Some(r))
    case Reject(code) => c.(phase := Ended, answer := Some(Err(code)))
    case Reserve(r) => c.(phase := if Attaches(c.meta) then Admitting else Checking, record := Some(r))
  }

  /** A call that begins waits for the record it joins, is answered with the code it is rejected with, or owns a new
      pending record under its own names. */
  lemma BeginIsExact(m: Limits, s: State, i: nat)
    requires i < |s.calls|
    ensures var s', c := Start(m, s, i), s.calls[i];
      var d := Decide(m, s.ledger, c.meta.digest, RecordIDs(c.connection, c.meta), c.maximumBytes);
      && s'.calls == s.calls[i := Begun(c, d)] && s'.connections == s.connections
      && (!d.Reserve? ==> s'.ledger == s.ledger && s'.owners == s.owners)
      && (d.Reserve? ==>
            && d == Reserve(|s.ledger.records|) && s'.owners == s.owners + [i]
            && |s'.ledger.records| == |s.ledger.records| + 1
            && Names(s'.ledger.records[d.record], c) && s'.ledger.records[d.record].status.Pending?)
  {
    var c := s.calls[i];
    var id := RecordIDs(c.connection, c.meta);
    hide RecordIDs, Attaches, Enter;
    if Decide(m, s.ledger, c.meta.digest, id, c.maximumBytes).Reserve? {
      EnteredLast(m, s.ledger, c.meta.digest, id, c.maximumBytes);
    }
    hide Decide;
  }

  lemma EnteredLast(m: Limits, l: Ledger, digest: string, id: Identity, maximumBytes: u64)
    requires Decide(m, l, digest, id, maximumBytes).Reserve?
    ensures Decide(m, l, digest, id, maximumBytes) == Reserve(|l.records|)
    ensures Enter(l, digest, id, maximumBytes).records == l.records + [Blank(digest, id, maximumBytes)]
  {
  }

  /** A waiting call is answered with the record's outcome once that is final, or with what made it give up; nothing
      else changes. */
  lemma WaitIsExact(m: Limits, es: seq<Event>, j: nat, a: Action)
    requires j < |Run(m, es).calls| && Run(m, es).calls[j].phase.Waiting?
    ensures var s, s' := Run(m, es), Step(m, Run(m, es), Act(j, a));
      && s.calls[j].joined.Some? && s.calls[j].joined.value < |s.ledger.records| && j < |s'.calls|
      && var x := s.ledger.records[s.calls[j].joined.value];
      && (a.Wake? && x.finalized ==> s'.calls[j].phase.Ended? && s'.calls[j].answer == Some(Reply(x)))
      && (a.GiveUp? ==> s'.calls[j].phase.Ended? && s'.calls[j].answer == Some(Err(a.code)))
      && (!a.GiveUp? && !(a.Wake? && x.finalized) ==> s'.calls == s.calls)
      && s'.ledger == s.ledger
  {
    RunInvariant(m, es);
    hide Run, MutationLedger.Inv, Reply;
    var s := Run(m, es);
    assert CallWell(s, j);
    hide PassedOnce, OwnerWell;
  }

  /** A queued response can still reach the peer after its call has given up on it, which changes no outcome. */
  lemma LateWriteIsExact(m: Limits, es: seq<Event>, i: nat)
    requires i < |Run(m, es).calls| && Run(m, es).calls[i].queued
    ensures var s, s' := Run(m, es), Step(m, Run(m, es), Act(i, Write));
      s' == s.(calls := s.calls[i := s.calls[i].(flushed := true)])
  {
    hide StageWell, Next, Run, MutationLedger.Inv, PassedOnce, OwnerWell, JoinerWell;
    RunInvariant(m, es);
    var s := Run(m, es);
    assert CallWell(s, i);
    hide Good;
    QueuedIsWritten(s, s.calls[i]);
  }

  lemma QueuedIsWritten(s: State, c: Call)
    requires c.connection < |s.connections| && c.queued && StageWell(c)
    ensures Next(s, c, Write) == Local(c.(flushed := true))
  {
    assert c.phase.Prepared? || c.phase.Responding? || c.phase.Ended?;
    hide StageWell;
  }
}
