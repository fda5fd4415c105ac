/**
 The server over its whole lifetime: connections open, are cancelled and are
 released; mutation requests arrive on them, reserve or join a record, run the
 handler, encode, flush and commit or roll back.  An event is one hold of the
 server's mutex or one decision between two of them; deadlines, cancellation and
 transport failures are events that may happen at any time.  All results are
 about every sequence of events.
 */
module MutationRuns {
  import opened Base
  import opened MutationLedger
  import opened MutationIdentity

  datatype Phase =
    | Arrived      // decoded and validated, not yet in the ledger
    | Waiting      // an equal command is recorded; waits for it to be finalized
    | Admitting    // terminal.attach reserves a subscription
    | Checking     // looks at its context for the last time before dispatch
    | Dispatching  // handed to the dispatcher, handler not yet called
    | Running      // the handler is running
    | Returned     // the handler succeeded; looks at its context again
    | Encoding     // subscription prepared, result to be encoded
    | Prepared     // holds a commit and a rollback action
    | Responding   // response queued for the writer
    | Ended

  datatype Call = Call(
    connection: nat, meta: Meta, requestID: string, maximumBytes: u64,
    phase: Phase,
    record: Option<nat>,      // the record this call reserved
    joined: Option<nat>,      // the record this call waited for
    refused: bool,            // subscription admission failed
    passed: bool,             // went past the last context check
    ran: bool,                // the handler was called
    handlerFailed: bool,      // and returned an error
    raw: Option<string>,      // the encoded result
    queued: bool,             // the response was handed to the writer
    flushed: bool,            // and reached the peer
    answer: Option<Result<string>>,
    woken: bool,              // answered from the record it waited for
    preempted: bool)          // a release had made its record final before the call ended

  datatype Release = Serving | Collected(order: seq<nat>, done: nat) | Released

  datatype Connection = Connection(cancelled: bool, release: Release)

  /** `owners[r]` is the call that reserved record r. */
  datatype State = State(ledger: Ledger, owners: seq<nat>, calls: seq<Call>, connections: seq<Connection>)

  datatype Handled = Erred(code: ErrorCode) | InvalidResult | Succeeds

  datatype Action =
    | Admit(failure: Option<ErrorCode>)
    | Check(failure: Option<ErrorCode>)     // the context's error, if it has one
    | Refuse(code: ErrorCode)               // metadata or request refused before the handler
    | Invoke
    | Return(handled: Handled)
    | Recheck(alive: bool)
    | Encode(encoded: Option<string>)       // None: preparing the subscription or encoding failed
    | Respond(alive: bool, maximum: nat)
    | Write                                 // the writer flushes the queued response
    | Commit
    | Rollback
    | Wake
    | GiveUp(code: ErrorCode)

  datatype Event =
    | Open
    | Arrive(connection: nat, meta: Meta, requestID: string, maximumBytes: u64)
    | Begin(call: nat)
    | Act(call: nat, action: Action)
    | Cancel(connection: nat)
    | Collect(connection: nat, order: seq<nat>)
    | FinalizeNext(connection: nat)
    | Delete(connection: nat)

  // ---- Responses on the wire -------------------------------------------------------------

  /** How the JSON encoder writes one printable ASCII character of a request ID. */
  function EscapeChar(c: char): string {
    if c == '"' || c == '\\' then ['\\', c]
    else if c == '<' then "\\u003c"
    else if c == '>' then "\\u003e"
    else if c == '&' then "\\u0026"
    else [c]
  }

  function Escape(s: string): string {
    if s == [] then [] else EscapeChar(s[0]) + Escape(s[1..])
  }

  function Envelope(requestID: string, raw: string): string {
    "{\"jsonrpc\":\"2.0\",\"id\":\"" + Escape(requestID) + "\",\"result\":" + raw + "}"
  }

  function Repeat(c: char, n: nat): (s: string)
    ensures |s| == n && forall i :: 0 <= i < n ==> s[i] == c
  {
    if n == 0 then [] else [c] + Repeat(c, n - 1)
  }

  /** The longest request ID, as the encode check before commit stands in for it. */
  function Placeholder(): string {
    Repeat('r', 256)
  }

  // ---- Steps -----------------------------------------------------------------------------

  /** What an action does to its call and, when it ends the call, to the call's record. */
  datatype Move =
    | Local(call: Call)
    | Finish(call: Call, outcome: Outcome, remove: bool)

  const UNKNOWN: Outcome := Outcome(Unknown, "", None)

  function Fail(c: Call, code: ErrorCode, remove: bool): Move {
    Finish(c.(phase := Ended, answer := Some(Err(code))), Outcome(Failed, "", Some(code)), remove)
  }

  function GiveNoAnswer(c: Call): Move {
    Finish(c.(phase := Ended, answer := Some(Err(OutcomeUnknown))), UNKNOWN, false)
  }

  function Reply(x: Record): Result<string> {
    match x.status
    case Succeeded => Ok(x.result)
    case Failed => Err(if x.failure.Some? then x.failure.value else Unavailable)
    case Unknown => Err(OutcomeUnknown)
    case Pending => Err(Unavailable)
  }

  /** Actions that do not fit the call's phase, or that a cancelled context rules out, do nothing. */
  function Next(s: State, c: Call, a: Action): Move
    requires c.connection < |s.connections|
  {
    match c.phase
    case Admitting => BeforeHandler(!s.connections[c.connection].cancelled, c, a)
    case Checking => BeforeHandler(!s.connections[c.connection].cancelled, c, a)
    case Dispatching => BeforeHandler(!s.connections[c.connection].cancelled, c, a)
    case Running => AfterHandler(!s.connections[c.connection].cancelled, c, a)
    case Returned => AfterHandler(!s.connections[c.connection].cancelled, c, a)
    case Encoding => AfterHandler(!s.connections[c.connection].cancelled, c, a)
    case Waiting => Retry(s.ledger, c, a)
    case _ => Deliver(c, a)
  }

  function BeforeHandler(alive: bool, c: Call, a: Action): Move {
    match (a, c.phase)
    case (Admit(failure), Admitting) =>
      if failure.Some? then Fail(c.(refused := true), failure.value, true) else Local(c.(phase := Checking))
    case (Check(failure), Checking) =>
      if failure.Some? then Fail(c, failure.value, false)
      else if alive then Local(c.(phase := Dispatching, passed := true)) else Local(c)
    case (Refuse(code), Dispatching) => Fail(c, code, false)
    case (Invoke, Dispatching) => Local(c.(phase := Running, ran := true))
    case _ => Local(c)
  }

  function AfterHandler(alive: bool, c: Call, a: Action): Move {
    match (a, c.phase)
    case (Return(Erred(code)), Running) => Fail(c.(handlerFailed := true), code, false)
    case (Return(InvalidResult), Running) => GiveNoAnswer(c)
    case (Return(Succeeds), Running) => Local(c.(phase := Returned))
    case (Recheck(ok), Returned) => if ok && alive then Local(c.(phase := Encoding)) else GiveNoAnswer(c)
    case (Encode(encoded), Encoding) =>
      if encoded.Some? && |Envelope(Placeholder(), encoded.value)| <= c.maximumBytes
      then Local(c.(phase := Prepared, raw := encoded)) else GiveNoAnswer(c)
    case _ => Local(c)
  }

  /** A queued response may still be written after its call gave up on it. */
  function Deliver(c: Call, a: Action): Move {
    match (a, c.phase)
    case (Respond(ok, maximum), Prepared) =>
      if ok && c.raw.Some? && |Envelope(c.requestID, c.raw.value)| <= maximum
      then Local(c.(phase := Responding, queued := true)) else GiveNoAnswer(c)
    case (Write, _) => if c.queued then Local(c.(flushed := true)) else Local(c)
    case (Commit, Responding) =>
      if c.flushed && c.raw.Some? then
        Finish(c.(phase := Ended, answer := Some(Ok(c.raw.value))), Outcome(Succeeded, c.raw.value, None), false)
      else Local(c)
    case (Rollback, Responding) => GiveNoAnswer(c)
    case _ => Local(c)
  }

  function Retry(l: Ledger, c: Call, a: Action): Move {
    match a
    case Wake =>
      if c.joined.Some? && c.joined.value < |l.records| && l.records[c.joined.value].finalized
      then Local(c.(phase := Ended, woken := true, answer := Some(Reply(l.records[c.joined.value])))) else Local(c)
    case GiveUp(code) => Local(c.(phase := Ended, answer := Some(Err(code))))
    case _ => Local(c)
  }

  function Perform(s: State, i: nat, v: Move): State
    requires i < |s.calls|
  {
    match v
    case Local(c) => s.(calls := s.calls[i := c])
    case Finish(c, o, remove) =>
      if c.record.Some? && c.record.value < |s.ledger.records| then
        var r := c.record.value;
        s.(calls := s.calls[i := c.(preempted := s.ledger.records[r].finalized)],
           ledger := Finalize(s.ledger, r, o, remove))
      else s
  }

  function Start(m: Limits, s: State, i: nat): State
    requires i < |s.calls|
  {
    var c := s.calls[i];
    var id := RecordIDs(c.connection, c.meta);
    match Decide(m, s.ledger, c.meta.digest, id, c.maximumBytes)
    case Join(r) => s.(calls := s.calls[i := c.(phase := Waiting, joined := Some(r))])
    case Reject(code) => s.(calls := s.calls[i := c.(phase := Ended, answer := Some(Err(code)))])
    case Reserve(r) =>
      s.(ledger := Enter(s.ledger, c.meta.digest, id, c.maximumBytes), owners := s.owners + [i],
         calls := s.calls[i := c.(phase := if Attaches(c.meta) then Admitting else Checking, record := Some(r))])
  }

  function SetRelease(s: State, k: nat, release: Release): State
    requires k < |s.connections|
  {
    s.(connections := s.connections[k := s.connections[k].(release := release)])
  }

  ghost function Step(m: Limits, s: State, e: Event): State {
    match e
    case Open => s.(connections := s.connections + [Connection(false, Serving)])
    case Arrive(k, meta, requestID, maximumBytes) =>
      if k < |s.connections| && ValidMeta(meta) then
        s.(calls := s.calls + [Call(k, meta, requestID, maximumBytes, Arrived, None, None,
                                    false, false, false, false, None, false, false, None, false, false)])
      else s
    case Begin(i) => if i < |s.calls| && s.calls[i].phase.Arrived? then Start(m, s, i) else s
    case Act(i, a) =>
      if i < |s.calls| && s.calls[i].connection < |s.connections| then Perform(s, i, Next(s, s.calls[i], a)) else s
    case Cancel(k) =>
      if k < |s.connections| then s.(connections := s.connections[k := s.connections[k].(cancelled := true)]) else s
    case Collect(k, order) =>
      if k < |s.connections| && s.connections[k].cancelled && s.connections[k].release.Serving?
         && Collects(s.ledger, ConnectionName(k), order)
      then SetRelease(s, k, Collected(order, 0)) else s
    case FinalizeNext(k) =>
      if k < |s.connections| && s.connections[k].release.Collected? then
        var order := s.connections[k].release.order;
        var done := s.connections[k].release.done;
        if done < |order| && order[done] < |s.ledger.records| then
          SetRelease(s, k, Collected(order, done + 1)).(ledger := Finalize(s.ledger, order[done], UNKNOWN, false))
        else s
      else s
    case Delete(k) =>
      if k < |s.connections| && s.connections[k].release.Collected? then
        var order := s.connections[k].release.order;
        if s.connections[k].release.done == |order| && Within(s.ledger, order) then
          SetRelease(s, k, Released).(ledger := UnlinkAll(s.ledger, order))
        else s
      else s
  }

  const BEGIN: State := State(EMPTY, [], [], [])

  ghost function RunFrom(m: Limits, s: State, es: seq<Event>): State
    decreases |es|
  {
    if es == [] then s else RunFrom(m, Step(m, s, es[0]), es[1..])
  }

  ghost function Run(m: Limits, es: seq<Event>): State {
    RunFrom(m, BEGIN, es)
  }

  // ---- The invariant ---------------------------------------------------------------------

  /** What a call's own fields say about how far it has come. */
  ghost predicate StageWell(c: Call) {
    && (c.ran ==> c.passed)
    && (c.passed ==> c.record.Some? && !c.refused)
    && (c.handlerFailed ==> c.ran && c.phase.Ended?)
    && (c.refused ==> c.phase.Ended?)
    && (c.preempted ==> c.phase.Ended? && c.record.Some?)
    && (c.woken ==> c.phase.Ended? && c.joined.Some?)
    && (c.queued ==> c.raw.Some?) && (c.flushed ==> c.queued)
    && (c.raw.Some? ==> c.ran && !c.handlerFailed && |Envelope(Placeholder(), c.raw.value)| <= c.maximumBytes
                        && (c.phase.Prepared? || c.phase.Responding? || c.phase.Ended?))
    && (match c.phase
        case Arrived => c.record.None? && c.joined.None? && c.answer.None? && !c.refused
        case Waiting => c.record.None? && c.joined.Some? && c.answer.None? && !c.refused
        case Ended => c.record.Some? ==> c.joined.None?
        case Admitting => c.record.Some? && c.joined.None? && !c.passed && Attaches(c.meta)
        case Checking => c.record.Some? && c.joined.None? && !c.passed
        case Dispatching => c.record.Some? && c.joined.None? && c.passed && !c.ran
        case _ => c.record.Some? && c.joined.None? && c.passed && c.ran)
  }

  /** A final status is true to the history of the call that owns the record. */
  predicate Truthful(x: Record, c: Call) {
    && (x.status.Succeeded? ==> c.phase.Ended? && c.flushed && c.raw == Some(x.result))
    && (x.status.Failed? ==> c.phase.Ended? && (!c.ran || c.handlerFailed))
    && (c.phase.Ended? ==> x.finalized)
    && (!x.finalized ==> x.reservedBytes == c.maximumBytes)
    && (c.phase.Ended? && !c.preempted ==> c.answer == Some(Reply(x)))
    && (c.preempted ==> x.status.Unknown?)
  }

  predicate Names(x: Record, c: Call) {
    && Identity(x.idempotencyID, x.commandID, x.connectionID) == RecordIDs(c.connection, c.meta)
    && x.digest == c.meta.digest
  }

  ghost predicate OwnerWell(s: State, c: Call, r: nat) {
    && r < |s.ledger.records| && c.connection < |s.connections|
    && Names(s.ledger.records[r], c) && Truthful(s.ledger.records[r], c)
    && (!c.refused && (Attaches(c.meta) ==> s.connections[c.connection].release.Serving?) ==> Keyed(s.ledger, r))
    && (Overtaken(s.ledger.records[r], c) ==> Attaches(c.meta) && !s.connections[c.connection].release.Serving?)
  }

  /** Someone other than the owner has made the record final. */
  predicate Overtaken(x: Record, c: Call) {
    c.preempted || (x.finalized && !c.phase.Ended?)
  }

  ghost predicate JoinerWell(s: State, c: Call, r: nat) {
    && r < |s.ledger.records|
    && s.ledger.records[r].idempotencyID == RecordIDs(c.connection, c.meta).idempotencyID
    && s.ledger.records[r].digest == c.meta.digest
    && (c.answer.Some? && c.answer.value.Ok? ==> c.woken)
    && (c.woken ==> s.ledger.records[r].finalized && c.answer == Some(Reply(s.ledger.records[r])))
  }

  ghost predicate CallWell(s: State, i: nat)
    requires i < |s.calls|
  {
    var c := s.calls[i];
    && ValidMeta(c.meta) && c.connection < |s.connections| && StageWell(c)
    && (c.record.Some? ==>
          OwnerWell(s, c, c.record.value) && c.record.value < |s.owners| && s.owners[c.record.value] == i)
    && (c.joined.Some? ==> JoinerWell(s, c, c.joined.value))
  }

  ghost predicate Owned(s: State) {
    && |s.owners| == |s.ledger.records|
    && forall r :: 0 <= r < |s.owners| ==> s.owners[r] < |s.calls| && s.calls[s.owners[r]].record == Some(r)
  }

  ghost predicate ReleaseWell(s: State, k: nat)
    requires k < |s.connections|
  {
    var n := s.connections[k];
    && (!n.release.Serving? ==> n.cancelled)
    && (n.release.Collected? ==>
          && n.release.done <= |n.release.order|
          && forall i :: 0 <= i < |n.release.order| ==> ReleasedWell(s, k, n.release.order[i], i < n.release.done))
  }

  ghost predicate ReleasedWell(s: State, k: nat, r: nat, done: bool) {
    r < |s.ledger.records| && s.ledger.records[r].connectionID == ConnectionName(k)
        && (done ==> s.ledger.records[r].finalized)
  }

  /** No two calls with the same name get past the last check before dispatch. */
  ghost predicate PassedOnce(s: State) {
    forall i, j :: 0 <= i < |s.calls| && 0 <= j < |s.calls| && SamePassed(s.calls[i], s.calls[j]) ==> i == j
  }

  ghost predicate SamePassed(c: Call, d: Call) {
    c.passed && d.passed && RecordIDs(c.connection, c.meta).idempotencyID ==
        RecordIDs(d.connection, d.meta).idempotencyID
  }

  ghost predicate Good(m: Limits, s: State) {
    && MutationLedger.Inv(m, s.ledger) && Owned(s) && PassedOnce(s)
    && (forall i :: 0 <= i < |s.calls| ==> CallWell(s, i))
    && (forall k :: 0 <= k < |s.connections| ==> ReleaseWell(s, k))
  }

  // ---- What may change about a record ----------------------------------------------------

  /** Names never change, and neither does an outcome once it is final. */
  ghost predicate RecordEvolves(x: Record, y: Record) {
    && y.digest == x.digest && y.idempotencyID == x.idempotencyID
    && y.commandID == x.commandID && y.connectionID == x.connectionID
    && (x.finalized ==> y.finalized && y.status == x.status && y.result == x.result && y.failure == x.failure)
  }

  ghost predicate Evolves(l: Ledger, l': Ledger) {
    |l.records| <= |l'.records| && forall r :: 0 <= r < |l.records| ==> RecordEvolves(l.records[r], l'.records[r])
  }

  /** What someone other than its owner may do to a record: finalize it as unknown, or drop its reservation once
      final. */
  ghost predicate Disturbed(x: Record, y: Record) {
    || y == x
    || (x.finalized && y == x.(reservedBytes := 0))
    || (!x.finalized && y == x.(status := Unknown, result := "", reservedBytes := 0, finalized := true))
  }

  ghost predicate ServingKept(s: State, s': State) {
    && |s.connections| <= |s'.connections|
    && forall k :: 0 <= k < |s.connections| && s'.connections[k].release.Serving? ==> s.connections[k].release.Serving?
  }

  lemma OwnerKept(s: State, s': State, c: Call, r: nat)
    requires OwnerWell(s, c, r) && ServingKept(s, s') && r < |s'.ledger.records|
    requires Disturbed(s.ledger.records[r], s'.ledger.records[r])
    requires Keyed(s.ledger, r) && !Keyed(s'.ledger, r) ==>
               Attaches(c.meta) && !s'.connections[c.connection].release.Serving?
    requires !s.ledger.records[r].finalized && s'.ledger.records[r].finalized ==>
               Attaches(c.meta) && !s'.connections[c.connection].release.Serving?
    ensures OwnerWell(s', c, r)
  {
    hide Keyed, RecordIDs;
  }

  lemma CallKept(s: State, s': State, j: nat)
    requires j < |s.calls| && j < |s'.calls| && s'.calls[j] == s.calls[j] && CallWell(s, j)
    requires Evolves(s.ledger, s'.ledger) && |s.connections| <= |s'.connections| && s.owners <= s'.owners
    requires s.calls[j].record.Some? ==> OwnerWell(s', s.calls[j], s.calls[j].record.value)
    ensures CallWell(s', j)
  {
    hide StageWell, OwnerWell, RecordIDs, ValidMeta;
    var c := s.calls[j];
    if c.joined.Some? { assert RecordEvolves(s.ledger.records[c.joined.value], s'.ledger.records[c.joined.value]); }
  }

  lemma ReleaseKept(s: State, s': State, k: nat)
    requires k < |s.connections| && k < |s'.connections| && ReleaseWell(s, k)
    requires s'.connections[k].release == s.connections[k].release
        && (s.connections[k].cancelled ==> s'.connections[k].cancelled)
    requires Evolves(s.ledger, s'.ledger)
    ensures ReleaseWell(s', k)
  {
    var n := s.connections[k];
    if n.release.Collected? {
      forall i | 0 <= i < |n.release.order| ensures ReleasedWell(s', k, n.release.order[i], i < n.release.done) {
        var r := n.release.order[i];
        assert ReleasedWell(s, k, r, i < n.release.done);
        assert RecordEvolves(s.ledger.records[r], s'.ledger.records[r]);
      }
    }
  }

  lemma EvolvesReflexive(l: Ledger)
    ensures Evolves(l, l)
  {
  }

  // ---- Connections opening, requests arriving, cancellation ------------------------------

  ghost predicate Plain(e: Event) {
    e.Open? || e.Arrive? || e.Cancel? || e.Collect?
  }

  lemma PlainKeepsGood(m: Limits, s: State, e: Event)
    requires Good(m, s) && Plain(e)
    ensures Good(m, Step(m, s, e))
  {
    hide MutationLedger.Inv, Names, Truthful, RecordIDs;
    var s' := Step(m, s, e);
    EvolvesReflexive(s.ledger);
    forall i | 0 <= i < |s'.calls| ensures CallWell(s', i) {
      if i < |s.calls| {
        assert CallWell(s, i);
        var c := s.calls[i];
        if c.record.Some? { OwnerKept(s, s', c, c.record.value); }
        CallKept(s, s', i);
      }
    }
    forall k | 0 <= k < |s'.connections| ensures ReleaseWell(s', k) {
      if k < |s.connections| {
        assert ReleaseWell(s, k);
        if s'.connections[k].release == s.connections[k].release { ReleaseKept(s, s', k); }
      }
    }
  }

  // ---- A call reserves or joins ----------------------------------------------------------

  lemma StartKeepsGood(m: Limits, s: State, i: nat)
    requires Good(m, s) && i < |s.calls| && s.calls[i].phase.Arrived?
    ensures Good(m, Start(m, s, i))
  {
    hide MutationLedger.Inv, RecordIDs, Enter, Decide;
    var s' := Start(m, s, i);
    var c := s.calls[i];
    var id := RecordIDs(c.connection, c.meta);
    assert CallWell(s, i);
    match Decide(m, s.ledger, c.meta.digest, id, c.maximumBytes)
    case Reserve(_) =>
      ReserveKeepsGood(m, s, i);
    case _ =>
      JoinMeans(m, s.ledger, c.meta.digest, id, c.maximumBytes);
      EvolvesReflexive(s.ledger);
      OneCallChanges(m, s, s', i);
  }

  lemma JoinMeans(m: Limits, l: Ledger, digest: string, id: Identity, maximumBytes: u64)
    requires MutationLedger.Inv(m, l)
    ensures var d := Decide(m, l, digest, id, maximumBytes);
      d.Join? ==>
        && d.record < |l.records| && l.records[d.record].idempotencyID == id.idempotencyID
        && l.records[d.record].digest == digest
  {
  }

  /** A step that changes one call and no record, when that call stays well-formed and passes nothing new. */
  lemma OneCallChanges(m: Limits, s: State, s': State, i: nat)
    requires Good(m, s) && i < |s.calls| && |s'.calls| == |s.calls|
    requires s' == s.(calls := s.calls[i := s'.calls[i]])
    requires CallWell(s', i) && s'.calls[i].record == s.calls[i].record
    requires s'.calls[i].connection == s.calls[i].connection && s'.calls[i].meta == s.calls[i].meta
    requires s'.calls[i].passed ==> s.calls[i].passed || AloneAfter(s', i)
    ensures Good(m, s')
  {
    hide MutationLedger.Inv, RecordIDs, StageWell;
    EvolvesReflexive(s.ledger);
    forall j | 0 <= j < |s'.calls| ensures CallWell(s', j) {
      if j != i { assert CallWell(s, j); CallKept(s, s', j); }
    }
    forall k | 0 <= k < |s'.connections| ensures ReleaseWell(s', k) {
      assert ReleaseWell(s, k);
      ReleaseKept(s, s', k);
    }
    forall p, q | 0 <= p < |s'.calls| && 0 <= q < |s'.calls| && SamePassed(s'.calls[p], s'.calls[q]) ensures p == q {
      if s.calls[i].passed || (p != i && q != i) { assert SamePassed(s.calls[p], s.calls[q]); }
    }
  }

  /** No other call of the same name has passed. */
  ghost predicate AloneAfter(s: State, i: nat)
    requires i < |s.calls|
  {
    forall j :: 0 <= j < |s.calls| && j != i ==>
        !SamePassed(s.calls[i], s.calls[j]) && !SamePassed(s.calls[j], s.calls[i])
  }

  lemma ReserverWell(s: State, c: Call, d: Call, i: nat, n: nat)
    requires i < |s.calls| && s.calls[i] == d && c.phase.Arrived? && StageWell(c) && ValidMeta(c.meta)
        && c.connection < |s.connections|
    requires d == c.(phase := if Attaches(c.meta) then Admitting else Checking, record := Some(n))
    requires n < |s.ledger.records| && n < |s.owners| && s.owners[n] == i && Keyed(s.ledger, n)
    requires s.ledger.records[n] == Blank(c.meta.digest, RecordIDs(c.connection, c.meta), c.maximumBytes)
    ensures CallWell(s, i)
  {
    hide RecordIDs, Keyed, Envelope;
  }

  lemma ReserveKeepsGood(m: Limits, s: State, i: nat)
    requires Good(m, s) && i < |s.calls| && s.calls[i].phase.Arrived?
    requires Decide(m, s.ledger, s.calls[i].meta.digest, RecordIDs(s.calls[i].connection, s.calls[i].meta),
          s.calls[i].maximumBytes).Reserve?
    ensures Good(m, Start(m, s, i))
  {
    var s' := Start(m, s, i);
    var c := s.calls[i];
    var id := RecordIDs(c.connection, c.meta);
    var n := |s.ledger.records|;
    EnterKeepsInv(m, s.ledger, c.meta.digest, id, c.maximumBytes);
    assert s'.ledger.records[n] == Blank(c.meta.digest, id, c.maximumBytes);
    hide MutationLedger.Inv, RecordIDs, Enter, Keyed, StageWell, OwnerWell, PassedOnce, Blank;
    assert CallWell(s, i);
    ReserverWell(s', c, s'.calls[i], i, n);
    RecordAppended(m, s, s', i);
  }

  /** The rest of the state does not notice a new record. */
  lemma RecordAppended(m: Limits, s: State, s': State, i: nat)
    requires Good(m, s) && MutationLedger.Inv(m, s'.ledger) && i < |s.calls|
    requires |s'.ledger.records| == |s.ledger.records| + 1 && |s'.calls| == |s.calls|
    requires forall r :: 0 <= r < |s.ledger.records| ==>
               s'.ledger.records[r] == s.ledger.records[r] && (Keyed(s'.ledger, r) <==> Keyed(s.ledger, r))
    requires s'.connections == s.connections && s'.owners == s.owners + [i] && s'.calls == s.calls[i := s'.calls[i]]
    requires s.calls[i].record.None? && s'.calls[i].record == Some(|s.ledger.records|)
    requires !s'.calls[i].passed && CallWell(s', i)
    ensures Good(m, s')
  {
    hide MutationLedger.Inv, RecordIDs, Keyed, StageWell, Names, Truthful;
    forall j | 0 <= j < |s'.calls| && j != i ensures CallWell(s', j) {
      assert CallWell(s, j);
      if s.calls[j].record.Some? { OwnerKept(s, s', s.calls[j], s.calls[j].record.value); }
      CallKept(s, s', j);
    }
    forall k | 0 <= k < |s'.connections| ensures ReleaseWell(s', k) {
      assert ReleaseWell(s, k);
      ReleaseKept(s, s', k);
    }
    forall p, q | 0 <= p < |s'.calls| && 0 <= q < |s'.calls| && SamePassed(s'.calls[p], s'.calls[q]) ensures p == q {
      assert SamePassed(s.calls[p], s.calls[q]);
    }
    forall r | 0 <= r < |s'.owners| ensures s'.owners[r] < |s'.calls| && s'.calls[s'.owners[r]].record == Some(r) {
      if r < |s.owners| { assert s.calls[s.owners[r]].record == Some(r); }
    }
  }

  // ---- A call acts -----------------------------------------------------------------------

  /** What stays and what may change about a call in any action. */
  ghost predicate LocalWell(s: State, c: Call, d: Call)
    requires c.connection < |s.connections|
  {
    && d.refused == c.refused
    && (d.passed && !c.passed ==> c.phase.Checking? && !s.connections[c.connection].cancelled)
    && (c.record.Some? ==> (d.phase.Ended? <==> c.phase.Ended?))
    && (c.phase.Ended? ==> d == c.(flushed := d.flushed) && (c.flushed ==> d.flushed))
    && d.preempted == c.preempted && (c.record.Some? ==> d.answer == c.answer)
    && (d.answer != c.answer && d.answer.Some? && d.answer.value.Ok? ==> d.woken)
    && (d.woken != c.woken ==>
          && d.woken && c.joined.Some? && c.joined.value < |s.ledger.records|
          && s.ledger.records[c.joined.value].finalized
          && d.answer == Some(Reply(s.ledger.records[c.joined.value])))
    && (c.woken ==> d.answer == c.answer)
  }

  /** The answer that goes with an outcome. */
  function ReplyTo(o: Outcome): Result<string> {
    match o.status
    case Succeeded => Ok(o.result)
    case Failed => Err(if o.failure.Some? then o.failure.value else Unavailable)
    case Unknown => Err(OutcomeUnknown)
    case Pending => Err(Unavailable)
  }

  /** A finalization is true to the call that makes it, and what it retains fits the reservation. */
  ghost predicate FinishWell(c: Call, d: Call, o: Outcome, remove: bool) {
    && c.record.Some? && c.joined.None? && !c.refused
    && !c.phase.Ended? && d.phase.Ended? && !o.status.Pending?
    && (o.status.Succeeded? ==> d.flushed && d.raw == Some(o.result) && |o.result| <= d.maximumBytes)
    && (o.status.Failed? ==> !d.ran || d.handlerFailed)
    && (o.status.Failed? ==> o.failure.Some?) && d.answer == Some(ReplyTo(o))
    && d.passed == c.passed && !c.preempted
    && (remove ==> d.refused) && (d.refused && !c.refused ==> remove)
  }

  lemma EnvelopeLength(requestID: string, raw: string)
    ensures |Envelope(requestID, raw)| == 35 + |Escape(requestID)| + |raw|
  {
    hide Escape;
  }

  lemma ResultInEnvelope(requestID: string, raw: string)
    ensures |raw| <= |Envelope(requestID, raw)|
  {
    EnvelopeLength(requestID, raw);
  }

  ghost predicate MoveWell(s: State, c: Call, v: Move)
    requires c.connection < |s.connections|
  {
    && StageWell(v.call) && v.call.connection == c.connection && v.call.meta == c.meta
    && v.call.maximumBytes == c.maximumBytes && v.call.record == c.record && v.call.joined == c.joined
    && (v.Local? ==> LocalWell(s, c, v.call))
    && (v.Finish? ==> FinishWell(c, v.call, v.outcome, v.remove))
  }

  lemma NextMeans(s: State, c: Call, a: Action)
    requires c.connection < |s.connections| && StageWell(c)
    ensures MoveWell(s, c, Next(s, c, a))
  {
    hide Envelope, Placeholder, Attaches, MoveWell, BeforeHandler, AfterHandler, Deliver, Retry, StageWell;
    match c.phase
    case Admitting => BeforeHandlerMeans(s, c, a);
    case Checking => BeforeHandlerMeans(s, c, a);
    case Dispatching => BeforeHandlerMeans(s, c, a);
    case Running => AfterHandlerMeans(s, c, a);
    case Returned => AfterHandlerMeans(s, c, a);
    case Encoding => AfterHandlerMeans(s, c, a);
    case Waiting => RetryMeans(s, c, a);
    case _ => DeliverMeans(s, c, a);
  }

  lemma BeforeHandlerMeans(s: State, c: Call, a: Action)
    requires c.connection < |s.connections| && StageWell(c)
        && (c.phase.Admitting? || c.phase.Checking? || c.phase.Dispatching?)
    ensures MoveWell(s, c, BeforeHandler(!s.connections[c.connection].cancelled, c, a))
  {
    hide Envelope, Placeholder, Attaches;
  }

  lemma AfterHandlerMeans(s: State, c: Call, a: Action)
    requires c.connection < |s.connections| && StageWell(c)
        && (c.phase.Running? || c.phase.Returned? || c.phase.Encoding?)
    ensures MoveWell(s, c, AfterHandler(!s.connections[c.connection].cancelled, c, a))
  {
    hide Envelope, Placeholder, Attaches;
  }

  lemma DeliverMeans(s: State, c: Call, a: Action)
    requires c.connection < |s.connections| && StageWell(c)
    requires c.phase.Arrived? || c.phase.Prepared? || c.phase.Responding? || c.phase.Ended?
    ensures MoveWell(s, c, Deliver(c, a))
  {
    hide Envelope, Placeholder, Attaches;
    if c.raw.Some? { ResultInEnvelope(Placeholder(), c.raw.value); }
  }

  lemma RetryMeans(s: State, c: Call, a: Action)
    requires c.connection < |s.connections| && StageWell(c) && c.phase.Waiting?
    ensures MoveWell(s, c, Retry(s.ledger, c, a))
  {
    hide Envelope, Placeholder, Attaches;
  }

  lemma ActKeepsGood(m: Limits, s: State, i: nat, a: Action)
    requires Good(m, s) && i < |s.calls|
    ensures Good(m, Step(m, s, Act(i, a)))
  {
    hide MutationLedger.Inv, RecordIDs, Next, StageWell;
    var c := s.calls[i];
    assert CallWell(s, i);
    NextMeans(s, c, a);
    match Next(s, c, a)
    case Local(d) => LocalKeepsGood(m, s, i, d);
    case Finish(d, o, remove) => FinishKeepsGood(m, s, i, d, o, remove);
  }

  lemma LocalKeepsGood(m: Limits, s: State, i: nat, d: Call)
    requires Good(m, s) && i < |s.calls| && s.calls[i].connection < |s.connections|
    requires StageWell(d) && LocalWell(s, s.calls[i], d)
    requires d.connection == s.calls[i].connection && d.meta == s.calls[i].meta
        && d.maximumBytes == s.calls[i].maximumBytes
    requires d.record == s.calls[i].record && d.joined == s.calls[i].joined
    ensures Good(m, s.(calls := s.calls[i := d]))
  {
    var s' := s.(calls := s.calls[i := d]);
    var c := s.calls[i];
    assert CallWell(s, i);
    if d.passed && !c.passed { PassesAlone(m, s, i, d); }
    LocalCallWell(s, i, d);
    hide Good, CallWell, LocalWell, StageWell, AloneAfter;
    OneCallChanges(m, s, s', i);
  }

  lemma LocalCallWell(s: State, i: nat, d: Call)
    requires i < |s.calls| && CallWell(s, i) && StageWell(d) && LocalWell(s, s.calls[i], d)
    requires d.connection == s.calls[i].connection && d.meta == s.calls[i].meta
    requires d.maximumBytes == s.calls[i].maximumBytes
    requires d.record == s.calls[i].record && d.joined == s.calls[i].joined
    ensures CallWell(s.(calls := s.calls[i := d]), i)
    ensures d.passed && !s.calls[i].passed ==>
              s.calls[i].phase.Checking? && !s.connections[s.calls[i].connection].cancelled
  {
    hide RecordIDs, StageWell, Keyed, ValidMeta, Reply;
  }

  /** A call that passes the last check on a live connection is the only one of its name to do so. */
  lemma PassesAlone(m: Limits, s: State, i: nat, d: Call)
    requires Good(m, s) && i < |s.calls| && s.calls[i].connection < |s.connections|
    requires s.calls[i].phase.Checking? && !s.connections[s.calls[i].connection].cancelled
    requires d.connection == s.calls[i].connection && d.meta == s.calls[i].meta
    ensures AloneAfter(s.(calls := s.calls[i := d]), i)
  {
    hide MutationLedger.Inv, RecordIDs;
    var c := s.calls[i];
    assert CallWell(s, i) && ReleaseWell(s, c.connection);
    assert Keyed(s.ledger, c.record.value);
    forall j | 0 <= j < |s.calls| && j != i
      ensures !SamePassed(d, s.calls[j]) && !SamePassed(s.calls[j], d)
    {
      if SamePassed(d, s.calls[j]) || SamePassed(s.calls[j], d) {
        assert CallWell(s, j);
        NamesAreExact(c.connection, c.meta, s.calls[j].connection, s.calls[j].meta);
      }
    }
  }

  lemma FinishKeepsGood(m: Limits, s: State, i: nat, d: Call, o: Outcome, remove: bool)
    requires Good(m, s) && i < |s.calls| && FinishWell(s.calls[i], d, o, remove) && StageWell(d)
    requires d.connection == s.calls[i].connection && d.meta == s.calls[i].meta
        && d.maximumBytes == s.calls[i].maximumBytes
    requires d.record == s.calls[i].record && d.joined == s.calls[i].joined
    ensures Good(m, Perform(s, i, Finish(d, o, remove)))
  {
    hide RecordIDs, StageWell, Keyed, MutationLedger.Inv;
    var s' := Perform(s, i, Finish(d, o, remove));
    var c := s.calls[i];
    assert CallWell(s, i);
    var r := c.record.value;
    FinalizeKeepsInv(m, s.ledger, r, o, remove);
    FinalizeEvolves(s.ledger, r, o, remove);
    hide Finalize, Names, Truthful, Reply, ReplyTo;
    forall j | 0 <= j < |s.calls| ensures CallWell(s', j) {
      assert CallWell(s, j);
      if j != i {
        if s.calls[j].record.Some? { OwnerKept(s, s', s.calls[j], s.calls[j].record.value); }
        CallKept(s, s', j);
      } else {
        FinisherWell(m, s, s', i, d, o, remove);
      }
    }
    forall k | 0 <= k < |s'.connections| ensures ReleaseWell(s', k) {
      assert ReleaseWell(s, k);
      ReleaseKept(s, s', k);
    }
    forall p, q | 0 <= p < |s'.calls| && 0 <= q < |s'.calls| && SamePassed(s'.calls[p], s'.calls[q]) ensures p == q {
      assert SamePassed(s.calls[p], s.calls[q]);
    }
  }

  /** The call that ends is as true to its record as it was, whether or not its finalization had an effect. */
  lemma FinisherWell(m: Limits, s: State, s': State, i: nat, d: Call, o: Outcome, remove: bool)
    requires i < |s.calls| && CallWell(s, i) && FinishWell(s.calls[i], d, o, remove) && StageWell(d)
    requires d.connection == s.calls[i].connection && d.meta == s.calls[i].meta
    requires d.record == s.calls[i].record && d.joined == s.calls[i].joined
    requires |s'.calls| == |s.calls| && s'.connections == s.connections && s'.owners == s.owners
    requires var r := d.record.value;
      && MutationLedger.Inv(m, s.ledger) && r < |s'.ledger.records|
      && s'.calls[i] == d.(preempted := s.ledger.records[r].finalized)
      && RecordEvolves(s.ledger.records[r], s'.ledger.records[r]) && s'.ledger.records[r].finalized
      && (!s.ledger.records[r].finalized ==>
            && s'.ledger.records[r].status == o.status && s'.ledger.records[r].result == o.result
            && (o.status.Failed? ==> s'.ledger.records[r].failure == o.failure))
      && (!remove ==> (Keyed(s'.ledger, r) <==> Keyed(s.ledger, r)))
    ensures CallWell(s', i)
  {
    FinalIsDecided(m, s.ledger, d.record.value);
    PreemptedStage(d, s'.calls[i].preempted);
    hide RecordIDs, StageWell, Keyed, MutationLedger.Inv, ValidMeta;
  }

  lemma FinalIsDecided(m: Limits, l: Ledger, r: nat)
    requires MutationLedger.Inv(m, l) && r < |l.records|
    ensures l.records[r].finalized <==> !l.records[r].status.Pending?
    ensures l.records[r].status.Failed? ==> l.records[r].failure.Some?
  {
    assert RecordWell(l, r);
  }

  lemma PreemptedStage(d: Call, preempted: bool)
    requires StageWell(d) && d.phase.Ended? && d.record.Some?
    ensures StageWell(d.(preempted := preempted))
  {
  }

  lemma FinalizeEvolves(l: Ledger, r: nat, o: Outcome, remove: bool)
    requires r < |l.records|
    ensures Evolves(l, Finalize(l, r, o, remove))
    ensures var x := Finalize(l, r, o, remove).records[r];
      !l.records[r].finalized ==>
        && x.finalized && x.status == o.status && x.result == o.result
        && (o.status.Failed? && o.failure.Some? ==> x.failure == o.failure)
  {
    hide Keyed, Commanded;
  }

  // ---- A connection is released ----------------------------------------------------------

  /** Records scoped to a connection belong to attach calls made on it. */
  lemma ScopedOwner(s: State, j: nat, k: nat, r: nat)
    requires j < |s.calls| && CallWell(s, j) && s.calls[j].record == Some(r)
    requires r < |s.ledger.records| && s.ledger.records[r].connectionID == ConnectionName(k)
    ensures Attaches(s.calls[j].meta) && s.calls[j].connection == k
  {
    hide StageWell, Keyed, ConnectionName;
    NamesAreExact(s.calls[j].connection, s.calls[j].meta, k, s.calls[j].meta);
  }

  lemma ReleaseStepKeepsGood(m: Limits, s: State, s': State, k: nat)
    requires Good(m, s) && k < |s.connections| && s.connections[k].release.Collected?
    requires |s'.connections| == |s.connections| && s'.calls == s.calls && s'.owners == s.owners
    requires s'.connections == s.connections[k := s'.connections[k]] && !s'.connections[k].release.Serving?
    requires Evolves(s.ledger, s'.ledger) && |s'.ledger.records| == |s.ledger.records|
    requires MutationLedger.Inv(m, s'.ledger) && ReleaseWell(s', k)
    requires forall r :: 0 <= r < |s.ledger.records| ==> Disturbed(s.ledger.records[r], s'.ledger.records[r])
    requires forall r :: 0 <= r < |s.ledger.records| && Keyed(s.ledger, r) && !Keyed(s'.ledger, r) ==>
               s.ledger.records[r].connectionID == ConnectionName(k)
    requires forall r :: 0 <= r < |s.ledger.records| ==>
               !s.ledger.records[r].finalized && s'.ledger.records[r].finalized ==>
               s.ledger.records[r].connectionID == ConnectionName(k)
    ensures Good(m, s')
  {
    hide MutationLedger.Inv, RecordIDs, Keyed, Names, Truthful, StageWell, Disturbed, ConnectionName;
    forall j | 0 <= j < |s'.calls| ensures CallWell(s', j) {
      assert CallWell(s, j);
      if s.calls[j].record.Some? {
        var r := s.calls[j].record.value;
        if s.ledger.records[r].connectionID == ConnectionName(k) { ScopedOwner(s, j, k, r); }
        OwnerKept(s, s', s.calls[j], r);
      }
      CallKept(s, s', j);
    }
    forall n | 0 <= n < |s'.connections| && n != k ensures ReleaseWell(s', n) {
      assert ReleaseWell(s, n);
      ReleaseKept(s, s', n);
    }
  }

  lemma FinalizeNextKeepsGood(m: Limits, s: State, k: nat)
    requires Good(m, s)
    ensures Good(m, Step(m, s, FinalizeNext(k)))
  {
    hide MutationLedger.Inv, Keyed, CallWell, PassedOnce, ConnectionName;
    var s' := Step(m, s, FinalizeNext(k));
    if s' != s {
      assert ReleaseWell(s, k);
      var n := s.connections[k].release;
      var r := n.order[n.done];
      FinalizeKeepsInv(m, s.ledger, r, UNKNOWN, false);
      FinalizeEvolves(s.ledger, r, UNKNOWN, false);
      assert Disturbed(s.ledger.records[r], s'.ledger.records[r]);
      hide Finalize;
      forall i | 0 <= i < |n.order| ensures ReleasedWell(s', k, n.order[i], i < n.done + 1) {
        assert ReleasedWell(s, k, n.order[i], i < n.done);
        assert RecordEvolves(s.ledger.records[n.order[i]], s'.ledger.records[n.order[i]]);
      }
      ReleaseStepKeepsGood(m, s, s', k);
    }
  }

  lemma DeleteKeepsGood(m: Limits, s: State, k: nat)
    requires Good(m, s)
    ensures Good(m, Step(m, s, Delete(k)))
  {
    hide MutationLedger.Inv, Keyed, CallWell, PassedOnce, ConnectionName;
    var s' := Step(m, s, Delete(k));
    if s' != s {
      assert ReleaseWell(s, k);
      var n := s.connections[k].release;
      forall i | 0 <= i < |n.order| ensures n.order[i] < |s.ledger.records| && s.ledger.records[n.order[i]].finalized {
        assert ReleasedWell(s, k, n.order[i], i < n.done);
      }
      UnlinkAllKeepsInv(m, s.ledger, n.order);
      hide UnlinkAll;
      forall r | 0 <= r < |s.ledger.records| && Keyed(s.ledger, r) && !Keyed(s'.ledger, r)
        ensures s.ledger.records[r].connectionID == ConnectionName(k)
      {
        var i :| 0 <= i < |n.order| && n.order[i] == r;
        assert ReleasedWell(s, k, n.order[i], i < n.done);
      }
      ReleaseStepKeepsGood(m, s, s', k);
    }
  }

  // ---- Every run -------------------------------------------------------------------------

  lemma StepKeepsGood(m: Limits, s: State, e: Event)
    requires Good(m, s)
    ensures Good(m, Step(m, s, e))
  {
    hide Good;
    match e
    case Begin(i) => if i < |s.calls| && s.calls[i].phase.Arrived? { StartKeepsGood(m, s, i); }
    case Act(i, a) => if i < |s.calls| { ActKeepsGood(m, s, i, a); }
    case FinalizeNext(k) => FinalizeNextKeepsGood(m, s, k);
    case Delete(k) => DeleteKeepsGood(m, s, k);
    case _ => PlainKeepsGood(m, s, e);
  }

  lemma {:induction false} RunsKeepGood(m: Limits, s: State, es: seq<Event>)
    requires Good(m, s)
    ensures Good(m, RunFrom(m, s, es))
    decreases |es|
  {
    hide Good, Step;
    if es != [] {
      StepKeepsGood(m, s, es[0]);
      RunsKeepGood(m, Step(m, s, es[0]), es[1..]);
    }
  }

  lemma RunInvariant(m: Limits, es: seq<Event>)
    ensures Good(m, Run(m, es))
  {
    RunsKeepGood(m, BEGIN, es);
  }

  // ---- At most one dispatch --------------------------------------------------------------

  /** A handler runs at most once per capability and key, for attach per connection as well. */
  lemma DispatchedOncePerKey(m: Limits, es: seq<Event>, i: nat, j: nat)
    requires var s := Run(m, es);
      && i < |s.calls| && j < |s.calls| && s.calls[i].ran && s.calls[j].ran
      && s.calls[i].meta.capability == s.calls[j].meta.capability && s.calls[i].meta.key == s.calls[j].meta.key
      && (Attaches(s.calls[i].meta) ==> s.calls[i].connection == s.calls[j].connection)
    ensures i == j
  {
    hide RecordIDs, Run;
    var s := Run(m, es);
    RunInvariant(m, es);
    var c, d := s.calls[i], s.calls[j];
    assert CallWell(s, i) && CallWell(s, j);
    NamesAreExact(c.connection, c.meta, d.connection, d.meta);
    assert SamePassed(c, d);
  }

  /** Outside attach, a handler runs at most once per command ID. */
  lemma DispatchedOncePerCommand(m: Limits, es: seq<Event>, i: nat, j: nat)
    requires var s := Run(m, es);
      && i < |s.calls| && j < |s.calls| && s.calls[i].ran && s.calls[j].ran
      && !Attaches(s.calls[i].meta) && !Attaches(s.calls[j].meta)
      && s.calls[i].meta.commandID == s.calls[j].meta.commandID
    ensures i == j
  {
    hide Run;
    var s := Run(m, es);
    RunInvariant(m, es);
    assert CallWell(s, i) && CallWell(s, j);
    var p, q := s.calls[i].record.value, s.calls[j].record.value;
    assert Commanded(s.ledger, p) && Commanded(s.ledger, q);
  }

  // ---- Outcomes --------------------------------------------------------------------------

  /** Every record has one owner, and its status says no more than the owner's history does. */
  lemma OutcomesAreTruthful(m: Limits, es: seq<Event>, r: nat)
    requires r < |Run(m, es).ledger.records|
    ensures var s := Run(m, es);
      && r < |s.owners| && s.owners[r] < |s.calls|
      && var x, c := s.ledger.records[r], s.calls[s.owners[r]];
      && (forall i :: 0 <= i < |s.calls| && s.calls[i].record == Some(r) ==> i == s.owners[r])
      && c.record == Some(r) && Names(x, c)
      && (x.finalized <==> !x.status.Pending?)
      && (c.phase.Ended? ==> x.finalized)
      && (x.status.Succeeded? ==> c.ran && !c.handlerFailed && c.flushed && c.raw == Some(x.result))
      && (x.status.Failed? ==> !c.ran || c.handlerFailed)
      && (x.finalized && c.ran && !c.handlerFailed && !c.flushed ==> x.status.Unknown?)
  {
    hide Run, RecordIDs, Envelope, Keyed;
    var s := Run(m, es);
    RunInvariant(m, es);
    assert s.calls[s.owners[r]].record == Some(r);
    assert CallWell(s, s.owners[r]) && RecordWell(s.ledger, r);
    forall i | 0 <= i < |s.calls| && s.calls[i].record == Some(r) ensures i == s.owners[r] { assert CallWell(s, i); }
  }

  lemma EvolvesTransitive(a: Ledger, b: Ledger, c: Ledger)
    requires Evolves(a, b) && Evolves(b, c)
    ensures Evolves(a, c)
  {
    forall r | 0 <= r < |a.records| ensures RecordEvolves(a.records[r], c.records[r]) {
      assert RecordEvolves(a.records[r], b.records[r]) && RecordEvolves(b.records[r], c.records[r]);
    }
  }

  lemma StepEvolves(m: Limits, s: State, e: Event)
    requires Good(m, s)
    ensures Evolves(s.ledger, Step(m, s, e).ledger)
  {
    hide Good, Finalize, UnlinkAll, Next, Decide, RecordIDs, Evolves, Within, Keyed, Collects;
    match e
    case Act(i, a) =>
      if i < |s.calls| && s.calls[i].connection < |s.connections| {
        match Next(s, s.calls[i], a)
        case Local(_) => EvolvesReflexive(s.ledger);
        case Finish(c, o, remove) =>
          if c.record.Some? && c.record.value < |s.ledger.records| {
            FinalizeEvolves(s.ledger, c.record.value, o, remove);
          }
          EvolvesReflexive(s.ledger);
      } else {
        EvolvesReflexive(s.ledger);
      }
    case Begin(i) =>
      if i < |s.calls| { StartEvolves(m, s, i); }
      EvolvesReflexive(s.ledger);
    case FinalizeNext(k) =>
      if k < |s.connections| && s.connections[k].release.Collected? {
        var n := s.connections[k].release;
        if n.done < |n.order| && n.order[n.done] < |s.ledger.records| {
          FinalizeEvolves(s.ledger, n.order[n.done], UNKNOWN, false);
        }
      }
      EvolvesReflexive(s.ledger);
    case Delete(k) =>
      DeleteEvolves(m, s, k);
    case _ => EvolvesReflexive(s.ledger);
  }

  lemma StartEvolves(m: Limits, s: State, i: nat)
    requires i < |s.calls|
    ensures Evolves(s.ledger, Start(m, s, i).ledger)
  {
    hide Decide, RecordIDs;
  }

  lemma DeleteEvolves(m: Limits, s: State, k: nat)
    requires Good(m, s)
    ensures Evolves(s.ledger, Step(m, s, Delete(k)).ledger)
  {
    hide UnlinkAll, CallWell, MutationLedger.Inv, PassedOnce, Keyed;
    if Step(m, s, Delete(k)) != s {
      var n := s.connections[k].release;
      assert ReleaseWell(s, k);
      forall i | 0 <= i < |n.order| ensures n.order[i] < |s.ledger.records| && s.ledger.records[n.order[i]].finalized {
        assert ReleasedWell(s, k, n.order[i], i < n.done);
      }
      UnlinkAllKeepsInv(m, s.ledger, n.order);
    }
  }

  lemma {:induction false} RunsEvolve(m: Limits, s: State, es: seq<Event>)
    requires Good(m, s)
    ensures Evolves(s.ledger, RunFrom(m, s, es).ledger)
    decreases |es|
  {
    hide Good, Step, Evolves;
    if es == [] {
      EvolvesReflexive(s.ledger);
    } else {
      var next := Step(m, s, es[0]);
      StepEvolves(m, s, es[0]);
      StepKeepsGood(m, s, es[0]);
      RunsEvolve(m, next, es[1..]);
      EvolvesTransitive(s.ledger, next.ledger, RunFrom(m, next, es[1..]).ledger);
    }
  }

  lemma {:induction false} RunsCompose(m: Limits, s: State, es: seq<Event>, more: seq<Event>)
    ensures RunFrom(m, s, es + more) == RunFrom(m, RunFrom(m, s, es), more)
    decreases |es|
  {
    hide Step;
    if es == [] {
      assert es + more == more;
    } else {
      assert (es + more)[1..] == es[1..] + more;
      RunsCompose(m, Step(m, s, es[0]), es[1..], more);
    }
  }

  /** Nothing that happens later changes an outcome. */
  lemma OutcomesAreFinal(m: Limits, es: seq<Event>, more: seq<Event>, r: nat)
    requires r < |Run(m, es).ledger.records| && Run(m, es).ledger.records[r].finalized
    ensures var later := Run(m, es + more).ledger.records;
      && r < |later| && later[r].finalized && later[r].status == Run(m, es).ledger.records[r].status
      && later[r].result == Run(m, es).ledger.records[r].result
      && later[r].failure == Run(m, es).ledger.records[r].failure
  {
    hide RunFrom, Good;
    var s := Run(m, es);
    RunInvariant(m, es);
    RunsEvolve(m, s, more);
    RunsCompose(m, BEGIN, es, more);
    assert RecordEvolves(s.ledger.records[r], RunFrom(m, s, more).ledger.records[r]);
  }

  /** A record that failed names the error its owner was answered with, and an owner's answer is its record's outcome
      unless a release of its connection made the record final first. */
  lemma OwnersAreAnsweredTruthfully(m: Limits, es: seq<Event>, r: nat)
    requires r < |Run(m, es).ledger.records|
    ensures var s := Run(m, es);
      && r < |s.owners| && s.owners[r] < |s.calls|
      && var x, c := s.ledger.records[r], s.calls[s.owners[r]];
      && (x.status.Failed? ==> x.failure.Some? && c.phase.Ended? && c.answer == Some(Err(x.failure.value)))
      && (x.status.Succeeded? ==> c.phase.Ended? && c.answer == Some(Ok(x.result)))
      && (x.status.Unknown? && c.phase.Ended? && !c.preempted ==> c.answer == Some(Err(OutcomeUnknown)))
      && (Overtaken(x, c) ==>
            && x.status.Unknown? && Attaches(c.meta)
            && c.connection < |s.connections| && !s.connections[c.connection].release.Serving?)
  {
    RunInvariant(m, es);
    hide Run, RecordIDs, Keyed, StageWell, Names;
    var s := Run(m, es);
    assert s.calls[s.owners[r]].record == Some(r);
    assert CallWell(s, s.owners[r]);
    FinalIsDecided(m, s.ledger, r);
    hide MutationLedger.Inv;
  }

  /** A retry that is woken gets exactly the outcome of the call it waited for: the same bytes, the same code, or an
      unknown outcome; where a release decided first, it is told that the outcome is unknown. */
  lemma RetriesShareTheOutcome(m: Limits, es: seq<Event>, j: nat)
    requires j < |Run(m, es).calls| && Run(m, es).calls[j].woken
    ensures var s := Run(m, es); var d := s.calls[j];
      && d.joined.Some? && d.joined.value < |s.owners| && s.owners[d.joined.value] < |s.calls|
      && d.joined.value < |s.ledger.records|
      && var x, c := s.ledger.records[d.joined.value], s.calls[s.owners[d.joined.value]];
      && c.meta.capability == d.meta.capability && c.meta.key == d.meta.key && c.meta.digest == d.meta.digest
      && (Overtaken(x, c) ==> d.answer == Some(Err(OutcomeUnknown)))
      && (!Overtaken(x, c) ==> c.phase.Ended? && d.answer == c.answer)
  {
    RunInvariant(m, es);
    hide Run, RecordIDs, Keyed;
    var s := Run(m, es);
    var d := s.calls[j];
    assert CallWell(s, j);
    var r := d.joined.value;
    assert s.calls[s.owners[r]].record == Some(r);
    assert CallWell(s, s.owners[r]);
    var c := s.calls[s.owners[r]];
    NamesAreExact(c.connection, c.meta, d.connection, d.meta);
    FinalIsDecided(m, s.ledger, r);
    hide MutationLedger.Inv, StageWell;
  }

  // ---- What a reservation comes to -------------------------------------------------------

  /** Some retained record answers to this name. */
  ghost predicate Retained(l: Ledger, r: nat, c: Call) {
    Keyed(l, r) && l.records[r].idempotencyID == RecordIDs(c.connection, c.meta).idempotencyID
  }

  /** In every reachable state, in terms of the retained records alone: an equal command is joined, another digest or a
      taken command ID conflicts, full limits exhaust, and anything else is reserved. */
  lemma ReservationIsExact(m: Limits, es: seq<Event>, i: nat)
    requires i < |Run(m, es).calls|
    ensures var s := Run(m, es); var c, l := s.calls[i], s.ledger;
      var d := Decide(m, l, c.meta.digest, RecordIDs(c.connection, c.meta), c.maximumBytes);
      var named := exists r: nat :: Retained(l, r, c);
      var commanded := exists r: nat :: Keyed(l, r) && l.records[r].commandID == c.meta.commandID;
      var full := |l.idempotency.Values| >= m.maxEntries || RetainedTotal(l, |l.records|) + c.maximumBytes > m.maxBytes;
      && (d.Join? ==> Retained(l, d.record, c) && l.records[d.record].digest == c.meta.digest)
      && (named ==> d.Join? || d == Reject(Conflict))
      && (forall r: nat :: Retained(l, r, c) ==> (d.Join? <==> l.records[r].digest == c.meta.digest))
      && (!named && commanded ==> d == Reject(Conflict))
      && (!named && !commanded && full ==> d == Reject(ResourceExhausted))
      && (d == Reserve(|l.records|) <==> !named && !commanded && !full)
  {
    RunInvariant(m, es);
    hide Run;
    var s := Run(m, es);
    var c, l := s.calls[i], s.ledger;
    BytesAreRetained(m, l);
    MapsAgree(m, l);
    Injective(l.idempotency);
    hide RecordIDs, Total, RetainedTotal;
    var id := RecordIDs(c.connection, c.meta);
    CommandOf(c);
    if id.idempotencyID in l.idempotency { assert Retained(l, l.idempotency[id.idempotencyID], c); }
    if id.commandID in l.commands {
      var q := l.commands[id.commandID];
      assert Commanded(l, q) && Keyed(l, q);
    }
    forall r: nat | Keyed(l, r) && l.records[r].commandID == c.meta.commandID ensures id.commandID in l.commands {
      assert Commanded(l, r);
    }
  }

  lemma CommandOf(c: Call)
    ensures RecordIDs(c.connection, c.meta).commandID == c.meta.commandID
  {
  }

  /** A retry that is answered with a result gets the bytes the first call flushed, for the same command. */
  lemma RetriesReturnTheFlushedResult(m: Limits, es: seq<Event>, j: nat)
    requires var s := Run(m, es);
      j < |s.calls| && s.calls[j].joined.Some? && s.calls[j].answer.Some? && s.calls[j].answer.value.Ok?
    ensures var s := Run(m, es); var d := s.calls[j];
      && d.joined.value < |s.owners| && s.owners[d.joined.value] < |s.calls|
      && var c := s.calls[s.owners[d.joined.value]];
      && c.flushed && c.raw == Some(d.answer.value.value)
      && c.meta.capability == d.meta.capability && c.meta.key == d.meta.key && c.meta.digest == d.meta.digest
      && (Attaches(d.meta) ==> c.connection == d.connection)
  {
    hide Run, RecordIDs, Keyed, StageWell;
    var s := Run(m, es);
    RunInvariant(m, es);
    var d := s.calls[j];
    assert CallWell(s, j);
    var r := d.joined.value;
    assert s.calls[s.owners[r]].record == Some(r);
    assert CallWell(s, s.owners[r]);
    var c := s.calls[s.owners[r]];
    NamesAreExact(c.connection, c.meta, d.connection, d.meta);
  }

  // ---- Accounting ------------------------------------------------------------------------

  /** The budget, the entry limit and the two indexes in every reachable state. */
  lemma AccountingIsExact(m: Limits, es: seq<Event>)
    ensures var l := Run(m, es).ledger;
      && l.bytes == RetainedTotal(l, |l.records|) <= m.maxBytes
      && |l.idempotency| == |l.commands| <= m.maxEntries
      && l.idempotency.Values == l.commands.Values
  {
    hide Run, CallWell;
    RunInvariant(m, es);
    BytesAreRetained(m, Run(m, es).ledger);
    MapsAgree(m, Run(m, es).ledger);
  }

  /** Whenever a call finalizes its record, what it retains fits what was reserved and that fits the budget in use. */
  lemma BudgetGuardsAlwaysPass(m: Limits, es: seq<Event>, i: nat, a: Action)
    requires var s := Run(m, es);
      && i < |s.calls| && s.calls[i].connection < |s.connections| && Next(s, s.calls[i], a).Finish?
      && s.calls[i].record.Some? && s.calls[i].record.value < |s.ledger.records|
      && !s.ledger.records[s.calls[i].record.value].finalized
    ensures var s := Run(m, es);
      var x := s.ledger.records[s.calls[i].record.value];
      var o := Next(s, s.calls[i], a).outcome;
      && Retention(o) == (if o.status.Succeeded? then |o.result| else 0)
      && Retention(o) <= x.reservedBytes <= s.ledger.bytes
  {
    hide Run, Next, StageWell, Keyed, RecordIDs;
    var s := Run(m, es);
    RunInvariant(m, es);
    assert CallWell(s, i);
    NextMeans(s, s.calls[i], a);
    var r := s.calls[i].record.value;
    TotalUpdate(s.ledger.records, r, s.ledger.records[r]);
  }

  /** A release removes the records it collected and no others. */
  lemma ReleaseTakesItsOwn(m: Limits, es: seq<Event>, k: nat)
    requires var s := Run(m, es);
      k < |s.connections| && s.connections[k].release.Collected?
          && s.connections[k].release.done == |s.connections[k].release.order|
    ensures var s := Run(m, es); var s' := Step(m, s, Delete(k)); var order := s.connections[k].release.order;
      && |s'.ledger.records| == |s.ledger.records| && s'.connections[k].release.Released?
      && forall r :: 0 <= r < |s.ledger.records| ==>
           if r in order then
             && !Keyed(s'.ledger, r) && s.ledger.records[r].finalized
             && s.ledger.records[r].connectionID == ConnectionName(k)
           else Keyed(s'.ledger, r) <==> Keyed(s.ledger, r)
  {
    hide Run, CallWell, Keyed, ConnectionName, UnlinkAll, MutationLedger.Inv, PassedOnce, Owned;
    var s := Run(m, es);
    RunInvariant(m, es);
    assert ReleaseWell(s, k);
    var n := s.connections[k].release;
    forall i | 0 <= i < |n.order|
      ensures n.order[i] < |s.ledger.records| && s.ledger.records[n.order[i]].finalized
          && s.ledger.records[n.order[i]].connectionID == ConnectionName(k)
    {
      assert ReleasedWell(s, k, n.order[i], i < n.done);
    }
    UnlinkAllKeepsInv(m, s.ledger, n.order);
  }

  // ---- The encode check ------------------------------------------------------------------

  lemma {:induction false} PlainEscapes(n: nat)
    ensures Escape(Repeat('r', n)) == Repeat('r', n)
  {
    if n > 0 {
      PlainEscapes(n - 1);
      assert Repeat('r', n)[1..] == Repeat('r', n - 1);
    }
  }

  /** A result that passes the check with the stand-in ID fits the real response as well. */
  predicate Covers(requestID: string, raw: string, maximum: nat) {
    |Envelope(Placeholder(), raw)| <= maximum ==> |Envelope(requestID, raw)| <= maximum
  }

  /** For every result alike, the check covers every limit exactly if the request ID encodes in 256 bytes. */
  lemma EncodeCheckCovers(requestID: string, raw: string)
    ensures (forall maximum: nat :: Covers(requestID, raw, maximum)) <==> |Escape(requestID)| <= 256
    ensures |Escape(requestID)| > 256 ==> !Covers(requestID, raw, 291 + |raw|)
  {
    hide Envelope, Escape, Repeat;
    PlainEscapes(256);
    EnvelopeLength(Placeholder(), raw);
    EnvelopeLength(requestID, raw);
    assert Covers(requestID, raw, 291 + |raw|) <==> |Escape(requestID)| <= 256;
  }

  lemma {:induction false} AngleEscapes(n: nat)
    ensures |Escape(Repeat('<', n))| == 6 * n
  {
    if n > 0 {
      AngleEscapes(n - 1);
      assert Repeat('<', n)[1..] == Repeat('<', n - 1);
    }
  }

  /** Request IDs are limited to 256 characters before encoding, so the wire accepts IDs the check covers for no
      result. */
  lemma EncodeCheckMisses(n: nat, raw: string)
    requires 43 <= n <= 256
    ensures !Covers(Repeat('<', n), raw, 291 + |raw|)
  {
    AngleEscapes(n);
    EncodeCheckCovers(Repeat('<', n), raw);
  }
}
