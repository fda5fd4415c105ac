/**
 The other direction of the safety results: a mutation that fits the limits does
 run, its response is flushed and recorded, and a retry on another connection is
 answered from the record without running anything.
 */
module MutationScript {
  import opened Base
  import opened MutationLedger
  import opened MutationIdentity
  import opened MutationRuns

  ghost predicate Reachable(m: Limits, s: State) {
    exists es :: Run(m, es) == s
  }

  lemma Extend(m: Limits, s: State, e: Event, s': State)
    requires Reachable(m, s) && Step(m, s, e) == s'
    ensures Reachable(m, s')
  {
    hide Step;
    var es :| Run(m, es) == s;
    RunsCompose(m, BEGIN, es, [e]);
    assert RunFrom(m, s, [e]) == RunFrom(m, s', [e][1..]);
    assert Run(m, es + [e]) == s';
  }

  predicate Fitting(m: Limits, meta: Meta, id: string, maximumBytes: u64, raw: string, limit: nat) {
    && ValidMeta(meta) && !Attaches(meta) && m.maxEntries > 0 && maximumBytes <= m.maxBytes
    && |Envelope(Placeholder(), raw)| <= maximumBytes && |Envelope(id, raw)| <= limit
  }

  function Fresh(connection: nat, meta: Meta, id: string, maximumBytes: u64): Call {
    Call(connection, meta, id, maximumBytes, Arrived, None, None, false, false, false, false, None, false, false, None,
         false, false)
  }

  /** The ledger with its first record. */
  function Reserved(meta: Meta, maximumBytes: u64): Ledger {
    Enter(EMPTY, meta.digest, RecordIDs(0, meta), maximumBytes)
  }

  /** The only call so far, on the only connection, has a record and has come to c. */
  function During(meta: Meta, maximumBytes: u64, c: Call): State {
    State(Reserved(meta, maximumBytes), [0], [c], [Connection(false, Serving)])
  }

  function Finished(meta: Meta, id: string, maximumBytes: u64, raw: string): Call {
    Fresh(0, meta, id, maximumBytes).(phase := Ended, record := Some(0), passed := true, ran := true, raw := Some(raw),
                                      queued := true, flushed := true, answer := Some(Ok(raw)))
  }

  function Committed(meta: Meta, id: string, maximumBytes: u64, raw: string): State {
    During(meta, maximumBytes, Finished(meta, id, maximumBytes, raw)).(
      ledger := Settle(Reserved(meta, maximumBytes), 0, Outcome(Succeeded, raw, None)))
  }

  lemma CallReserves(m: Limits, meta: Meta, id: string, maximumBytes: u64)
    requires ValidMeta(meta) && !Attaches(meta) && m.maxEntries > 0 && maximumBytes <= m.maxBytes
    ensures Reachable(m, During(meta, maximumBytes,
          Fresh(0, meta, id, maximumBytes).(phase := Checking, record := Some(0))))
  {
    hide RecordIDs, Reachable;
    var s1 := BEGIN.(connections := [Connection(false, Serving)]);
    var s2 := s1.(calls := [Fresh(0, meta, id, maximumBytes)]);
    AtFirst(m);
    Extend(m, BEGIN, Open, s1);
    Extend(m, s1, Arrive(0, meta, id, maximumBytes), s2);
    Extend(m, s2, Begin(0), Start(m, s2, 0));
    Reserves(m, s2, meta, id, maximumBytes);
  }

  lemma Reserves(m: Limits, s: State, meta: Meta, id: string, maximumBytes: u64)
    requires !Attaches(meta) && m.maxEntries > 0 && maximumBytes <= m.maxBytes
    requires s == State(EMPTY, [], [Fresh(0, meta, id, maximumBytes)], [Connection(false, Serving)])
    ensures Start(m, s, 0) == During(meta, maximumBytes,
          Fresh(0, meta, id, maximumBytes).(phase := Checking, record := Some(0)))
  {
    hide RecordIDs, Enter;
    var c := Fresh(0, meta, id, maximumBytes);
    assert Decide(m, EMPTY, meta.digest, RecordIDs(0, meta), maximumBytes) == Reserve(0);
    assert [c][0 := c.(phase := Checking, record := Some(0))] == [c.(phase := Checking, record := Some(0))];
    assert s.owners + [0] == [0];
  }

  lemma AtFirst(m: Limits)
    ensures Reachable(m, BEGIN)
  {
    assert Run(m, []) == BEGIN;
  }

  /** One action of the only call. */
  lemma Moves(m: Limits, meta: Meta, maximumBytes: u64, c: Call, a: Action, d: Call)
    requires c.connection == 0 && Reachable(m, During(meta, maximumBytes, c))
    requires Next(During(meta, maximumBytes, c), c, a) == Local(d)
    ensures Reachable(m, During(meta, maximumBytes, d))
  {
    hide Next, Reserved, Reachable;
    assert [c][0 := d] == [d];
    Extend(m, During(meta, maximumBytes, c), Act(0, a), During(meta, maximumBytes, d));
  }

  lemma CallRuns(m: Limits, meta: Meta, id: string, maximumBytes: u64)
    requires ValidMeta(meta) && !Attaches(meta) && m.maxEntries > 0 && maximumBytes <= m.maxBytes
    ensures var c := Fresh(0, meta, id, maximumBytes).(phase := Encoding, record := Some(0), passed := true,
          ran := true);
      Reachable(m, During(meta, maximumBytes, c))
  {
    CallReserves(m, meta, id, maximumBytes);
    hide Reserved, Reachable, Deliver, Envelope;
    var c := Fresh(0, meta, id, maximumBytes).(phase := Checking, record := Some(0));
    var c1 := c.(phase := Dispatching, passed := true);
    var c2 := c1.(phase := Running, ran := true);
    var c3 := c2.(phase := Returned);
    Moves(m, meta, maximumBytes, c, Check(None), c1);
    Moves(m, meta, maximumBytes, c1, Invoke, c2);
    Moves(m, meta, maximumBytes, c2, Return(Succeeds), c3);
    Moves(m, meta, maximumBytes, c3, Recheck(true), c3.(phase := Encoding));
  }

  lemma SameConnections(meta: Meta, maximumBytes: u64, c: Call)
    ensures During(meta, maximumBytes, c).connections == [Connection(false, Serving)]
  {
  }

  lemma CallEncodes(m: Limits, meta: Meta, id: string, maximumBytes: u64, raw: string)
    requires ValidMeta(meta) && !Attaches(meta) && m.maxEntries > 0 && maximumBytes <= m.maxBytes
    requires |Envelope(Placeholder(), raw)| <= maximumBytes
    ensures var c := Fresh(0, meta, id, maximumBytes);
      Reachable(m, During(meta, maximumBytes, c.(phase := Prepared, record := Some(0), passed := true, ran := true,
                                                 raw := Some(raw))))
  {
    CallRuns(m, meta, id, maximumBytes);
    hide Reserved, Reachable, Envelope, Placeholder, BeforeHandler, Deliver, Retry;
    var c := Fresh(0, meta, id, maximumBytes).(phase := Encoding, record := Some(0), passed := true, ran := true);
    Moves(m, meta, maximumBytes, c, Encode(Some(raw)), c.(phase := Prepared, raw := Some(raw)));
  }

  lemma CallResponds(m: Limits, meta: Meta, id: string, maximumBytes: u64, raw: string, limit: nat)
    requires Fitting(m, meta, id, maximumBytes, raw, limit)
    ensures Reachable(m, During(meta, maximumBytes,
          Finished(meta, id, maximumBytes, raw).(phase := Responding, answer := None)))
  {
    CallEncodes(m, meta, id, maximumBytes, raw);
    hide Reserved, Reachable, Envelope, Placeholder, BeforeHandler, AfterHandler, Retry, During;
    var c := Fresh(0, meta, id, maximumBytes);
    var c1 := c.(phase := Prepared, record := Some(0), passed := true, ran := true, raw := Some(raw));
    var c2 := c1.(phase := Responding, queued := true);
    SameConnections(meta, maximumBytes, c1);
    SameConnections(meta, maximumBytes, c2);
    Moves(m, meta, maximumBytes, c1, Respond(true, limit), c2);
    Moves(m, meta, maximumBytes, c2, Write, c2.(flushed := true));
  }

  /** Within the limits the handler runs, and its result is flushed, recorded and returned. */
  lemma FittingCallSucceeds(m: Limits, meta: Meta, id: string, maximumBytes: u64, raw: string, limit: nat)
    requires Fitting(m, meta, id, maximumBytes, raw, limit)
    ensures Reachable(m, Committed(meta, id, maximumBytes, raw))
  {
    CallResponds(m, meta, id, maximumBytes, raw, limit);
    var c := Finished(meta, id, maximumBytes, raw).(phase := Responding, answer := None);
    Commits(meta, id, maximumBytes, raw, c);
    hide Perform, Next, Reachable, Reserved, Settle;
    Extend(m, During(meta, maximumBytes, c), Act(0, Commit), Committed(meta, id, maximumBytes, raw));
  }

  lemma Commits(meta: Meta, id: string, maximumBytes: u64, raw: string, c: Call)
    requires c == Finished(meta, id, maximumBytes, raw).(phase := Responding, answer := None)
    ensures var s := During(meta, maximumBytes, c);
        Perform(s, 0, Next(s, c, Commit)) == Committed(meta, id, maximumBytes, raw)
  {
    ReservedShape(meta, maximumBytes);
    hide RecordIDs, Envelope, Reserved, Settle, Unlink, BeforeHandler, AfterHandler;
    var d := Finished(meta, id, maximumBytes, raw);
    assert Next(During(meta, maximumBytes, c), c, Commit) == Finish(d, Outcome(Succeeded, raw, None), false);
    assert [c][0 := d] == [d];
  }

  lemma ReservedShape(meta: Meta, maximumBytes: u64)
    ensures var l := Reserved(meta, maximumBytes);
      && l.records == [Blank(meta.digest, RecordIDs(0, meta), maximumBytes)]
      && l.idempotency == map[RecordIDs(0, meta).idempotencyID := 0]
  {
  }

  lemma CommittedShape(meta: Meta, id: string, maximumBytes: u64, raw: string)
    ensures var s := Committed(meta, id, maximumBytes, raw);
      && s.calls == [Finished(meta, id, maximumBytes, raw)] && s.connections == [Connection(false, Serving)]
      && |s.ledger.records| == 1 && s.ledger.idempotency == map[RecordIDs(0, meta).idempotencyID := 0]
      && Identity(s.ledger.records[0].idempotencyID, s.ledger.records[0].commandID,
            s.ledger.records[0].connectionID) == RecordIDs(0, meta)
      && s.ledger.records[0].digest == meta.digest && s.ledger.records[0].finalized
      && s.ledger.records[0].status == Succeeded && s.ledger.records[0].result == raw
  {
    hide RecordIDs;
  }

  /** After the first connection is released and another opens, the record is still there. */
  function Reopened(meta: Meta, id: string, maximumBytes: u64, raw: string): State {
    Committed(meta, id, maximumBytes, raw).(connections := [Connection(true, Released), Connection(false, Serving)])
  }

  lemma RecordOutlivesConnection(m: Limits, meta: Meta, id: string, maximumBytes: u64, raw: string, limit: nat)
    requires Fitting(m, meta, id, maximumBytes, raw, limit)
    ensures Reachable(m, Reopened(meta, id, maximumBytes, raw))
  {
    FittingCallSucceeds(m, meta, id, maximumBytes, raw, limit);
    CommittedShape(meta, id, maximumBytes, raw);
    hide RecordIDs, Envelope, Placeholder, Reachable, Committed, UnlinkAll, ConnectionName;
    var s := Committed(meta, id, maximumBytes, raw);
    NothingToUnlink(s.ledger);
    NothingScoped(s.ledger, meta);
    var s1 := s.(connections := [Connection(true, Serving)]);
    var s2 := s.(connections := [Connection(true, Collected([], 0))]);
    var s3 := s.(connections := [Connection(true, Released)]);
    Extend(m, s, Cancel(0), s1);
    Extend(m, s1, Collect(0, []), s2);
    Extend(m, s2, Delete(0), s3);
    Extend(m, s3, Open, Reopened(meta, id, maximumBytes, raw));
  }

  lemma NothingToUnlink(l: Ledger)
    ensures Within(l, []) && UnlinkAll(l, []) == l
  {
  }

  lemma NothingScoped(l: Ledger, meta: Meta)
    requires ValidMeta(meta) && !Attaches(meta) && |l.records| == 1
    requires l.records[0].connectionID == RecordIDs(0, meta).connectionID
    ensures Collects(l, ConnectionName(0), [])
  {
    hide ConnectionName;
    NamesAreExact(0, meta, 0, meta);
  }

  lemma SameName(meta: Meta)
    requires !Attaches(meta)
    ensures RecordIDs(1, meta) == RecordIDs(0, meta)
  {
  }

  /** A retry from another connection, after the first one was released, gets the recorded bytes and runs nothing. */
  lemma RetryIsAnswered(m: Limits, meta: Meta, id: string, again: string, maximumBytes: u64, raw: string, limit: nat)
    requires Fitting(m, meta, id, maximumBytes, raw, limit)
    ensures exists s :: Reachable(m, s) && |s.calls| == 2 && s.calls[0] == Finished(meta, id, maximumBytes, raw) &&
              s.calls[1] == Fresh(1, meta, again, maximumBytes).(phase := Ended, joined := Some(0), woken := true,
                    answer := Some(Ok(raw)))
  {
    RecordOutlivesConnection(m, meta, id, maximumBytes, raw, limit);
    CommittedShape(meta, id, maximumBytes, raw);
    SameName(meta);
    hide RecordIDs, Envelope, Placeholder, Reachable, Committed, BeforeHandler, AfterHandler, Deliver;
    var s := Reopened(meta, id, maximumBytes, raw);
    var first, c := Finished(meta, id, maximumBytes, raw), Fresh(1, meta, again, maximumBytes);
    var s1 := s.(calls := [first, c]);
    var s2 := s.(calls := [first, c.(phase := Waiting, joined := Some(0))]);
    var s3 := s.(calls := [first, c.(phase := Ended, joined := Some(0), woken := true, answer := Some(Ok(raw)))]);
    Extend(m, s, Arrive(1, meta, again, maximumBytes), s1);
    Extend(m, s1, Begin(1), s2);
    Extend(m, s2, Act(1, Wake), s3);
  }

  // ---- A result the encode check lets through but the response cannot carry --------------

  /** The check passed and the real response does not fit the same limit, as with the IDs the check does not cover. */
  predicate Uncovered(m: Limits, meta: Meta, id: string, maximumBytes: u64, raw: string) {
    && ValidMeta(meta) && !Attaches(meta) && m.maxEntries > 0 && maximumBytes <= m.maxBytes
    && !Covers(id, raw, maximumBytes)
  }

  function RolledBack(meta: Meta, id: string, maximumBytes: u64, raw: string): State {
    var c := Fresh(0, meta, id, maximumBytes).(phase := Ended, record := Some(0), passed := true, ran := true,
                                               raw := Some(raw), answer := Some(Err(OutcomeUnknown)));
    During(meta, maximumBytes, c).(ledger := Settle(Reserved(meta, maximumBytes), 0, UNKNOWN))
  }

  /** The handler succeeded and its result passed the check, yet nothing is sent and the outcome is unknown for good. */
  lemma UncoveredIsRolledBack(m: Limits, meta: Meta, id: string, maximumBytes: u64, raw: string)
    requires Uncovered(m, meta, id, maximumBytes, raw)
    ensures var s := RolledBack(meta, id, maximumBytes, raw);
      && Reachable(m, s) && s.calls[0].ran && !s.calls[0].handlerFailed && !s.calls[0].queued
      && s.calls[0].answer == Some(Err(OutcomeUnknown)) && |s.ledger.records| == 1
      && s.ledger.records[0].status.Unknown? && s.ledger.records[0].finalized
  {
    CallEncodes(m, meta, id, maximumBytes, raw);
    var c := Fresh(0, meta, id, maximumBytes);
    var c1 := c.(phase := Prepared, record := Some(0), passed := true, ran := true, raw := Some(raw));
    hide Reachable, Envelope, Placeholder, BeforeHandler;
    Rollbacks(meta, id, maximumBytes, raw, c1);
    hide Perform, Next;
    Extend(m, During(meta, maximumBytes, c1), Act(0, Respond(true, maximumBytes)),
          RolledBack(meta, id, maximumBytes, raw));
  }

  lemma Rollbacks(meta: Meta, id: string, maximumBytes: u64, raw: string, c: Call)
    requires c == Fresh(0, meta, id, maximumBytes).(phase := Prepared, record := Some(0), passed := true,
          ran := true, raw := Some(raw))
    requires |Envelope(id, raw)| > maximumBytes
    ensures var s := During(meta, maximumBytes, c);
      Perform(s, 0, Next(s, c, Respond(true, maximumBytes))) == RolledBack(meta, id, maximumBytes, raw)
  {
    ReservedShape(meta, maximumBytes);
    hide RecordIDs, Envelope, Reserved, Settle, Unlink, BeforeHandler, AfterHandler;
    var d := RolledBack(meta, id, maximumBytes, raw).calls[0];
    assert Next(During(meta, maximumBytes, c), c, Respond(true, maximumBytes)) == Finish(d, UNKNOWN, false);
    assert [c][0 := d] == [d];
  }
}
