/**
 What cancellation stops.  A call that has not passed its last check when its
 connection is cancelled never runs a handler, and one whose handler has returned
 but whose result was not yet taken never has a result to send.
 */
module CancelledCalls {
  import opened Base
  import opened MutationLedger
  import opened MutationIdentity
  import opened MutationRuns
  import opened CallOutcomes

  predicate Cancelled(s: State, i: nat) {
    i < |s.calls| && s.calls[i].connection < |s.connections| && s.connections[s.calls[i].connection].cancelled
  }

  /** Before the last check, or ended without having passed it. */
  predicate Undispatched(c: Call) {
    !c.passed && !c.ran
  }

  /** The handler may have run, but its result has not been taken. */
  predicate Untaken(c: Call) {
    c.raw.None? && !c.phase.Encoding?
  }

  ghost predicate Kept(c: Call, c': Call) {
    && c'.connection == c.connection
    && (Undispatched(c) ==> Undispatched(c'))
    && (Untaken(c) ==> Untaken(c'))
  }

  lemma MoveCancelled(s: State, c: Call, a: Action)
    requires c.connection < |s.connections| && s.connections[c.connection].cancelled && StageWell(c)
    ensures Kept(c, Next(s, c, a).call)
  {
    hide Envelope, Reply, Placeholder;
  }

  lemma BegunKept(c: Call, d: Reservation)
    ensures Kept(c, Begun(c, d))
  {
    hide Attaches;
  }

  lemma StartCancelled(m: Limits, s: State, i: nat)
    requires i < |s.calls|
    ensures var s' := Start(m, s, i);
      && |s'.calls| == |s.calls| && s'.connections == s.connections && Kept(s.calls[i], s'.calls[i])
      && forall j :: 0 <= j < |s.calls| && j != i ==> s'.calls[j] == s.calls[j]
  {
    BeginIsExact(m, s, i);
    var c := s.calls[i];
    BegunKept(c, Decide(m, s.ledger, c.meta.digest, RecordIDs(c.connection, c.meta), c.maximumBytes));
    hide Start, Decide, RecordIDs, Begun, Kept;
  }

  lemma OthersKept(s: State, i: nat, v: Move)
    requires i < |s.calls|
    ensures var s' := Perform(s, i, v);
      && |s'.calls| == |s.calls| && s'.connections == s.connections
      && forall j :: 0 <= j < |s.calls| && j != i ==> s'.calls[j] == s.calls[j]
  {
    hide Finalize;
  }

  lemma PerformCancelled(s: State, i: nat, v: Move)
    requires i < |s.calls| && Kept(s.calls[i], v.call)
    ensures var s' := Perform(s, i, v);
      |s'.calls| == |s.calls| && s'.connections == s.connections && Kept(s.calls[i], s'.calls[i])
  {
    hide Finalize;
  }

  lemma StepCancelled(m: Limits, s: State, e: Event, i: nat)
    requires Good(m, s) && Cancelled(s, i)
    ensures Cancelled(Step(m, s, e), i) && Kept(s.calls[i], Step(m, s, e).calls[i])
  {
    hide Finalize, UnlinkAll, Collects, MutationLedger.Inv, PassedOnce, StageWell, OwnerWell, JoinerWell, ReleaseWell;
    hide Next, Start, Perform, Owned, ValidMeta, Within;
    match e
    case Begin(j) =>
      if j < |s.calls| && s.calls[j].phase.Arrived? { StartCancelled(m, s, j); }
    case Act(j, a) =>
      if j == i {
        assert CallWell(s, i);
        MoveCancelled(s, s.calls[i], a);
        PerformCancelled(s, i, Next(s, s.calls[i], a));
      } else if j < |s.calls| && s.calls[j].connection < |s.connections| {
        OthersKept(s, j, Next(s, s.calls[j], a));
      }
    case _ =>
  }

  /** In every continuation of a run, cancellation keeps an undispatched call from running and an untaken result from
      being sent. */
  lemma {:induction false} CancellationHolds(m: Limits, s: State, es: seq<Event>, i: nat)
    requires Good(m, s) && Cancelled(s, i)
    ensures var s' := RunFrom(m, s, es);
      && Good(m, s') && i < |s'.calls|
      && (Undispatched(s.calls[i]) ==> Undispatched(s'.calls[i]))
      && (Untaken(s.calls[i]) ==> Untaken(s'.calls[i]))
    decreases |es|
  {
    hide Good, Step, Undispatched, Untaken;
    if es != [] {
      StepCancelled(m, s, es[0], i);
      StepKeepsGood(m, s, es[0]);
      CancellationHolds(m, Step(m, s, es[0]), es[1..], i);
    }
  }

  /** So after a cancellation at such a point the call never runs, or never succeeds. */
  lemma CancelledNeverSucceeds(m: Limits, es: seq<Event>, more: seq<Event>, i: nat)
    requires Cancelled(Run(m, es), i)
    ensures var c, s' := Run(m, es).calls[i], Run(m, es + more);
      && i < |s'.calls|
      && (Undispatched(c) ==> !s'.calls[i].ran)
      && (Untaken(c) ==>
            && !s'.calls[i].flushed
            && (s'.calls[i].record.Some? && s'.calls[i].record.value < |s'.ledger.records| ==>
                  !s'.ledger.records[s'.calls[i].record.value].status.Succeeded?))
  {
    RunInvariant(m, es);
    RunsCompose(m, BEGIN, es, more);
    CancellationHolds(m, Run(m, es), more, i);
    hide RunFrom, Step;
    var s' := Run(m, es + more);
    assert CallWell(s', i);
    hide MutationLedger.Inv, PassedOnce, RecordIDs, Keyed;
  }
}
