/**
 What a release leaves behind.  A connection is released in three critical
 sections, and a call that was still on its way may reserve a record after the
 first of them.  The release knows nothing of that record, so it stays.
 */
module LateReservations {
  import opened Base
  import opened MutationLedger
  import opened MutationIdentity
  import opened MutationRuns
  import opened MutationScript

  predicate Scoped(l: Ledger, r: nat, k: nat) {
    r < |l.records| && l.records[r].connectionID == ConnectionName(k)
  }

  /** The call that reserved record r. */
  predicate HasOwner(s: State, r: nat) {
    r < |s.owners| && s.owners[r] < |s.calls| && s.calls[s.owners[r]].record == Some(r)
  }

  /** Record r of a connection that collected when there were `mark` records. */
  ghost predicate LateWell(s: State, release: Release, mark: nat, r: nat) {
    if r < mark then
      Keyed(s.ledger, r) ==> release.Collected? && r in release.order
    else
      && HasOwner(s, r) && r < |s.ledger.records|
      && (Keyed(s.ledger, r) <==> !s.calls[s.owners[r]].refused)
      && (!s.calls[s.owners[r]].phase.Ended? ==> !s.ledger.records[r].finalized)
  }

  ghost predicate Marked(release: Release, mark: nat) {
    !release.Serving? && (release.Collected? ==> forall i :: 0 <= i < |release.order| ==> release.order[i] < mark)
  }

  ghost predicate Late(s: State, k: nat, mark: nat) {
    && k < |s.connections| && Marked(s.connections[k].release, mark) && mark <= |s.ledger.records|
    && forall r :: 0 <= r < |s.ledger.records| && Scoped(s.ledger, r, k) ==>
        LateWell(s, s.connections[k].release, mark, r)
  }

  /** A step that touches neither the record nor what is asked of its owner. */
  lemma RecordKept(s: State, s': State, release: Release, mark: nat, r: nat)
    requires LateWell(s, release, mark, r) && r < |s.ledger.records| && r < |s'.ledger.records|
    requires Keyed(s'.ledger, r) <==> Keyed(s.ledger, r)
    requires s'.ledger.records[r].finalized == s.ledger.records[r].finalized
    requires HasOwner(s, r) ==>
               && HasOwner(s', r) && s'.owners[r] == s.owners[r]
               && s'.calls[s.owners[r]].refused == s.calls[s.owners[r]].refused
               && s'.calls[s.owners[r]].phase.Ended? == s.calls[s.owners[r]].phase.Ended?
    ensures LateWell(s', release, mark, r)
  {
    hide Keyed;
  }

  // ---- Each event ------------------------------------------------------------------------

  lemma PlainKeepsLate(m: Limits, s: State, e: Event, k: nat, mark: nat)
    requires Late(s, k, mark) && Plain(e)
    ensures Late(Step(m, s, e), k, mark)
  {
    hide Keyed, ConnectionName, Collects, ValidMeta, Marked;
    var s' := Step(m, s, e);
    assert s'.connections[k].release == s.connections[k].release by { StillMarked(s.connections[k].release, mark); }
    forall r | 0 <= r < |s.ledger.records| && Scoped(s.ledger, r, k)
      ensures LateWell(s', s.connections[k].release, mark, r)
    {
      RecordKept(s, s', s.connections[k].release, mark, r);
    }
  }

  lemma StillMarked(release: Release, mark: nat)
    requires Marked(release, mark)
    ensures !release.Serving?
  {
  }

  /** What a call's start changes: its own fields and, if it reserves, one new record that it owns. */
  lemma StartMeans(m: Limits, s: State, i: nat)
    requires Good(m, s) && i < |s.calls| && s.calls[i].phase.Arrived?
    ensures var s', n := Start(m, s, i), |s.ledger.records|;
      && s.calls[i].record.None? && s'.calls == s.calls[i := s'.calls[i]] && s'.connections == s.connections
      && s.owners <= s'.owners && n <= |s'.ledger.records| == |s'.owners|
      && (forall r :: 0 <= r < n ==>
            s'.ledger.records[r] == s.ledger.records[r] && (Keyed(s'.ledger, r) <==> Keyed(s.ledger, r)))
      && (forall r :: n <= r < |s'.ledger.records| ==>
            && s'.owners[r] == i && s'.calls[i].record == Some(r) && Keyed(s'.ledger, r)
            && !s'.calls[i].refused && !s'.ledger.records[r].finalized)
  {
    hide MutationLedger.Inv, RecordIDs, Keyed, PassedOnce, CallWell, Enter, Decide;
    var c := s.calls[i];
    var id := RecordIDs(c.connection, c.meta);
    ArrivedOwnsNothing(s, i);
    if Decide(m, s.ledger, c.meta.digest, id, c.maximumBytes).Reserve? {
      ReservesNext(m, s.ledger, c.meta.digest, id, c.maximumBytes);
      EnterKeepsInv(m, s.ledger, c.meta.digest, id, c.maximumBytes);
    }
  }

  lemma ArrivedOwnsNothing(s: State, i: nat)
    requires i < |s.calls| && CallWell(s, i) && s.calls[i].phase.Arrived?
    ensures s.calls[i].record.None? && !s.calls[i].refused
  {
  }

  lemma ReservesNext(m: Limits, l: Ledger, digest: string, id: Identity, maximumBytes: u64)
    requires Decide(m, l, digest, id, maximumBytes).Reserve?
    ensures Decide(m, l, digest, id, maximumBytes).record == |l.records|
    ensures Enter(l, digest, id, maximumBytes).records == l.records + [Blank(digest, id, maximumBytes)]
  {
  }

  /** Only calls that own a record matter, and a call that has just begun owns none. */
  lemma StartKeepsLate(m: Limits, s: State, i: nat, k: nat, mark: nat)
    requires Good(m, s) && Late(s, k, mark) && i < |s.calls| && s.calls[i].phase.Arrived?
    ensures Late(Start(m, s, i), k, mark)
  {
    StartMeans(m, s, i);
    hide Good, Start, Keyed, ConnectionName, Marked;
    var s' := Start(m, s, i);
    var release := s.connections[k].release;
    forall r | 0 <= r < |s'.ledger.records| && Scoped(s'.ledger, r, k) ensures LateWell(s', release, mark, r) {
      if r < |s.ledger.records| { RecordKept(s, s', release, mark, r); }
    }
  }

  lemma ActKeepsLate(m: Limits, s: State, i: nat, a: Action, k: nat, mark: nat)
    requires Good(m, s) && Late(s, k, mark) && i < |s.calls|
    ensures Late(Step(m, s, Act(i, a)), k, mark)
  {
    hide Next, PassedOnce, Keyed, ConnectionName, MutationLedger.Inv, Marked, LateWell, Finalize, StageWell, FinishWell;
    var c := s.calls[i];
    assert CallWell(s, i);
    NextMeans(s, c, a);
    hide Good, CallWell;
    match Next(s, c, a)
    case Local(d) =>
      var s' := s.(calls := s.calls[i := d]);
      forall r | 0 <= r < |s.ledger.records| && Scoped(s.ledger, r, k)
        ensures LateWell(s', s.connections[k].release, mark, r)
      {
        RecordKept(s, s', s.connections[k].release, mark, r);
      }
    case Finish(d, o, remove) => FinishKeepsLate(m, s, i, d, o, remove, k, mark);
  }

  lemma FinishKeepsLate(m: Limits, s: State, i: nat, d: Call, o: Outcome, remove: bool, k: nat, mark: nat)
    requires Good(m, s) && Late(s, k, mark) && i < |s.calls| && FinishWell(s.calls[i], d, o, remove)
    requires d.record == s.calls[i].record && d.maximumBytes == s.calls[i].maximumBytes
    ensures Late(Perform(s, i, Finish(d, o, remove)), k, mark)
  {
    var s' := Perform(s, i, Finish(d, o, remove));
    assert CallWell(s, i);
    var own := s.calls[i].record.value;
    FinalizeKeepsInv(m, s.ledger, own, o, remove);
    FinalizeEvolves(s.ledger, own, o, remove);
    assert HasOwner(s, own) && HasOwner(s', own) && s'.calls[i].refused == d.refused;
    hide Finalize, StageWell, CallWell, PassedOnce, Keyed, ConnectionName, MutationLedger.Inv, Marked, LateWell, Good;
    var release := s.connections[k].release;
    forall r | 0 <= r < |s.ledger.records| && Scoped(s'.ledger, r, k) ensures LateWell(s', release, mark, r) {
      assert RecordEvolves(s.ledger.records[r], s'.ledger.records[r]);
      assert LateWell(s, release, mark, r);
      if r != own { RecordKept(s, s', release, mark, r); } else { OwnRecordKept(s, s', release, mark, r); }
    }
  }

  /** Its owner ends: a record from before the mark at most leaves the maps, a later one does so exactly if refused. */
  lemma OwnRecordKept(s: State, s': State, release: Release, mark: nat, r: nat)
    requires LateWell(s, release, mark, r) && r < |s.ledger.records| && r < |s'.ledger.records|
    requires HasOwner(s, r) && HasOwner(s', r) && s'.owners[r] == s.owners[r]
    requires !s.calls[s.owners[r]].refused && !s.calls[s.owners[r]].phase.Ended? && s'.calls[s.owners[r]].phase.Ended?
    requires Keyed(s'.ledger, r) ==> Keyed(s.ledger, r)
    requires !s.ledger.records[r].finalized ==>
               (Keyed(s'.ledger, r) <==> Keyed(s.ledger, r) && !s'.calls[s.owners[r]].refused)
    ensures LateWell(s', release, mark, r)
  {
    hide Keyed;
  }

  /** A release finalizes only what it collected: its own records, from before the mark, or those of another
      connection. */
  lemma FinalizeNextKeepsLate(m: Limits, s: State, j: nat, k: nat, mark: nat)
    requires Good(m, s) && Late(s, k, mark)
    ensures Late(Step(m, s, FinalizeNext(j)), k, mark)
  {
    hide MutationLedger.Inv, Keyed, CallWell, PassedOnce, ConnectionName;
    var s' := Step(m, s, FinalizeNext(j));
    if s' != s {
      assert ReleaseWell(s, j);
      var n := s.connections[j].release;
      var q := n.order[n.done];
      assert ReleasedWell(s, j, q, false);
      FinalizeKeepsInv(m, s.ledger, q, UNKNOWN, false);
      FinalizeEvolves(s.ledger, q, UNKNOWN, false);
      NameInjective(j, k);
      hide Finalize;
      var release := s'.connections[k].release;
      forall r | 0 <= r < |s.ledger.records| && Scoped(s'.ledger, r, k) ensures LateWell(s', release, mark, r) {
        assert RecordEvolves(s.ledger.records[r], s'.ledger.records[r]);
        assert LateWell(s, s.connections[k].release, mark, r);
        if r >= mark { assert r != q; RecordKept(s, s', release, mark, r); }
      }
    }
  }

  lemma DeleteKeepsLate(m: Limits, s: State, j: nat, k: nat, mark: nat)
    requires Good(m, s) && Late(s, k, mark)
    ensures Late(Step(m, s, Delete(j)), k, mark)
  {
    hide MutationLedger.Inv, Keyed, CallWell, PassedOnce, ConnectionName;
    var s' := Step(m, s, Delete(j));
    if s' != s {
      assert ReleaseWell(s, j);
      var n := s.connections[j].release;
      forall i | 0 <= i < |n.order|
        ensures n.order[i] < |s.ledger.records| && s.ledger.records[n.order[i]].finalized
            && Scoped(s.ledger, n.order[i], j)
      {
        assert ReleasedWell(s, j, n.order[i], i < n.done);
      }
      UnlinkAllKeepsInv(m, s.ledger, n.order);
      NameInjective(j, k);
      hide UnlinkAll;
      var release := s'.connections[k].release;
      forall r | 0 <= r < |s.ledger.records| && Scoped(s'.ledger, r, k) ensures LateWell(s', release, mark, r) {
        assert LateWell(s, s.connections[k].release, mark, r);
        if r >= mark {
          assert r !in n.order;
          RecordKept(s, s', release, mark, r);
        } else if j != k {
          assert r !in n.order;
        }
      }
    }
  }

  lemma StepKeepsLate(m: Limits, s: State, e: Event, k: nat, mark: nat)
    requires Good(m, s) && Late(s, k, mark)
    ensures Late(Step(m, s, e), k, mark)
  {
    hide Good, Late;
    match e
    case Begin(i) => if i < |s.calls| && s.calls[i].phase.Arrived? { StartKeepsLate(m, s, i, k, mark); }
    case Act(i, a) => if i < |s.calls| { ActKeepsLate(m, s, i, a, k, mark); }
    case FinalizeNext(j) => FinalizeNextKeepsLate(m, s, j, k, mark);
    case Delete(j) => DeleteKeepsLate(m, s, j, k, mark);
    case _ => PlainKeepsLate(m, s, e, k, mark);
  }

  lemma {:induction false} RunsKeepLate(m: Limits, s: State, es: seq<Event>, k: nat, mark: nat)
    requires Good(m, s) && Late(s, k, mark)
    ensures Late(RunFrom(m, s, es), k, mark)
    decreases |es|
  {
    hide Good, Late, Step;
    if es != [] {
      StepKeepsGood(m, s, es[0]);
      StepKeepsLate(m, s, es[0], k, mark);
      RunsKeepLate(m, Step(m, s, es[0]), es[1..], k, mark);
    }
  }

  /** The collection itself sets the mark. */
  lemma CollectIsLate(m: Limits, s: State, k: nat, order: seq<nat>)
    requires k < |s.connections| && s.connections[k].cancelled && s.connections[k].release.Serving?
    requires Collects(s.ledger, ConnectionName(k), order)
    ensures Late(Step(m, s, Collect(k, order)), k, |s.ledger.records|)
  {
    hide ConnectionName;
  }

  // ---- Results ---------------------------------------------------------------------------

  ghost predicate CanCollect(s: State, k: nat, order: seq<nat>) {
    && k < |s.connections| && s.connections[k].cancelled && s.connections[k].release.Serving?
    && Collects(s.ledger, ConnectionName(k), order)
  }

  /** After a release, a record scoped to the connection is still retained exactly if it was reserved after the
      collection and its own call did not take it out for failing admission. */
  lemma ReleaseMissesLateRecords(m: Limits, before: seq<Event>, k: nat, order: seq<nat>, after: seq<Event>, r: nat)
    requires CanCollect(Run(m, before), k, order)
    requires var s := Run(m, before + [Collect(k, order)] + after);
      && Scoped(s.ledger, r, k) && k < |s.connections| && s.connections[k].release.Released?
    ensures var s := Run(m, before + [Collect(k, order)] + after);
      && HasOwner(s, r)
      && (Keyed(s.ledger, r) <==> |Run(m, before).ledger.records| <= r && !s.calls[s.owners[r]].refused)
  {
    var s0 := Run(m, before);
    var s1 := Step(m, s0, Collect(k, order));
    RunInvariant(m, before);
    RunInvariant(m, before + [Collect(k, order)] + after);
    CollectIsLate(m, s0, k, order);
    StepKeepsGood(m, s0, Collect(k, order));
    OneMore(m, before, Collect(k, order), after);
    hide Run, RunFrom, Step, CallWell, Keyed, ConnectionName, MutationLedger.Inv, PassedOnce, ReleaseWell;
    RunsKeepLate(m, s1, after, k, |s0.ledger.records|);
    var s := RunFrom(m, s1, after);
    assert LateWell(s, s.connections[k].release, |s0.ledger.records|, r);
    assert s.calls[s.owners[r]].record == Some(r);
  }

  lemma OneMore(m: Limits, before: seq<Event>, e: Event, after: seq<Event>)
    ensures Run(m, before + [e] + after) == RunFrom(m, Step(m, Run(m, before), e), after)
  {
    hide Step;
    RunsCompose(m, BEGIN, before + [e], after);
    RunsCompose(m, BEGIN, before, [e]);
    assert [e][1..] == [];
  }

  /** An ended call stays as it is but for a late flush. */
  lemma {:induction false} EndedStays(m: Limits, s: State, es: seq<Event>, i: nat)
    requires Good(m, s) && i < |s.calls| && s.calls[i].phase.Ended?
    ensures var c := RunFrom(m, s, es).calls; i < |c| && c[i] == s.calls[i].(flushed := c[i].flushed)
    decreases |es|
  {
    if es != [] {
      var s' := Step(m, s, es[0]);
      StepKeepsGood(m, s, es[0]);
      EndedStep(m, s, es[0], i);
      hide Good, Step;
      EndedStays(m, s', es[1..], i);
    }
  }

  lemma EndedStep(m: Limits, s: State, e: Event, i: nat)
    requires Good(m, s) && i < |s.calls| && s.calls[i].phase.Ended?
    ensures var c := Step(m, s, e).calls; i < |c| && c[i] == s.calls[i].(flushed := c[i].flushed)
  {
    hide MutationLedger.Inv, PassedOnce, Decide, Finalize, UnlinkAll, Next, StageWell, OwnerWell, JoinerWell, Collects;
    if e.Act? && e.call < |s.calls| {
      assert CallWell(s, e.call);
      NextMeans(s, s.calls[e.call], e.action);
    }
  }

  /** So a record reserved too late by a call that then fails is retained for the rest of the server's life. */
  lemma LateRecordStays(
    m: Limits, before: seq<Event>, k: nat, order: seq<nat>, after: seq<Event>, more: seq<Event>, r: nat)
    requires CanCollect(Run(m, before), k, order)
    requires var s := Run(m, before + [Collect(k, order)] + after);
      && Scoped(s.ledger, r, k) && k < |s.connections| && s.connections[k].release.Released? && HasOwner(s, r)
      && |Run(m, before).ledger.records| <= r && s.calls[s.owners[r]].phase.Ended? && !s.calls[s.owners[r]].refused
    ensures Keyed(Run(m, before + [Collect(k, order)] + after + more).ledger, r)
  {
    hide Run, Good, Keyed, ConnectionName, CanCollect, Step;
    var es := before + [Collect(k, order)] + after;
    var s := Run(m, es);
    RunInvariant(m, es);
    EndedStays(m, s, more, s.owners[r]);
    RunsEvolve(m, s, more);
    ReleasedStays(m, s, more, k);
    OwnersStay(m, s, more);
    RunOf(m, es);
    RunOf(m, es + more);
    RunsCompose(m, BEGIN, es, more);
    assert es + more == before + [Collect(k, order)] + (after + more);
    assert RecordEvolves(s.ledger.records[r], RunFrom(m, s, more).ledger.records[r]);
    ReleaseMissesLateRecords(m, before, k, order, after + more, r);
  }

  lemma RunOf(m: Limits, es: seq<Event>)
    ensures Run(m, es) == RunFrom(m, BEGIN, es)
  {
  }

  lemma {:induction false} ReleasedStays(m: Limits, s: State, es: seq<Event>, k: nat)
    requires k < |s.connections| && s.connections[k].release.Released?
    ensures var n := RunFrom(m, s, es).connections; k < |n| && n[k].release.Released?
    decreases |es|
  {
    hide Next, Decide, Finalize, UnlinkAll, Collects;
    if es != [] { ReleasedStays(m, Step(m, s, es[0]), es[1..], k); }
  }

  lemma {:induction false} OwnersStay(m: Limits, s: State, es: seq<Event>)
    ensures s.owners <= RunFrom(m, s, es).owners
    decreases |es|
  {
    hide Next, Decide, Finalize, UnlinkAll, Collects;
    if es != [] { OwnersStay(m, Step(m, s, es[0]), es[1..]); }
  }

  // ---- The case is reached ---------------------------------------------------------------

  function Gone(meta: Meta, id: string, maximumBytes: u64): State {
    State(EMPTY, [], [Fresh(0, meta, id, maximumBytes)], [Connection(true, Released)])
  }

  /** An attach request has arrived but not begun when its connection is cancelled and released. */
  lemma ConnectionGone(m: Limits, meta: Meta, id: string, maximumBytes: u64)
    requires ValidMeta(meta)
    ensures Reachable(m, Gone(meta, id, maximumBytes))
  {
    hide Reachable, ConnectionName;
    var s := Gone(meta, id, maximumBytes);
    var s1 := BEGIN.(connections := [Connection(false, Serving)]);
    var s2 := s.(connections := [Connection(false, Serving)]);
    var s3 := s.(connections := [Connection(true, Serving)]);
    var s4 := s.(connections := [Connection(true, Collected([], 0))]);
    AtFirst(m);
    Extend(m, BEGIN, Open, s1);
    Extend(m, s1, Arrive(0, meta, id, maximumBytes), s2);
    Extend(m, s2, Cancel(0), s3);
    Extend(m, s3, Collect(0, []), s4);
    NothingToUnlink(EMPTY);
    Extend(m, s4, Delete(0), s);
  }

  /** The call as its connection's context stops it, before any handler. */
  function Stopped(meta: Meta, id: string, maximumBytes: u64): Call {
    Fresh(0, meta, id, maximumBytes).(phase := Ended, record := Some(0), answer := Some(Err(Cancelled)))
  }

  /** Its reservation then succeeds, the context check stops it, and the record of the released connection stays. */
  lemma LateRecordIsReached(m: Limits, meta: Meta, id: string, maximumBytes: u64)
    requires ValidMeta(meta) && Attaches(meta) && m.maxEntries > 0 && maximumBytes <= m.maxBytes
    ensures exists s ::
              && Reachable(m, s) && |s.calls| == |s.connections| == |s.owners| == 1
              && s.connections[0].release.Released? && s.calls[0] == Stopped(meta, id, maximumBytes)
              && Scoped(s.ledger, 0, 0) && Keyed(s.ledger, 0)
  {
    ConnectionGone(m, meta, id, maximumBytes);
    hide Reachable;
    var s := Gone(meta, id, maximumBytes);
    var c := Fresh(0, meta, id, maximumBytes).(phase := Admitting, record := Some(0));
    var l := Enter(EMPTY, meta.digest, RecordIDs(0, meta), maximumBytes);
    ReservesLate(m, meta, id, maximumBytes, c, l);
    var s1 := State(l, [0], [c], [Connection(true, Released)]);
    Extend(m, s, Begin(0), s1);
    hide RecordIDs;
    var d := c.(phase := Checking);
    assert [c][0 := d] == [d];
    var s2 := s1.(calls := [d]);
    Extend(m, s1, Act(0, Admit(None)), s2);
    StopsLate(meta, id, maximumBytes, l, s2);
    var s3 := s2.(calls := [Stopped(meta, id, maximumBytes)],
          ledger := Settle(l, 0, Outcome(Failed, "", Some(Cancelled))));
    Extend(m, s2, Act(0, Check(Some(Cancelled))), s3);
  }

  lemma ReservesLate(m: Limits, meta: Meta, id: string, maximumBytes: u64, c: Call, l: Ledger)
    requires Attaches(meta) && m.maxEntries > 0 && maximumBytes <= m.maxBytes
    requires c == Fresh(0, meta, id, maximumBytes).(phase := Admitting, record := Some(0))
    requires l == Enter(EMPTY, meta.digest, RecordIDs(0, meta), maximumBytes)
    ensures Start(m, Gone(meta, id, maximumBytes), 0) == State(l, [0], [c], [Connection(true, Released)])
    ensures |l.records| == 1 && !l.records[0].finalized && Scoped(l, 0, 0) && Keyed(l, 0)
  {
    hide ConnectionName;
    assert Decide(m, EMPTY, meta.digest, RecordIDs(0, meta), maximumBytes) == Reserve(0);
    assert Gone(meta, id, maximumBytes).calls[0 := c] == [c];
    assert l.records == [Blank(meta.digest, RecordIDs(0, meta), maximumBytes)];
  }

  lemma StopsLate(meta: Meta, id: string, maximumBytes: u64, l: Ledger, s: State)
    requires |l.records| == 1 && !l.records[0].finalized && Scoped(l, 0, 0) && Keyed(l, 0)
    requires s == State(l, [0], [Fresh(0, meta, id, maximumBytes).(phase := Checking, record := Some(0))],
                        [Connection(true, Released)])
    ensures var l' := Settle(l, 0, Outcome(Failed, "", Some(Cancelled)));
      && Perform(s, 0, Next(s, s.calls[0], Check(Some(Cancelled)))) ==
           s.(calls := [Stopped(meta, id, maximumBytes)], ledger := l')
      && Scoped(l', 0, 0) && Keyed(l', 0)
  {
    hide ConnectionName;
    assert s.calls[0 := Stopped(meta, id, maximumBytes)] == [Stopped(meta, id, maximumBytes)];
  }
}
