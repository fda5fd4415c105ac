/**
 Terminal flows of the Go client.  Several `terminal.attach` calls may share a
 flow; it counts those in flight and remembers whether one succeeded or ended
 without a known outcome, so that a failing call removes the flow only when it
 was nobody else's.  An event is one hold of the client's or of a flow's mutex.
 */
module ClientAttach {
  import opened Base

  datatype Target = Target(session: string, stream: string)

  /** `digest` names the attach command a flow was made for; plain subscriptions have none. */
  datatype Flow = Flow(
    target: Target, digest: Option<string>, subscriptionID: string, pending: int,
    established: bool, unknown: bool, retiring: bool, closed: bool)

  /** A flow is named by its position, which plays the part of its address. */
  datatype Table = Table(flows: seq<Flow>, index: map<Target, nat>)

  predicate Ambiguous(code: ErrorCode) {
    code == Cancelled || code == DeadlineExceeded || code == Unavailable || code == OutcomeUnknown
  }

  predicate Indexed(t: Table, f: nat) {
    f < |t.flows| && t.flows[f].target in t.index && t.index[t.flows[f].target] == f
  }

  // ---- The critical sections -------------------------------------------------------------

  /** An attach joins the flow of an equal command or makes a new one; a plain subscription only makes one. */
  function Choose(max: nat, t: Table, target: Target, digest: Option<string>): Result<nat> {
    if target in t.index then
      var f := t.index[target];
      if digest.Some? && f < |t.flows| && !t.flows[f].retiring && t.flows[f].digest == digest
      then Ok(f) else Err(Conflict)
    else if |t.index| >= max then Err(ResourceExhausted)
    else Ok(|t.flows|)
  }

  function Reserve(t: Table, target: Target, digest: Option<string>, f: nat): Table {
    if f < |t.flows| then t.(flows := t.flows[f := t.flows[f].(pending := t.flows[f].pending + 1)])
    else
      var calls := if digest.Some? then 1 else 0;
      Table(t.flows + [Flow(target, digest, "", calls, false, false, false, false)], t.index[target := |t.flows|])
  }

  function Bind(x: Flow, id: string): Option<ErrorCode> {
    if id == "" then Some(InvalidArgument)
    else if x.closed then Some(Conflict)
    else if x.subscriptionID != "" && x.subscriptionID != id then Some(Conflict)
    else None
  }

  /** Whether the completing call is the one to remove its flow. */
  predicate Removes(t: Table, f: nat, outcome: Option<ErrorCode>)
    requires f < |t.flows|
  {
    var x := t.flows[f];
    && outcome.Some? && !Ambiguous(outcome.value)
    && (if x.pending > 0 then x.pending - 1 else x.pending) == 0 && !x.established && !x.unknown && Indexed(t, f)
  }

  function Complete(t: Table, f: nat, outcome: Option<ErrorCode>): Table
    requires f < |t.flows|
  {
    var x := t.flows[f];
    t.(flows := t.flows[f := x.(
         pending := if x.pending > 0 then x.pending - 1 else x.pending,
         established := x.established || outcome.None?,
         unknown := x.unknown || (outcome.Some? && Ambiguous(outcome.value)),
         retiring := x.retiring || Removes(t, f, outcome))])
  }

  function Mark(t: Table, f: nat): Table
    requires f < |t.flows|
  {
    if Indexed(t, f) then t.(flows := t.flows[f := t.flows[f].(retiring := true)]) else t
  }

  function Drop(t: Table, f: nat): Table
    requires f < |t.flows|
  {
    if Indexed(t, f) then t.(index := t.index - {t.flows[f].target}) else t
  }

  // ---- Runs ------------------------------------------------------------------------------

  datatype Phase = InFlight | Answered(result: Option<ErrorCode>) | Done(outcome: Option<ErrorCode>)

  /** The digest the call was made with, and the subscription ID it was answered with, if any. */
  datatype Call = Call(flow: nat, phase: Phase, digest: string, id: string)

  /** A call as it is reserved. */
  function Made(f: nat, digest: Option<string>): Call
    requires digest.Some?
  {
    Call(f, InFlight, digest.value, "")
  }

  /** History: `dropped[f]` is set when a failing attach decides to remove flow f, `retired[f]` when some other
      retirement begins. */
  datatype State = State(table: Table, calls: seq<Call>, dropped: set<nat>, retired: set<nat>)

  const OPENING: State := State(Table([], map[]), [], {}, {})

  datatype Event =
    | Attach(target: Target, digest: string)
    | Subscribe(target: Target)
    | Answer(call: nat, failure: Option<ErrorCode>, id: string)
    | Finish(call: nat)
    | Retire(flow: nat)          // detach, unsubscribe, a failed subscription, or the removal a failing attach decided
    | CloseFlow(flow: nat)
    | Delete(flow: nat)

  ghost function Step(max: nat, s: State, e: Event): State {
    match e
    case Attach(target, digest) =>
      (match Choose(max, s.table, target, Some(digest))
       case Ok(f) => s.(table := Reserve(s.table, target, Some(digest), f), calls := s.calls + [Made(f, Some(digest))])
       case Err(_) => s)
    case Subscribe(target) =>
      (match Choose(max, s.table, target, None)
       case Ok(f) => s.(table := Reserve(s.table, target, None, f))
       case Err(_) => s)
    case Answer(i, failure, id) =>
      if i < |s.calls| && s.calls[i].phase.InFlight? && s.calls[i].flow < |s.table.flows| then
        var f := s.calls[i].flow;
        var x := s.table.flows[f];
        if failure.Some? then s.(calls := s.calls[i := s.calls[i].(phase := Answered(failure))])
        else s.(calls := s.calls[i := s.calls[i].(phase := Answered(Bind(x, id)), id := id)],
                table := s.table.(
                  flows := s.table.flows[f := if Bind(x, id).None? then x.(subscriptionID := id) else x]))
      else s
    case Finish(i) =>
      if i < |s.calls| && s.calls[i].phase.Answered? && s.calls[i].flow < |s.table.flows| then
        var f := s.calls[i].flow;
        var r := s.calls[i].phase.result;
        s.(calls := s.calls[i := s.calls[i].(phase := Done(r))], table := Complete(s.table, f, r),
           dropped := if Removes(s.table, f, r) then s.dropped + {f} else s.dropped)
      else s
    case Retire(f) =>
      if f < |s.table.flows| then s.(table := Mark(s.table, f), retired := s.retired + {f}) else s
    case CloseFlow(f) =>
      if f < |s.table.flows| && f in s.retired
      then s.(table := s.table.(flows := s.table.flows[f := s.table.flows[f].(closed := true)])) else s
    case Delete(f) =>
      if f < |s.table.flows| && f in s.retired && s.table.flows[f].closed then s.(table := Drop(s.table, f)) else s
  }

  ghost function RunFrom(max: nat, s: State, es: seq<Event>): State
    decreases |es|
  {
    if es == [] then s else RunFrom(max, Step(max, s, es[0]), es[1..])
  }

  ghost function Run(max: nat, es: seq<Event>): State {
    RunFrom(max, OPENING, es)
  }

  // ---- The invariant ---------------------------------------------------------------------

  function Weight(c: Call, f: nat): nat {
    if c.flow == f && !c.phase.Done? then 1 else 0
  }

  /** Calls on a flow between reserve and complete. */
  function InProgress(calls: seq<Call>, f: nat): nat {
    if calls == [] then 0
    else InProgress(calls[..|calls| - 1], f) + Weight(calls[|calls| - 1], f)
  }

  predicate Ended(c: Call, f: nat) {
    c.flow == f && c.phase.Done?
  }

  predicate Succeeded(c: Call, f: nat) {
    Ended(c, f) && c.phase.outcome.None?
  }

  predicate Unclear(c: Call, f: nat) {
    Ended(c, f) && c.phase.outcome.Some? && Ambiguous(c.phase.outcome.value)
  }

  ghost predicate SomeSucceeded(calls: seq<Call>, f: nat) {
    exists i :: 0 <= i < |calls| && Succeeded(calls[i], f)
  }

  ghost predicate SomeUnclear(calls: seq<Call>, f: nat) {
    exists i :: 0 <= i < |calls| && Unclear(calls[i], f)
  }

  ghost predicate FlowWell(s: State, f: nat)
    requires f < |s.table.flows|
  {
    var x := s.table.flows[f];
    && x.pending == InProgress(s.calls, f)
    && x.established == SomeSucceeded(s.calls, f)
    && x.unknown == SomeUnclear(s.calls, f)
    && (f in s.dropped ==> x.retiring && x.pending == 0 && !x.established && !x.unknown)
    && (x.retiring ==> f in s.dropped || f in s.retired)
    && (x.closed ==> f in s.retired)
    && (!Indexed(s.table, f) ==> f in s.retired && x.closed)
    && (x.digest.Some? && x.pending == 0 && !x.established && !x.unknown ==> f in s.dropped || f in s.retired)
    && (x.digest.None? ==> f !in s.dropped)
  }

  /** A call was made with its flow's digest, and one that succeeded was answered with its flow's subscription. */
  predicate CallWell(x: Flow, c: Call) {
    && x.digest == Some(c.digest)
    && (Bound(c) ==> c.id != "" && c.id == x.subscriptionID)
  }

  predicate Bound(c: Call) {
    (c.phase.Answered? && c.phase.result.None?) || (c.phase.Done? && c.phase.outcome.None?)
  }

  ghost predicate Inv(max: nat, s: State) {
    && (forall k :: k in s.table.index ==>
          s.table.index[k] < |s.table.flows| && s.table.flows[s.table.index[k]].target == k)
    && |s.table.index| <= max
    && (forall i :: 0 <= i < |s.calls| ==>
          s.calls[i].flow < |s.table.flows| && CallWell(s.table.flows[s.calls[i].flow], s.calls[i]))
    && (forall f :: f in s.dropped || f in s.retired ==> f < |s.table.flows|)
    && (forall f :: 0 <= f < |s.table.flows| ==> FlowWell(s, f))
  }

  lemma {:induction false} InProgressUpdate(calls: seq<Call>, i: nat, c: Call, f: nat)
    requires i < |calls|
    ensures InProgress(calls[i := c], f) == InProgress(calls, f) - Weight(calls[i], f) + Weight(c, f)
    ensures InProgress(calls, f) >= Weight(calls[i], f)
  {
    var n := |calls| - 1;
    if i == n {
      assert calls[i := c][..n] == calls[..n];
    } else {
      InProgressUpdate(calls[..n], i, c, f);
      assert calls[i := c][..n] == calls[..n][i := c];
    }
  }

  lemma InProgressAppend(calls: seq<Call>, c: Call, f: nat)
    ensures InProgress(calls + [c], f) == InProgress(calls, f) + Weight(c, f)
  {
    assert (calls + [c])[..|calls|] == calls;
  }

  lemma {:induction false} NoneInProgress(calls: seq<Call>, f: nat)
    requires forall i :: 0 <= i < |calls| ==> calls[i].flow != f
    ensures InProgress(calls, f) == 0
  {
    if calls != [] { NoneInProgress(calls[..|calls| - 1], f); }
  }

  /** A call that was not done moves on: what the history of each flow then says. */
  lemma HistoryUpdate(calls: seq<Call>, i: nat, c: Call, f: nat)
    requires i < |calls| && !calls[i].phase.Done?
    ensures SomeSucceeded(calls[i := c], f) == (SomeSucceeded(calls, f) || Succeeded(c, f))
    ensures SomeUnclear(calls[i := c], f) == (SomeUnclear(calls, f) || Unclear(c, f))
  {
    var after := calls[i := c];
    assert after[i] == c;
    if SomeSucceeded(calls, f) {
      var j :| 0 <= j < |calls| && Succeeded(calls[j], f);
      assert after[j] == calls[j];
    }
    if SomeSucceeded(after, f) {
      var j :| 0 <= j < |after| && Succeeded(after[j], f);
      assert j == i || calls[j] == after[j];
    }
    if SomeUnclear(calls, f) {
      var j :| 0 <= j < |calls| && Unclear(calls[j], f);
      assert after[j] == calls[j];
    }
    if SomeUnclear(after, f) {
      var j :| 0 <= j < |after| && Unclear(after[j], f);
      assert j == i || calls[j] == after[j];
    }
  }

  lemma HistoryAppend(calls: seq<Call>, c: Call, f: nat)
    requires !c.phase.Done?
    ensures SomeSucceeded(calls + [c], f) == SomeSucceeded(calls, f)
    ensures SomeUnclear(calls + [c], f) == SomeUnclear(calls, f)
  {
    var after := calls + [c];
    assert after[|calls|] == c;
    if SomeSucceeded(calls, f) {
      var j :| 0 <= j < |calls| && Succeeded(calls[j], f);
      assert after[j] == calls[j];
    }
    if SomeUnclear(calls, f) {
      var j :| 0 <= j < |calls| && Unclear(calls[j], f);
      assert after[j] == calls[j];
    }
  }

  // ---- Every event keeps the invariant ---------------------------------------------------

  /** Flows other than the one an event is about. */
  lemma FlowKept(s: State, s': State, f: nat)
    requires f < |s.table.flows| && f < |s'.table.flows| && FlowWell(s, f) && s'.table.flows[f] == s.table.flows[f]
    requires Indexed(s.table, f) ==> Indexed(s'.table, f) || (f in s'.retired && s'.table.flows[f].closed)
    requires f in s'.dropped <==> f in s.dropped
    requires f in s.retired ==> f in s'.retired
    requires InProgress(s'.calls, f) == InProgress(s.calls, f)
    requires SomeSucceeded(s'.calls, f) == SomeSucceeded(s.calls, f)
        && SomeUnclear(s'.calls, f) == SomeUnclear(s.calls, f)
    ensures FlowWell(s', f)
  {
    hide InProgress, SomeSucceeded, SomeUnclear, Indexed;
  }

  lemma ReserveKeepsInv(max: nat, s: State, target: Target, digest: Option<string>)
    requires Inv(max, s) && Choose(max, s.table, target, digest).Ok?
    ensures var f := Choose(max, s.table, target, digest).value;
      Inv(max, s.(table := Reserve(s.table, target, digest, f),
                  calls := if digest.Some? then s.calls + [Made(f, digest)] else s.calls))
  {
    var f := Choose(max, s.table, target, digest).value;
    if f < |s.table.flows| { JoinKeepsInv(max, s, target, digest, f); } else { MakeKeepsInv(max, s, target, digest); }
  }

  lemma CallAppended(calls: seq<Call>, c: Call, g: nat)
    requires !c.phase.Done?
    ensures InProgress(calls + [c], g) == InProgress(calls, g) + Weight(c, g)
    ensures SomeSucceeded(calls + [c], g) == SomeSucceeded(calls, g)
        && SomeUnclear(calls + [c], g) == SomeUnclear(calls, g)
  {
    InProgressAppend(calls, c, g);
    HistoryAppend(calls, c, g);
  }

  lemma JoinKeepsInv(max: nat, s: State, target: Target, digest: Option<string>, f: nat)
    requires Inv(max, s) && Choose(max, s.table, target, digest) == Ok(f) && f < |s.table.flows|
    ensures digest.Some?
    ensures Inv(max, s.(table := Reserve(s.table, target, digest, f), calls := s.calls + [Made(f, digest)]))
  {
    hide InProgress, SomeSucceeded, SomeUnclear;
    var c := Made(f, digest);
    var s' := s.(table := Reserve(s.table, target, digest, f), calls := s.calls + [c]);
    assert FlowWell(s, f);
    forall g | 0 <= g < |s'.table.flows| ensures FlowWell(s', g) {
      assert FlowWell(s, g);
      CallAppended(s.calls, c, g);
      if g != f { FlowKept(s, s', g); }
    }
  }

  /** A flow nobody has called on yet, before and after its first call. */
  lemma Untouched(calls: seq<Call>, f: nat, digest: string)
    requires forall i :: 0 <= i < |calls| ==> calls[i].flow < f
    ensures InProgress(calls, f) == 0 && !SomeSucceeded(calls, f) && !SomeUnclear(calls, f)
    ensures var more := calls + [Made(f, Some(digest))];
      InProgress(more, f) == 1 && !SomeSucceeded(more, f) && !SomeUnclear(more, f)
  {
    NoneInProgress(calls, f);
    CallAppended(calls, Made(f, Some(digest)), f);
  }

  lemma MakeKeepsInv(max: nat, s: State, target: Target, digest: Option<string>)
    requires Inv(max, s) && Choose(max, s.table, target, digest) == Ok(|s.table.flows|) && target !in s.table.index
    ensures var f := |s.table.flows|;
      Inv(max, s.(table := Reserve(s.table, target, digest, f),
                  calls := if digest.Some? then s.calls + [Made(f, digest)] else s.calls))
  {
    hide InProgress, SomeSucceeded, SomeUnclear, FlowWell, Choose, Indexed, Reserve, CallWell;
    var f := |s.table.flows|;
    var c := if digest.Some? then Made(f, digest) else Made(f, Some(""));
    var s' := s.(table := Reserve(s.table, target, digest, f),
                 calls := if digest.Some? then s.calls + [c] else s.calls);
    NewIndex(max, s.table, target, digest);
    NewFlowWell(s, s', f, target, digest);
    forall g | 0 <= g < f ensures FlowWell(s', g) {
      assert FlowWell(s, g);
      CallAppended(s.calls, c, g);
      FlowKept(s, s', g);
    }
    if digest.Some? { MadeWell(s'.table.flows[f], c, f); }
  }

  lemma MadeWell(x: Flow, c: Call, f: nat)
    requires x.digest.Some? && c == Made(f, x.digest)
    ensures CallWell(x, c)
  {
  }

  lemma NewIndex(max: nat, t: Table, target: Target, digest: Option<string>)
    requires target !in t.index && Choose(max, t, target, digest).Ok?
    ensures var t' := Reserve(t, target, digest, |t.flows|);
      && |t'.index| == |t.index| + 1 <= max
      && t'.index == t.index[target := |t.flows|] && |t'.flows| == |t.flows| + 1
      && t'.flows[|t.flows|].target == target && t'.flows[|t.flows|].digest == digest
      && (forall g :: 0 <= g < |t.flows| ==> t'.flows[g] == t.flows[g] && (Indexed(t, g) ==> Indexed(t', g)))
  {
    assert t.index[target := |t.flows|].Keys == t.index.Keys + {target};
  }

  lemma NewFlowWell(s: State, s': State, f: nat, target: Target, digest: Option<string>)
    requires f == |s.table.flows| && (forall i :: 0 <= i < |s.calls| ==> s.calls[i].flow < f) && f !in s.dropped
    requires s'.table == Reserve(s.table, target, digest, f) && s'.dropped == s.dropped
    requires s'.calls == if digest.Some? then s.calls + [Made(f, digest)] else s.calls
    ensures FlowWell(s', f)
  {
    hide InProgress, SomeSucceeded, SomeUnclear;
    Untouched(s.calls, f, if digest.Some? then digest.value else "");
  }

  lemma CallMoved(calls: seq<Call>, i: nat, c: Call, g: nat)
    requires i < |calls| && !calls[i].phase.Done? && c.flow == calls[i].flow
    ensures InProgress(calls[i := c], g) == InProgress(calls, g) - (if c.flow == g && c.phase.Done? then 1 else 0)
    ensures c.flow == g ==> InProgress(calls, g) > 0
    ensures SomeSucceeded(calls[i := c], g) == (SomeSucceeded(calls, g) || Succeeded(c, g))
    ensures SomeUnclear(calls[i := c], g) == (SomeUnclear(calls, g) || Unclear(c, g))
  {
    InProgressUpdate(calls, i, c, g);
    HistoryUpdate(calls, i, c, g);
  }

  lemma AnswerKeepsInv(max: nat, s: State, i: nat, failure: Option<ErrorCode>, id: string)
    requires Inv(max, s)
    ensures Inv(max, Step(max, s, Answer(i, failure, id)))
  {
    hide InProgress, SomeSucceeded, SomeUnclear;
    var s' := Step(max, s, Answer(i, failure, id));
    if s' != s {
      var c := s'.calls[i];
      forall g | 0 <= g < |s'.table.flows| ensures FlowWell(s', g) {
        assert FlowWell(s, g);
        CallMoved(s.calls, i, c, g);
        if g != c.flow { FlowKept(s, s', g); }
      }
    }
  }

  lemma FinishKeepsInv(max: nat, s: State, i: nat)
    requires Inv(max, s)
    ensures Inv(max, Step(max, s, Finish(i)))
  {
    hide InProgress, SomeSucceeded, SomeUnclear;
    var s' := Step(max, s, Finish(i));
    if s' != s {
      var c := s'.calls[i];
      forall g | 0 <= g < |s'.table.flows| ensures FlowWell(s', g) {
        assert FlowWell(s, g);
        CallMoved(s.calls, i, c, g);
        if g != c.flow { FlowKept(s, s', g); }
      }
    }
  }

  lemma MarkKeepsInv(max: nat, s: State, f: nat)
    requires Inv(max, s) && f < |s.table.flows|
    ensures Inv(max, s.(table := Mark(s.table, f), retired := s.retired + {f}))
  {
    hide InProgress, SomeSucceeded, SomeUnclear;
    var s' := s.(table := Mark(s.table, f), retired := s.retired + {f});
    forall g | 0 <= g < |s'.table.flows| ensures FlowWell(s', g) {
      assert FlowWell(s, g);
      if g != f { FlowKept(s, s', g); }
    }
  }

  lemma CloseKeepsInv(max: nat, s: State, f: nat)
    requires Inv(max, s) && f < |s.table.flows| && f in s.retired
    ensures Inv(max, s.(table := s.table.(flows := s.table.flows[f := s.table.flows[f].(closed := true)])))
  {
    hide InProgress, SomeSucceeded, SomeUnclear;
    var s' := s.(table := s.table.(flows := s.table.flows[f := s.table.flows[f].(closed := true)]));
    forall g | 0 <= g < |s'.table.flows| ensures FlowWell(s', g) {
      assert FlowWell(s, g);
      if g != f { FlowKept(s, s', g); }
    }
  }

  lemma DropKeepsInv(max: nat, s: State, f: nat)
    requires Inv(max, s) && f < |s.table.flows| && f in s.retired && s.table.flows[f].closed
    ensures Inv(max, s.(table := Drop(s.table, f)))
  {
    hide InProgress, SomeSucceeded, SomeUnclear;
    var s' := s.(table := Drop(s.table, f));
    FewerTargets(s'.table.index.Keys, s.table.index.Keys);
    forall g | 0 <= g < |s'.table.flows| ensures FlowWell(s', g) {
      assert FlowWell(s, g);
      FlowKept(s, s', g);
    }
  }

  lemma FewerTargets(a: set<Target>, b: set<Target>)
    requires a <= b
    ensures |a| <= |b|
  {
    assert b == a + (b - a);
  }

  lemma StepKeepsInv(max: nat, s: State, e: Event)
    requires Inv(max, s)
    ensures Inv(max, Step(max, s, e))
  {
    hide Inv, Choose, Reserve;
    match e
    case Attach(target, digest) =>
      if Choose(max, s.table, target, Some(digest)).Ok? { ReserveKeepsInv(max, s, target, Some(digest)); }
    case Subscribe(target) => if Choose(max, s.table, target, None).Ok? { ReserveKeepsInv(max, s, target, None); }
    case Answer(i, failure, id) => AnswerKeepsInv(max, s, i, failure, id);
    case Finish(i) => FinishKeepsInv(max, s, i);
    case Retire(f) => if f < |s.table.flows| { MarkKeepsInv(max, s, f); }
    case CloseFlow(f) => if f < |s.table.flows| && f in s.retired { CloseKeepsInv(max, s, f); }
    case Delete(f) =>
      if f < |s.table.flows| && f in s.retired && s.table.flows[f].closed { DropKeepsInv(max, s, f); }
  }

  lemma {:induction false} RunsKeepInv(max: nat, s: State, es: seq<Event>)
    requires Inv(max, s)
    ensures Inv(max, RunFrom(max, s, es))
    decreases |es|
  {
    hide Inv, Step;
    if es != [] {
      StepKeepsInv(max, s, es[0]);
      RunsKeepInv(max, Step(max, s, es[0]), es[1..]);
    }
  }

  lemma RunInvariant(max: nat, es: seq<Event>)
    ensures Inv(max, Run(max, es))
  {
    RunsKeepInv(max, OPENING, es);
  }

  // ---- Results about every run -----------------------------------------------------------

  /** The count is exactly the calls in flight; a completing call is one of them, so the count never needs its guard. */
  lemma PendingIsExact(max: nat, es: seq<Event>, f: nat)
    requires f < |Run(max, es).table.flows|
    ensures var s := Run(max, es);
      && s.table.flows[f].pending == InProgress(s.calls, f)
      && (forall i :: 0 <= i < |s.calls| && s.calls[i].flow == f && !s.calls[i].phase.Done? ==>
            s.table.flows[f].pending > 0)
  {
    RunInvariant(max, es);
    hide Run;
    var s := Run(max, es);
    assert FlowWell(s, f);
    forall i | 0 <= i < |s.calls| && s.calls[i].flow == f && !s.calls[i].phase.Done?
      ensures s.table.flows[f].pending > 0
    {
      InProgressUpdate(s.calls, i, s.calls[i], f);
    }
  }

  /** Every call ever made on a flow that a failing attach removed has itself failed, and with a known outcome. */
  lemma RemovedOnlyWhenAllFailed(max: nat, es: seq<Event>, f: nat, i: nat)
    requires f in Run(max, es).dropped && i < |Run(max, es).calls| && Run(max, es).calls[i].flow == f
    ensures var c := Run(max, es).calls[i]; c.phase.Done? && c.phase.outcome.Some? && !Ambiguous(c.phase.outcome.value)
  {
    RunInvariant(max, es);
    hide Run;
    var s := Run(max, es);
    assert FlowWell(s, f);
    InProgressUpdate(s.calls, i, s.calls[i], f);
    assert !Succeeded(s.calls[i], f) && !Unclear(s.calls[i], f);
  }

  /** A flow whose attach calls have all failed for certain is on its way out or gone. */
  lemma AbandonedFlowIsRemoved(max: nat, es: seq<Event>, f: nat)
    requires var s := Run(max, es);
      && f < |s.table.flows| && s.table.flows[f].digest.Some?
      && forall i :: 0 <= i < |s.calls| && s.calls[i].flow == f ==>
           s.calls[i].phase.Done? && s.calls[i].phase.outcome.Some? && !Ambiguous(s.calls[i].phase.outcome.value)
    ensures f in Run(max, es).dropped || f in Run(max, es).retired
  {
    RunInvariant(max, es);
    hide Run;
    var s := Run(max, es);
    assert FlowWell(s, f);
    AllDone(s.calls, f);
  }

  lemma {:induction false} AllDone(calls: seq<Call>, f: nat)
    requires forall i :: 0 <= i < |calls| && calls[i].flow == f ==> calls[i].phase.Done?
    ensures InProgress(calls, f) == 0
  {
    if calls != [] { AllDone(calls[..|calls| - 1], f); }
  }

  /** At most one indexed flow per stream, and never more than the limit. */
  lemma OneFlowPerStream(max: nat, es: seq<Event>, f: nat, g: nat)
    requires var t := Run(max, es).table; Indexed(t, f) && Indexed(t, g) && t.flows[f].target == t.flows[g].target
    ensures f == g
    ensures |Run(max, es).table.index| <= max
    ensures forall k :: k in Run(max, es).table.index ==> Indexed(Run(max, es).table, Run(max, es).table.index[k])
  {
    RunInvariant(max, es);
    hide Run;
  }

  /** The last section of a retirement unindexes that flow and no other, whatever happened since it began. */
  lemma RetirementTakesItsOwn(max: nat, es: seq<Event>, f: nat, g: nat)
    requires var s := Run(max, es); f < |s.table.flows| && f in s.retired && s.table.flows[f].closed
    ensures var s, s' := Run(max, es), Step(max, Run(max, es), Delete(f));
      Indexed(s'.table, g) <==> Indexed(s.table, g) && g != f
  {
    hide Run;
  }

  /** A flow that is no longer indexed was retired and closed first, so it takes no binding any more. */
  lemma UnindexedIsClosed(max: nat, es: seq<Event>, f: nat, id: string)
    requires var s := Run(max, es); f < |s.table.flows| && !Indexed(s.table, f)
    ensures var s := Run(max, es); f in s.retired && s.table.flows[f].closed && Bind(s.table.flows[f], id).Some?
  {
    RunInvariant(max, es);
    hide Run;
    assert FlowWell(Run(max, es), f);
  }

  /** All calls ever made on a flow carry one digest, the flow's; those that succeeded were answered with one ID. */
  lemma CallsShareTheFlow(max: nat, es: seq<Event>, i: nat, j: nat)
    requires var s := Run(max, es); i < |s.calls| && j < |s.calls| && s.calls[i].flow == s.calls[j].flow
    ensures var s := Run(max, es); var c, d := s.calls[i], s.calls[j];
      && c.flow < |s.table.flows| && s.table.flows[c.flow].digest == Some(c.digest) && c.digest == d.digest
      && (Succeeded(c, c.flow) && Succeeded(d, c.flow) ==>
            c.id == d.id != "" && c.id == s.table.flows[c.flow].subscriptionID)
  {
    RunInvariant(max, es);
    hide Run, FlowWell;
    var s := Run(max, es);
    assert CallWell(s.table.flows[s.calls[i].flow], s.calls[i]);
    assert CallWell(s.table.flows[s.calls[j].flow], s.calls[j]);
  }

  /** Which flow an attach gets: the indexed one of its stream if it is not retiring and was made by the same digest, a
      new one if the stream has none and there is room. */
  lemma AttachIsExact(max: nat, es: seq<Event>, target: Target, digest: string)
    ensures var t := Run(max, es).table;
      var choice := Choose(max, t, target, Some(digest));
      var present := exists f: nat :: Indexed(t, f) && t.flows[f].target == target;
      && (forall f: nat :: Indexed(t, f) && t.flows[f].target == target ==>
            choice == if !t.flows[f].retiring && t.flows[f].digest == Some(digest) then Ok(f) else Err(Conflict))
      && (!present ==> choice == if |t.index| >= max then Err(ResourceExhausted) else Ok(|t.flows|))
  {
    RunInvariant(max, es);
    hide Run, FlowWell;
    var t := Run(max, es).table;
    if target in t.index { assert Indexed(t, t.index[target]); }
  }

  /** A successful answer is taken exactly if it names a subscription, the flow is open and no earlier success on the
      flow named another. */
  lemma BindIsExact(max: nat, es: seq<Event>, i: nat, id: string)
    requires var s := Run(max, es); i < |s.calls| && s.calls[i].phase.InFlight?
    ensures var s, s' := Run(max, es), Step(max, Run(max, es), Answer(i, None, id));
      && s.calls[i].flow < |s.table.flows| && i < |s'.calls| && s'.calls[i].phase.Answered?
      && |s'.table.flows| == |s.table.flows|
      && var x := s.table.flows[s.calls[i].flow];
      && (s'.calls[i].phase.result.None? <==>
            id != "" && !x.closed && (x.subscriptionID == "" || x.subscriptionID == id))
      && (s'.calls[i].phase.result.None? ==> s'.table.flows[s.calls[i].flow].subscriptionID == id)
  {
    RunInvariant(max, es);
    hide Run, FlowWell;
  }

  // ---- Who removes a flow, and what a removal rules out ----------------------------------

  /** A failure that leaves no doubt: none of the four codes under which the provider may have acted. */
  predicate CertainFailure(outcome: Option<ErrorCode>) {
    outcome.Some? && outcome.value !in {Cancelled, DeadlineExceeded, Unavailable, OutcomeUnknown}
  }

  /** Call j, if it is another call on the flow, has certainly failed. */
  predicate OtherFailed(s: State, i: nat, j: nat)
    requires i < |s.calls| && j < |s.calls|
  {
    j != i && s.calls[j].flow == s.calls[i].flow ==>
      s.calls[j].phase.Done? && CertainFailure(s.calls[j].phase.outcome)
  }

  /** A completing attach removes its flow exactly if it and every other call ever made on it failed for certain. */
  lemma FinishIsExact(max: nat, es: seq<Event>, i: nat)
    requires i < |Run(max, es).calls| && Run(max, es).calls[i].phase.Answered?
    ensures var s, s' := Run(max, es), Step(max, Run(max, es), Finish(i));
      var f := s.calls[i].flow;
      f in s'.dropped <==>
        && Indexed(s.table, f) && CertainFailure(s.calls[i].phase.result)
        && forall j :: 0 <= j < |s.calls| ==> OtherFailed(s, i, j)
  {
    RunInvariant(max, es);
    hide Run, Indexed;
    var s := Run(max, es);
    var f, r := s.calls[i].flow, s.calls[i].phase.result;
    assert FlowWell(s, f);
    AllOthersFailed(s, i);
    InProgressUpdate(s.calls, i, s.calls[i], f);
    hide InProgress, SomeSucceeded, SomeUnclear, OtherFailed;
  }

  lemma AllOthersFailed(s: State, i: nat)
    requires i < |s.calls| && !s.calls[i].phase.Done?
    ensures (forall j :: 0 <= j < |s.calls| ==> OtherFailed(s, i, j)) <==>
              var f := s.calls[i].flow;
              InProgress(s.calls, f) == 1 && !SomeSucceeded(s.calls, f) && !SomeUnclear(s.calls, f)
  {
    var f, done := s.calls[i].flow, s.calls[i].(phase := Done(None));
    var after := s.calls[i := done];
    InProgressUpdate(s.calls, i, done, f);
    if forall j :: 0 <= j < |s.calls| ==> OtherFailed(s, i, j) {
      forall j | 0 <= j < |after| && after[j].flow == f ensures after[j].phase.Done? {
        assert OtherFailed(s, i, j);
      }
      AllDone(after, f);
      assert forall j :: 0 <= j < |s.calls| && Ended(s.calls[j], f) ==> OtherFailed(s, i, j);
    } else if InProgress(s.calls, f) == 1 && !SomeSucceeded(s.calls, f) && !SomeUnclear(s.calls, f) {
      forall j | 0 <= j < |s.calls| ensures OtherFailed(s, i, j) {
        InProgressUpdate(after, j, after[j], f);
        assert !Succeeded(s.calls[j], f) && !Unclear(s.calls[j], f);
      }
    }
  }

  /** No attach can join the flow. */
  predicate Shut(t: Table, f: nat) {
    f < |t.flows| && (t.flows[f].retiring || !Indexed(t, f))
  }

  ghost predicate GoingIsShut(s: State) {
    forall f :: f in s.retired || f in s.dropped ==> Shut(s.table, f)
  }

  /** The calls of a later state: the earlier ones on the flows they were on, and none of the others on f. */
  ghost predicate NoMoreOn(s: State, s': State, f: nat) {
    && |s.calls| <= |s'.calls|
    && (forall i :: 0 <= i < |s.calls| ==> s'.calls[i].flow == s.calls[i].flow)
    && (forall i :: |s.calls| <= i < |s'.calls| ==> s'.calls[i].flow != f)
  }

  lemma ReserveKeepsShut(max: nat, s: State, target: Target, digest: Option<string>, f: nat)
    requires Inv(max, s) && Shut(s.table, f) && Choose(max, s.table, target, digest).Ok?
    ensures var g := Choose(max, s.table, target, digest).value;
      g != f && Shut(Reserve(s.table, target, digest, g), f)
  {
    hide FlowWell, CallWell;
    if target in s.table.index { assert s.table.flows[s.table.index[target]].target == target; }
  }

  lemma StepKeepsShut(max: nat, s: State, e: Event, f: nat)
    requires Inv(max, s) && Shut(s.table, f)
    ensures Shut(Step(max, s, e).table, f) && NoMoreOn(s, Step(max, s, e), f)
  {
    hide Inv, Choose, Reserve, Removes, Bind;
    match e
    case Attach(target, digest) =>
      if Choose(max, s.table, target, Some(digest)).Ok? { ReserveKeepsShut(max, s, target, Some(digest), f); }
      hide Shut;
    case Subscribe(target) =>
      if Choose(max, s.table, target, None).Ok? { ReserveKeepsShut(max, s, target, None, f); }
      hide Shut;
    case _ =>
  }

  lemma StepKeepsGoing(max: nat, s: State, e: Event)
    requires Inv(max, s) && GoingIsShut(s)
    ensures GoingIsShut(Step(max, s, e))
  {
    hide Inv, Choose, Reserve, Bind;
    var s' := Step(max, s, e);
    forall f | f in s'.retired || f in s'.dropped ensures Shut(s'.table, f) {
      if f in s.retired || f in s.dropped { StepKeepsShut(max, s, e, f); }
    }
  }

  lemma {:induction false} RunsKeepShut(max: nat, s: State, es: seq<Event>, f: nat)
    requires Inv(max, s) && Shut(s.table, f)
    ensures NoMoreOn(s, RunFrom(max, s, es), f)
    decreases |es|
  {
    hide Inv, Step, Shut;
    if es != [] {
      StepKeepsShut(max, s, es[0], f);
      StepKeepsInv(max, s, es[0]);
      RunsKeepShut(max, Step(max, s, es[0]), es[1..], f);
    }
  }

  /** Once its removal has begun, whoever began it, no call is ever again made on a flow. */
  lemma RemovalShutsOut(max: nat, es: seq<Event>, more: seq<Event>, f: nat)
    requires f in Run(max, es).retired || f in Run(max, es).dropped
    ensures NoMoreOn(Run(max, es), Run(max, es + more), f)
  {
    RunInvariant(max, es);
    RunsKeepGoing(max, OPENING, es);
    RunsCompose(max, OPENING, es, more);
    RunsKeepShut(max, Run(max, es), more, f);
  }

  lemma {:induction false} RunsKeepGoing(max: nat, s: State, es: seq<Event>)
    requires Inv(max, s) && GoingIsShut(s)
    ensures GoingIsShut(RunFrom(max, s, es))
    decreases |es|
  {
    hide Inv, Step, GoingIsShut;
    if es != [] {
      StepKeepsGoing(max, s, es[0]);
      StepKeepsInv(max, s, es[0]);
      RunsKeepGoing(max, Step(max, s, es[0]), es[1..]);
    }
  }

  lemma {:induction false} RunsCompose(max: nat, s: State, es: seq<Event>, more: seq<Event>)
    ensures RunFrom(max, s, es + more) == RunFrom(max, RunFrom(max, s, es), more)
    decreases |es|
  {
    hide Step;
    if es == [] {
      assert es + more == more;
    } else {
      assert (es + more)[1..] == es[1..] + more;
      RunsCompose(max, Step(max, s, es[0]), es[1..], more);
    }
  }

  // ---- The client's table, updated in place ----------------------------------------------

  /** The calls and the history of removals are ghosts; every method is one event of a run. */
  class Client {
    const maxSubscriptions: nat
    var flows: seq<Flow>
    var terminalFlows: map<Target, nat>
    ghost var calls: seq<Call>
    ghost var dropped: set<nat>
    ghost var retired: set<nat>

    constructor (maxSubscriptions: nat)
      ensures this.maxSubscriptions == maxSubscriptions && Now() == OPENING && Valid()
    {
      this.maxSubscriptions := maxSubscriptions;
      flows, terminalFlows, calls, dropped, retired := [], map[], [], {}, {};
    }

    ghost function Now(): State reads this {
      State(Table(flows, terminalFlows), calls, dropped, retired)
    }

    ghost predicate Valid() reads this {
      Inv(maxSubscriptions, Now())
    }

    method ReserveAttachedTerminalFlow(target: Target, digest: string) returns (r: Result<nat>)
      requires Valid()
      modifies this
      ensures Valid() && Now() == Step(maxSubscriptions, old(Now()), Attach(target, digest))
      ensures r == Choose(maxSubscriptions, old(Now()).table, target, Some(digest))
    {
      StepKeepsInv(maxSubscriptions, Now(), Attach(target, digest));
      IndexInRange(maxSubscriptions, Now());
      hide Inv, Choose, Reserve;
      r := ChooseFlow(target, digest);
      if r.Ok? { calls := calls + [Made(r.value, Some(digest))]; }
    }

    method ChooseFlow(target: Target, digest: string) returns (r: Result<nat>)
      requires forall k :: k in terminalFlows ==> terminalFlows[k] < |flows|
      modifies this`flows, this`terminalFlows
      ensures r == Choose(maxSubscriptions, old(Now()).table, target, Some(digest))
      ensures Now().table == if r.Ok? then Reserve(old(Now()).table, target, Some(digest), r.value)
          else old(Now()).table
    {
      if target in terminalFlows {
        var f := terminalFlows[target];
        if flows[f].retiring { return Err(Conflict); }
        if flows[f].digest == Some(digest) {
          flows := flows[f := flows[f].(pending := flows[f].pending + 1)];
          return Ok(f);
        }
        return Err(Conflict);
      }
      if |terminalFlows| >= maxSubscriptions { return Err(ResourceExhausted); }
      r := Ok(|flows|);
      terminalFlows := terminalFlows[target := |flows|];
      flows := flows + [Flow(target, Some(digest), "", 1, false, false, false, false)];
    }

    method ReserveTerminalFlow(target: Target) returns (r: Result<nat>)
      requires Valid()
      modifies this
      ensures Valid() && Now() == Step(maxSubscriptions, old(Now()), Subscribe(target))
      ensures r == Choose(maxSubscriptions, old(Now()).table, target, None)
    {
      StepKeepsInv(maxSubscriptions, Now(), Subscribe(target));
      hide Inv;
      if target in terminalFlows { return Err(Conflict); }
      if |terminalFlows| >= maxSubscriptions { return Err(ResourceExhausted); }
      r := Ok(|flows|);
      terminalFlows := terminalFlows[target := |flows|];
      flows := flows + [Flow(target, None, "", 0, false, false, false, false)];
    }

    /** Attach call i is answered; a success binds the flow to its subscription, under the flow's own mutex. */
    method BindSubscription(ghost i: nat, f: nat, failure: Option<ErrorCode>, id: string) returns (r: Option<ErrorCode>)
      requires Valid() && f < |flows| && i < |calls| && calls[i].flow == f && calls[i].phase.InFlight?
      modifies this
      ensures Valid() && Now() == Step(maxSubscriptions, old(Now()), Answer(i, failure, id))
      ensures calls[i].phase == Answered(r) && (failure.Some? ==> r == failure)
    {
      StepKeepsInv(maxSubscriptions, Now(), Answer(i, failure, id));
      hide Inv;
      var x := flows[f];
      r := failure;
      if failure.None? {
        if id == "" {
          r := Some(InvalidArgument);
        } else if x.closed || (x.subscriptionID != "" && x.subscriptionID != id) {
          r := Some(Conflict);
        } else {
          flows := flows[f := x.(subscriptionID := id)];
        }
      }
      assert failure.None? && r.Some? ==> flows[f := x] == flows;
      calls := calls[i := calls[i].(phase := Answered(r), id := if failure.None? then id else calls[i].id)];
    }

    /** Attach call i is counted out; the caller then retires the flow if told to. */
    method CompleteAttachedTerminalFlow(ghost i: nat, f: nat, outcome: Option<ErrorCode>) returns (remove: bool)
      requires Valid() && f < |flows| && i < |calls| && calls[i].flow == f && calls[i].phase == Answered(outcome)
      modifies this
      ensures Valid() && Now() == Step(maxSubscriptions, old(Now()), Finish(i))
      ensures remove == Removes(old(Now()).table, f, outcome)
    {
      FinishKeepsInv(maxSubscriptions, Now(), i);
      FinishMeans(maxSubscriptions, Now(), i, f, outcome);
      hide Inv, Complete, Removes, Step;
      remove := CountOut(f, outcome);
      if remove { dropped := dropped + {f}; }
      calls := calls[i := calls[i].(phase := Done(outcome))];
    }

    method CountOut(f: nat, outcome: Option<ErrorCode>) returns (remove: bool)
      requires f < |flows|
      modifies this`flows
      ensures Now().table == Complete(old(Now()).table, f, outcome)
      ensures remove == Removes(old(Now()).table, f, outcome)
    {
      remove := false;
      var x := flows[f];
      if x.pending > 0 { x := x.(pending := x.pending - 1); }
      if outcome.None? {
        x := x.(established := true);
      } else if Ambiguous(outcome.value) {
        x := x.(unknown := true);
      }
      if outcome.Some? && !Ambiguous(outcome.value) && x.pending == 0 && !x.established && !x.unknown
         && x.target in terminalFlows && terminalFlows[x.target] == f {
        x := x.(retiring := true);
        remove := true;
      }
      flows := flows[f := x];
    }

    /** A retirement in its three critical sections, between which anything may happen. */
    method MarkRetiring(f: nat)
      requires Valid() && f < |flows|
      modifies this
      ensures Valid() && Now() == Step(maxSubscriptions, old(Now()), Retire(f))
    {
      MarkKeepsInv(maxSubscriptions, Now(), f);
      hide Inv;
      var target := flows[f].target;
      if target in terminalFlows && terminalFlows[target] == f { flows := flows[f := flows[f].(retiring := true)]; }
      retired := retired + {f};
    }

    method CloseRetired(f: nat)
      requires Valid() && f < |flows| && f in retired
      modifies this
      ensures Valid() && Now() == Step(maxSubscriptions, old(Now()), CloseFlow(f))
    {
      CloseKeepsInv(maxSubscriptions, Now(), f);
      hide Inv;
      flows := flows[f := flows[f].(closed := true)];
    }

    method DeleteRetired(f: nat)
      requires Valid() && f < |flows| && f in retired && flows[f].closed
      modifies this
      ensures Valid() && Now() == Step(maxSubscriptions, old(Now()), Delete(f))
    {
      hide Inv;
      DropKeepsInv(maxSubscriptions, Now(), f);
      var target := flows[f].target;
      if target in terminalFlows && terminalFlows[target] == f { terminalFlows := terminalFlows - {target}; }
    }
  }

  lemma FinishMeans(max: nat, s: State, i: nat, f: nat, outcome: Option<ErrorCode>)
    requires i < |s.calls| && s.calls[i].flow == f && s.calls[i].phase == Answered(outcome) && f < |s.table.flows|
    ensures Step(max, s, Finish(i)) ==
              State(Complete(s.table, f, outcome), s.calls[i := s.calls[i].(phase := Done(outcome))],
                    if Removes(s.table, f, outcome) then s.dropped + {f} else s.dropped, s.retired)
  {
    hide Complete, Removes;
  }

  lemma IndexInRange(max: nat, s: State)
    requires Inv(max, s)
    ensures forall k :: k in s.table.index ==> s.table.index[k] < |s.table.flows|
  {
  }
}
