/**
 Writes that can never be answered.  The inner writer finds a job through its
 queue, as its active write, or through the job's own abort listener.  A stream
 that throws synchronously makes the failing writer forget the job first, and that
 is the only way for a job to fall out of both.
 */
module LostWrites {
  import opened Base
  import opened FrameWriters

  /** The task waits for its frame to be written. */
  predicate Waits(x: Task) {
    x.stage.Submitted? && !x.jobSettled
  }

  predicate Listed(w: Writer, t: nat) {
    t in w.queue || w.active == Some(t)
  }

  /** Waiting, but neither queued nor active: no callback and no failure of the writer will answer it. */
  predicate Orphan(w: Writer, t: nat) {
    t < |w.tasks| && Waits(w.tasks[t]) && !Listed(w, t)
  }

  /** The first job of a queue whose signal has not fired, which is the one a pump hands to the stream. */
  function FirstReady(w: Writer, queue: seq<nat>): Option<nat>
    requires forall i :: 0 <= i < |queue| ==> queue[i] < |w.tasks|
  {
    if queue == [] then None
    else if Aborted(w, queue[0]) then FirstReady(w, queue[1..])
    else Some(queue[0])
  }

  /** The event hands task t to the stream and the stream throws on it. */
  predicate ThrowsOn(max: nat, w: Writer, e: Event, t: nat)
    requires InRange(w) && t < |w.tasks|
  {
    match e
    case HandOn(u, fault, throws) =>
      throws && u == t && w.tasks[t].stage.Admitted? && w.active.None? && Admission(max, w, t, fault).Accepted?
    case Written(throws) =>
      throws && w.active.Some? && !w.closed && FirstReady(w, w.queue) == Some(t)
    case _ => false
  }

  /** The task's own abort listener answers it. */
  predicate Rescued(w: Writer, e: Event, t: nat)
    requires t < |w.tasks|
  {
    e == Heard(t) && Aborted(w, t)
  }

  // ---- What each part of a step does to one task -----------------------------------------

  lemma {:induction false} SettleJobsMean(w: Writer, ts: seq<nat>, t: nat)
    requires InRange(w) && (forall i :: 0 <= i < |ts| ==> ts[i] < |w.tasks|) && t < |w.tasks|
    ensures var w' := SettleJobs(w, ts);
      && w' == w.(tasks := w'.tasks)
      && (Waits(w'.tasks[t]) <==> Waits(w.tasks[t]) && t !in ts)
    decreases |ts|
  {
    if ts != [] {
      assert t in ts <==> t == ts[0] || t in ts[1..];
      SettleJobsMean(SettleJob(w, ts[0]), ts[1..], t);
    }
  }

  lemma FailWriterOrphans(w: Writer, t: nat)
    requires InRange(w) && t < |w.tasks|
    ensures Orphan(FailWriter(w), t) <==> Orphan(w, t)
  {
    hide SettleJobs;
    SettleJobsMean(w.(closed := true, queue := []), w.queue, t);
  }

  lemma CloseWriterOrphans(w: Writer, t: nat)
    requires InRange(w) && t < |w.tasks|
    ensures Orphan(CloseWriter(w), t) <==> Orphan(w, t)
  {
    hide SettleJobs;
    SettleJobsMean(w.(closed := true, queue := []), w.queue, t);
  }

  /** Tasks that wait for admission come and go without touching those that wait for a write. */
  ghost predicate SameWrites(w: Writer, w': Writer) {
    && |w.tasks| == |w'.tasks| && w'.queue == w.queue && w'.active == w.active && w'.closed == w.closed
    && forall t :: 0 <= t < |w.tasks| ==> (Waits(w'.tasks[t]) <==> Waits(w.tasks[t]))
  }

  ghost predicate AllWaiting(w: Writer, ts: seq<nat>) {
    forall i :: 0 <= i < |ts| ==> ts[i] < |w.tasks| && w.tasks[ts[i]].stage.Waiting?
  }

  lemma {:induction false} RefuseAllSpares(w: Writer, ts: seq<nat>)
    requires InRange(w) && AllWaiting(w, ts) && Distinct(ts)
    ensures SameWrites(w, RefuseAll(w, ts))
    decreases |ts|
  {
    if ts != [] {
      var next, rest := Refuse(w, ts[0]), ts[1..];
      assert AllWaiting(next, rest);
      RefuseAllSpares(next, rest);
    }
  }

  lemma {:induction false} DrainSpares(max: nat, w: Writer)
    requires InRange(w) && AllWaiting(w, w.waiters) && Distinct(w.waiters)
    ensures SameWrites(w, Drain(max, w))
    decreases |w.waiters|
  {
    if !w.serverClosed && w.admitted < max && w.waiters != [] {
      var next := AdmitFirst(w);
      assert AllWaiting(next, next.waiters);
      DrainSpares(max, next);
    }
  }

  lemma WaitersWait(max: nat, w: Writer)
    requires Core(max, w)
    ensures AllWaiting(w, w.waiters) && Distinct(w.waiters)
  {
  }

  lemma CloseServerSpares(max: nat, w: Writer)
    requires Core(max, w)
    ensures SameWrites(w, CloseServer(w))
  {
    WaitersWait(max, w);
    hide Core, RefuseAll;
    if !w.serverClosed {
      var marked := w.(serverClosed := true, waiters := []);
      assert AllWaiting(marked, w.waiters);
      RefuseAllSpares(marked, w.waiters);
    }
  }

  lemma LeaveSpares(max: nat, w: Writer, t: nat)
    requires Core(max, w) && t < |w.tasks| && w.tasks[t].stage.Submitted? && w.tasks[t].jobSettled
    ensures SameWrites(w, Leave(max, w, t))
  {
    WaitersWait(max, w);
    hide Core, Drain;
    var left := w.(tasks := w.tasks[t := w.tasks[t].(stage := Finished)], admitted := w.admitted - 1);
    assert AllWaiting(left, left.waiters);
    DrainSpares(max, left);
  }

  // ---- Pumping ---------------------------------------------------------------------------

  lemma {:induction false} ReadyAfterSettle(w: Writer, u: nat, queue: seq<nat>)
    requires InRange(w) && u < |w.tasks| && forall i :: 0 <= i < |queue| ==> queue[i] < |w.tasks|
    ensures FirstReady(SettleJob(w, u), queue) == FirstReady(w, queue)
    decreases |queue|
  {
    if queue != [] { ReadyAfterSettle(w, u, queue[1..]); }
  }

  /** A pump loses exactly the job it hands to a stream that throws. */
  lemma {:induction false} PumpOrphans(max: nat, w: Writer, throws: bool, t: nat)
    requires Core(max, w) && t < |w.tasks|
    ensures var thrown := throws && w.active.None? && !w.closed && FirstReady(w, w.queue) == Some(t);
      Orphan(Pump(w, throws), t) <==> Orphan(w, t) || thrown
    decreases |w.queue|
  {
    if w.active.None? && !w.closed && w.queue != [] {
      TakeJobKeeps(max, w);
      FirstWaits(max, w);
      var u := w.queue[0];
      var taken := w.(queue := w.queue[1..]);
      assert t in w.queue <==> t == u || t in taken.queue;
      if Aborted(w, u) {
        SettleJobKeeps(max, taken, u);
        hide Core;
        ReadyAfterSettle(taken, u, taken.queue);
        SameReady(w, taken, taken.queue);
        PumpOrphans(max, SettleJob(taken, u), throws, t);
      } else if throws {
        hide Core, FailWriter;
        FailWriterOrphans(taken, t);
        ClosedPump(FailWriter(taken), throws);
      } else {
        hide Core;
        assert Pump(taken.(active := Some(u)), throws) == taken.(active := Some(u));
      }
    }
  }

  lemma FirstWaits(max: nat, w: Writer)
    requires Core(max, w) && w.queue != []
    ensures w.queue[0] < |w.tasks| && Waits(w.tasks[w.queue[0]])
  {
    assert w.queue[0] in w.queue;
  }

  lemma {:induction false} SameReady(w: Writer, v: Writer, queue: seq<nat>)
    requires v.tasks == w.tasks && v.aborted == w.aborted && forall i :: 0 <= i < |queue| ==> queue[i] < |w.tasks|
    ensures FirstReady(v, queue) == FirstReady(w, queue)
    decreases |queue|
  {
    if queue != [] { SameReady(w, v, queue[1..]); }
  }

  lemma ClosedPump(w: Writer, throws: bool)
    requires InRange(w) && w.queue == []
    ensures Pump(w, throws) == w
  {
  }

  // ---- One step --------------------------------------------------------------------------

  lemma SubmitOrphans(max: nat, w: Writer, u: nat, fault: Option<ErrorCode>, throws: bool, t: nat)
    requires Inv(max, w) && t < |w.tasks| && u < |w.tasks| && w.tasks[u].stage.Admitted?
    ensures Orphan(Submit(max, w, u, fault, throws), t) <==>
              Orphan(w, t) || ThrowsOn(max, w, HandOn(u, fault, throws), t)
  {
    MoveToSubmitted(max, w, u);
    hide Core;
    var moved := w.(tasks := w.tasks[u := w.tasks[u].(stage := Submitted)]);
    if Admission(max, w, u, fault).Accepted? {
      var queued := moved.(queue := w.queue + [u]);
      if w.active.None? { assert w.queue == [] && queued.queue == [u]; }
      hide Pump;
      PumpOrphans(max, queued, throws, t);
    }
  }

  lemma CompleteOrphans(max: nat, w: Writer, throws: bool, t: nat)
    requires Inv(max, w) && t < |w.tasks|
    ensures Orphan(Complete(w, throws), t) <==> Orphan(w, t) || ThrowsOn(max, w, Written(throws), t)
  {
    if w.active.Some? {
      var u := w.active.value;
      var idle := w.(active := None);
      assert Core(max, idle) && u !in w.queue;
      hide Core, Pump;
      SettleJobKeeps(max, idle, u);
      ReadyAfterSettle(idle, u, w.queue);
      SameReady(w, idle, w.queue);
      PumpOrphans(max, SettleJob(idle, u), throws, t);
    }
  }

  lemma NoticeOrphans(max: nat, w: Writer, u: nat, t: nat)
    requires Inv(max, w) && t < |w.tasks| && u < |w.tasks|
    ensures Orphan(Notice(w, u), t) <==> Orphan(w, t) && !Rescued(w, Heard(u), t)
  {
    if Aborted(w, u) && w.tasks[u].stage.Submitted? && !w.tasks[u].jobSettled {
      if w.active == Some(u) {
        CloseServerSpares(max, w);
        hide Core, CloseServer, FailWriter;
        FailWriterOrphans(CloseServer(w), t);
      } else {
        WithoutMeans(w.queue, u);
        hide Core;
      }
    }
  }

  /** Exactly how a task comes to be, and stops being, out of reach. */
  lemma StepOrphans(max: nat, w: Writer, e: Event, t: nat)
    requires Inv(max, w) && t < |w.tasks|
    ensures Orphan(Step(max, w, e), t) <==> ThrowsOn(max, w, e, t) || (Orphan(w, t) && !Rescued(w, e, t))
  {
    hide Core, Submit, Complete, Notice, CloseServer, FailWriter, CloseWriter, Leave;
    match e
    case HandOn(u, fault, throws) =>
      if u < |w.tasks| && w.tasks[u].stage.Admitted? { SubmitOrphans(max, w, u, fault, throws, t); }
    case Written(throws) => CompleteOrphans(max, w, throws, t);
    case Resume(u) =>
      if u < |w.tasks| && w.tasks[u].stage.Submitted? && w.tasks[u].jobSettled { LeaveSpares(max, w, u); }
    case Heard(u) => if u < |w.tasks| { NoticeOrphans(max, w, u, t); }
    case Close => CloseServerSpares(max, w); CloseWriterOrphans(CloseServer(w), t);
    case Fail => CloseServerSpares(max, w); FailWriterOrphans(CloseServer(w), t);
    case TransportError => FailWriterOrphans(w, t);
    case Write(_) =>
    case Abort(_) =>
  }

  lemma NewTaskListed(max: nat, w: Writer, e: Event, t: nat)
    requires InRange(w) && |w.tasks| <= t
    ensures !Orphan(Step(max, w, e), t)
  {
    hide Submit, Complete, Notice, CloseServer, FailWriter, CloseWriter, Leave;
  }

  // ---- Signals ---------------------------------------------------------------------------

  /** No step gives a task another signal. */
  ghost predicate SameSignals(w: Writer, w': Writer) {
    |w.tasks| <= |w'.tasks| && forall t :: 0 <= t < |w.tasks| ==> w'.tasks[t].signal == w.tasks[t].signal
  }

  lemma {:induction false} SettleJobsSignals(w: Writer, ts: seq<nat>)
    requires InRange(w) && forall i :: 0 <= i < |ts| ==> ts[i] < |w.tasks|
    ensures SameSignals(w, SettleJobs(w, ts))
    decreases |ts|
  {
    if ts != [] { SettleJobsSignals(SettleJob(w, ts[0]), ts[1..]); }
  }

  lemma FailWriterSignals(w: Writer)
    requires InRange(w)
    ensures SameSignals(w, FailWriter(w)) && SameSignals(w, CloseWriter(w))
  {
    hide SettleJobs;
    SettleJobsSignals(w.(closed := true, queue := []), w.queue);
  }

  lemma {:induction false} PumpSignals(w: Writer, throws: bool)
    requires InRange(w)
    ensures SameSignals(w, Pump(w, throws))
    decreases |w.queue|
  {
    if !(w.active.Some? || w.closed || w.queue == []) {
      hide FailWriter;
      FailWriterSignals(w.(queue := w.queue[1..]));
      PumpSignals(StartFirst(w, throws), throws);
    }
  }

  lemma {:induction false} RefuseAllSignals(w: Writer, ts: seq<nat>)
    requires InRange(w) && forall i :: 0 <= i < |ts| ==> ts[i] < |w.tasks|
    ensures SameSignals(w, RefuseAll(w, ts))
    decreases |ts|
  {
    if ts != [] { RefuseAllSignals(Refuse(w, ts[0]), ts[1..]); }
  }

  lemma CloseServerSignals(w: Writer)
    requires InRange(w)
    ensures SameSignals(w, CloseServer(w))
  {
    hide RefuseAll;
    RefuseAllSignals(w.(serverClosed := true, waiters := []), w.waiters);
  }

  lemma {:induction false} DrainSignals(max: nat, w: Writer)
    requires InRange(w)
    ensures SameSignals(w, Drain(max, w))
    decreases |w.waiters|
  {
    if !(w.serverClosed || w.admitted >= max || w.waiters == []) { DrainSignals(max, AdmitFirst(w)); }
  }

  lemma SubmitSignals(max: nat, w: Writer, t: nat, fault: Option<ErrorCode>, throws: bool)
    requires InRange(w) && t < |w.tasks|
    ensures SameSignals(w, Submit(max, w, t, fault, throws))
  {
    hide Pump;
    PumpSignals(w.(tasks := w.tasks[t := w.tasks[t].(stage := Submitted)], queue := w.queue + [t]), throws);
  }

  lemma CompleteSignals(w: Writer, throws: bool)
    requires InRange(w)
    ensures SameSignals(w, Complete(w, throws))
  {
    hide Pump;
    if w.active.Some? { PumpSignals(SettleJob(w.(active := None), w.active.value), throws); }
  }

  lemma LeaveSignals(max: nat, w: Writer, t: nat)
    requires InRange(w) && t < |w.tasks|
    ensures SameSignals(w, Leave(max, w, t))
  {
    hide Drain;
    DrainSignals(max, w.(tasks := w.tasks[t := w.tasks[t].(stage := Finished)], admitted := w.admitted - 1));
  }

  lemma StepSignals(max: nat, w: Writer, e: Event)
    requires InRange(w)
    ensures SameSignals(w, Step(max, w, e))
  {
    hide Submit, Complete, Leave, CloseServer, FailWriter, CloseWriter;
    CloseServerSignals(w);
    match e
    case HandOn(t, fault, throws) => if t < |w.tasks| { SubmitSignals(max, w, t, fault, throws); }
    case Written(throws) => CompleteSignals(w, throws);
    case Resume(t) => if t < |w.tasks| { LeaveSignals(max, w, t); }
    case Heard(_) => FailWriterSignals(CloseServer(w));
    case Close => FailWriterSignals(CloseServer(w));
    case Fail => FailWriterSignals(CloseServer(w));
    case TransportError => FailWriterSignals(w);
    case Write(_) =>
    case Abort(_) =>
  }

  // ---- Whole runs ------------------------------------------------------------------------

  lemma {:induction false} RunsCompose(max: nat, w: Writer, es: seq<Event>, more: seq<Event>)
    requires InRange(w)
    ensures RunFrom(max, w, es + more) == RunFrom(max, RunFrom(max, w, es), more)
    decreases |es|
  {
    hide Step;
    if es == [] {
      assert es + more == more;
    } else {
      assert (es + more)[1..] == es[1..] + more;
      RunsCompose(max, Step(max, w, es[0]), es[1..], more);
    }
  }

  lemma LastEvent(max: nat, es: seq<Event>)
    requires es != []
    ensures Run(max, es) == Step(max, Run(max, es[..|es| - 1]), es[|es| - 1])
  {
    hide Step;
    var head, last := es[..|es| - 1], es[|es| - 1];
    assert es == head + [last];
    RunsCompose(max, OPENING, head, [last]);
    assert [last][1..] == [];
  }

  /** Event k of the run is one in which the stream throws on task t. */
  ghost predicate ThrownAt(max: nat, es: seq<Event>, k: nat, t: nat) {
    k < |es| && t < |Run(max, es[..k]).tasks| && ThrowsOn(max, Run(max, es[..k]), es[k], t)
  }

  ghost predicate RescuedAt(max: nat, es: seq<Event>, k: nat, t: nat) {
    k < |es| && t < |Run(max, es[..k]).tasks| && Rescued(Run(max, es[..k]), es[k], t)
  }

  /** The stream threw on the task at some point and its abort listener has not run since. */
  ghost predicate ThrownAndLeft(max: nat, es: seq<Event>, t: nat) {
    exists k: nat :: LeftSince(max, es, k, t)
  }

  ghost predicate LeftSince(max: nat, es: seq<Event>, k: nat, t: nat) {
    ThrownAt(max, es, k, t) && forall j: nat :: k < j < |es| ==> !RescuedAt(max, es, j, t)
  }

  /** In every run, a waiting task is out of reach exactly if the stream threw on it and its signal has not answered it
      since. */
  lemma {:induction false} LossIsExact(max: nat, es: seq<Event>, t: nat)
    ensures Orphan(Run(max, es), t) <==> ThrownAndLeft(max, es, t)
    decreases |es|
  {
    if es != [] {
      var n := |es| - 1;
      var head, w := es[..n], Run(max, es[..n]);
      LossIsExact(max, head, t);
      LastEvent(max, es);
      RunInvariant(max, head);
      hide Run, Step, Inv;
      if t < |w.tasks| { StepOrphans(max, w, es[n], t); } else { NewTaskListed(max, w, es[n], t); }
      LastThrow(max, es, t);
    }
  }

  /** What the last event adds to the history of throws and rescues. */
  lemma LastThrow(max: nat, es: seq<Event>, t: nat)
    requires es != []
    ensures var n := |es| - 1;
      ThrownAndLeft(max, es, t) <==>
        ThrownAt(max, es, n, t) || (ThrownAndLeft(max, es[..n], t) && !RescuedAt(max, es, n, t))
  {
    hide Run, ThrownAt, RescuedAt;
    var n := |es| - 1;
    var head := es[..n];
    forall k: nat | k < n
      ensures ThrownAt(max, es, k, t) == ThrownAt(max, head, k, t)
      ensures RescuedAt(max, es, k, t) == RescuedAt(max, head, k, t)
    {
      SamePrefix(max, es, k, t);
    }
    Bounded(max, es, t);
    Bounded(max, head, t);
    if ThrownAndLeft(max, es, t) {
      var k: nat :| LeftSince(max, es, k, t);
      if k < n { assert LeftSince(max, head, k, t); }
    }
    if ThrownAt(max, es, n, t) { assert LeftSince(max, es, n, t); }
    if ThrownAndLeft(max, head, t) && !RescuedAt(max, es, n, t) {
      var k: nat :| LeftSince(max, head, k, t);
      assert LeftSince(max, es, k, t);
    }
  }

  lemma SamePrefix(max: nat, es: seq<Event>, k: nat, t: nat)
    requires k < |es| - 1
    ensures ThrownAt(max, es, k, t) == ThrownAt(max, es[..|es| - 1], k, t)
    ensures RescuedAt(max, es, k, t) == RescuedAt(max, es[..|es| - 1], k, t)
  {
    hide Run;
    assert es[..|es| - 1][..k] == es[..k];
  }

  lemma Bounded(max: nat, es: seq<Event>, t: nat)
    ensures forall k: nat :: ThrownAt(max, es, k, t) ==> k < |es|
  {
  }

  predicate Throws(e: Event) {
    (e.HandOn? || e.Written?) && e.throws
  }

  /** As long as the stream never throws, every waiting task is queued or active. */
  lemma NoThrowNoLoss(max: nat, es: seq<Event>, t: nat)
    requires forall k :: 0 <= k < |es| ==> !Throws(es[k])
    requires t < |Run(max, es).tasks| && Waits(Run(max, es).tasks[t])
    ensures Listed(Run(max, es), t)
  {
    LossIsExact(max, es, t);
    hide Run;
    forall k: nat ensures !LeftSince(max, es, k, t) {
      assert k < |es| ==> !Throws(es[k]);
    }
  }

  /** A task without a signal that is out of reach is never answered and its admission is never returned. */
  lemma {:induction false} LostForever(max: nat, w: Writer, more: seq<Event>, t: nat)
    requires Inv(max, w) && Orphan(w, t) && w.tasks[t].signal.None?
    ensures Orphan(RunFrom(max, w, more), t) && RunFrom(max, w, more).admitted > 0
    decreases |more|
  {
    if more == [] {
      HolderIn(w.tasks, t);
      assert Holders(w.tasks) != {};
    } else {
      StepKeepsInv(max, w, more[0]);
      StepOrphans(max, w, more[0], t);
      StepSignals(max, w, more[0]);
      hide Step, Core;
      LostForever(max, Step(max, w, more[0]), more[1..], t);
    }
  }

  /** The loss is reached at once: the first frame written, on a stream that throws. */
  lemma LossIsReached(max: nat)
    requires max > 0
    ensures Orphan(Run(max, [Write(None), HandOn(0, None, true)]), 0)
  {
    var es := [Write(None), HandOn(0, None, true)];
    var w := Arrive(max, OPENING, None);
    assert es[..1] == [Write(None)] && [Write(None)][1..] == [];
    assert Run(max, es[..1]) == w;
    LastEvent(max, es);
    RunInvariant(max, es[..1]);
    StepOrphans(max, w, es[1], 0);
  }
}
