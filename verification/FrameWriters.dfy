/**
 The TypeScript server's two writer layers: `ServerFrameWriter` admits a bounded
 number of writes and lets the rest wait, `FrameWriter` below it serializes the
 admitted ones through a bounded queue.  A task is one call of the outer `write`;
 a step is what runs between two turns of the event loop.
 */
module FrameWriters {
  import opened Base

  /** Where the asynchronous body of `write` stands. */
  datatype Stage =
    | Waiting     // for admission
    | Admitted    // admission granted, frame not handed on yet
    | Submitted   // waiting for the frame to be written
    | Finished    // left, holding no admission

  /** The two promises of a task: whether each is settled and how often it was resolved or rejected. */
  datatype Task = Task(
    signal: Option<nat>, stage: Stage, waiterSettled: bool, waiterAnswers: nat, jobSettled: bool, jobAnswers: nat)

  datatype Writer = Writer(
    tasks: seq<Task>, waiters: seq<nat>, admitted: int, serverClosed: bool,
    queue: seq<nat>, active: Option<nat>, closed: bool, aborted: set<nat>)

  const OPENING: Writer := Writer([], [], 0, false, [], None, false, {})

  predicate InRange(w: Writer) {
    && (forall i :: 0 <= i < |w.waiters| ==> w.waiters[i] < |w.tasks|)
    && (forall i :: 0 <= i < |w.queue| ==> w.queue[i] < |w.tasks|)
    && (w.active.Some? ==> w.active.value < |w.tasks|)
  }

  predicate Aborted(w: Writer, t: nat)
    requires t < |w.tasks|
  {
    w.tasks[t].signal.Some? && w.tasks[t].signal.value in w.aborted
  }

  // ---- The inner writer ------------------------------------------------------------------

  function SettleJob(w: Writer, t: nat): (w': Writer)
    requires InRange(w) && t < |w.tasks|
    ensures InRange(w') && |w'.tasks| == |w.tasks| && w'.queue == w.queue
  {
    var x := w.tasks[t];
    if x.jobSettled then w
    else w.(tasks := w.tasks[t := x.(jobSettled := true, jobAnswers := x.jobAnswers + 1)])
  }

  function SettleJobs(w: Writer, ts: seq<nat>): (w': Writer)
    requires InRange(w) && forall i :: 0 <= i < |ts| ==> ts[i] < |w.tasks|
    ensures InRange(w') && |w'.tasks| == |w.tasks| && w'.queue == w.queue
    decreases |ts|
  {
    if ts == [] then w else SettleJobs(SettleJob(w, ts[0]), ts[1..])
  }

  function FailWriter(w: Writer): (w': Writer)
    requires InRange(w)
    ensures InRange(w') && |w'.tasks| == |w.tasks| && w'.queue == []
  {
    var emptied := SettleJobs(w.(closed := true, queue := []), w.queue);
    if w.active.Some? then SettleJob(emptied, w.active.value) else emptied
  }

  function CloseWriter(w: Writer): (w': Writer)
    requires InRange(w)
    ensures InRange(w') && |w'.tasks| == |w.tasks|
  {
    if w.closed then w else SettleJobs(w.(closed := true, queue := []), w.queue)
  }

  /** Takes the first job off the queue and drops or starts it; `throws` is whether the stream refuses it
      synchronously. */
  function StartFirst(w: Writer, throws: bool): (w': Writer)
    requires InRange(w) && w.queue != []
    ensures InRange(w') && |w'.tasks| == |w.tasks| && |w'.queue| < |w.queue|
  {
    var t := w.queue[0];
    var taken := w.(queue := w.queue[1..]);
    if Aborted(w, t) then SettleJob(taken, t)
    else if throws then FailWriter(taken)
    else taken.(active := Some(t))
  }

  function Pump(w: Writer, throws: bool): (w': Writer)
    requires InRange(w)
    ensures InRange(w') && |w'.tasks| == |w.tasks|
    decreases |w.queue|
  {
    if w.active.Some? || w.closed || w.queue == [] then w else Pump(StartFirst(w, throws), throws)
  }

  function Load(w: Writer): nat {
    |w.queue| + (if w.active.Some? then 1 else 0)
  }

  datatype Submission = Accepted | Rejected(code: ErrorCode)

  /** The inner `write`'s decision; `fault` is what its checks of the frame itself say. */
  function Admission(max: nat, w: Writer, t: nat, fault: Option<ErrorCode>): Submission
    requires t < |w.tasks|
  {
    if w.closed then Rejected(Unavailable)
    else if Aborted(w, t) then Rejected(Cancelled)
    else if fault.Some? then Rejected(fault.value)
    else if Load(w) >= max then Rejected(ResourceExhausted)
    else Accepted
  }

  function Submit(max: nat, w: Writer, t: nat, fault: Option<ErrorCode>, throws: bool): (w': Writer)
    requires InRange(w) && t < |w.tasks|
    ensures InRange(w') && |w'.tasks| == |w.tasks|
  {
    var moved := w.(tasks := w.tasks[t := w.tasks[t].(stage := Submitted)]);
    if Admission(max, w, t, fault).Rejected? then SettleJob(moved, t)
    else Pump(moved.(queue := w.queue + [t]), throws)
  }

  /** The stream's callback for the active write. */
  function Complete(w: Writer, throws: bool): (w': Writer)
    requires InRange(w)
    ensures InRange(w') && |w'.tasks| == |w.tasks|
  {
    if w.active.None? then w
    else Pump(SettleJob(w.(active := None), w.active.value), throws)
  }

  // ---- The outer writer ------------------------------------------------------------------

  function Refuse(w: Writer, t: nat): (w': Writer)
    requires InRange(w) && t < |w.tasks|
    ensures InRange(w') && |w'.tasks| == |w.tasks|
  {
    var x := w.tasks[t];
    if x.waiterSettled then w
    else w.(tasks := w.tasks[t := x.(waiterSettled := true, waiterAnswers := x.waiterAnswers + 1, stage := Finished)])
  }

  function RefuseAll(w: Writer, ts: seq<nat>): (w': Writer)
    requires InRange(w) && forall i :: 0 <= i < |ts| ==> ts[i] < |w.tasks|
    ensures InRange(w') && |w'.tasks| == |w.tasks|
    decreases |ts|
  {
    if ts == [] then w else RefuseAll(Refuse(w, ts[0]), ts[1..])
  }

  function Grant(w: Writer, t: nat): (w': Writer)
    requires InRange(w) && t < |w.tasks|
    ensures InRange(w') && |w'.tasks| == |w.tasks|
  {
    var x := w.tasks[t];
    w.(tasks := w.tasks[t := x.(waiterSettled := true, waiterAnswers := x.waiterAnswers + 1, stage := Admitted)],
       admitted := w.admitted + 1)
  }

  /** Takes the first waiter off the list and admits or drops it. */
  function AdmitFirst(w: Writer): (w': Writer)
    requires InRange(w) && w.waiters != []
    ensures InRange(w') && |w'.tasks| == |w.tasks| && w'.waiters == w.waiters[1..]
  {
    var t := w.waiters[0];
    var taken := w.(waiters := w.waiters[1..]);
    if w.tasks[t].waiterSettled then taken
    else if Aborted(w, t) then Refuse(taken, t)
    else Grant(taken, t)
  }

  function Drain(max: nat, w: Writer): (w': Writer)
    requires InRange(w)
    ensures InRange(w') && |w'.tasks| == |w.tasks|
    decreases |w.waiters|
  {
    if w.serverClosed || w.admitted >= max || w.waiters == [] then w else Drain(max, AdmitFirst(w))
  }

  /** A task leaves through its `finally` block. */
  function Leave(max: nat, w: Writer, t: nat): (w': Writer)
    requires InRange(w) && t < |w.tasks|
    ensures InRange(w') && |w'.tasks| == |w.tasks|
  {
    Drain(max, w.(tasks := w.tasks[t := w.tasks[t].(stage := Finished)], admitted := w.admitted - 1))
  }

  function Arrive(max: nat, w: Writer, signal: Option<nat>): (w': Writer)
    requires InRange(w)
    ensures InRange(w') && |w'.tasks| == |w.tasks| + 1
  {
    var t := |w.tasks|;
    if w.serverClosed || (signal.Some? && signal.value in w.aborted) then
      w.(tasks := w.tasks + [Task(signal, Finished, true, 1, false, 0)])
    else if w.admitted < max then
      w.(tasks := w.tasks + [Task(signal, Admitted, true, 1, false, 0)], admitted := w.admitted + 1)
    else
      w.(tasks := w.tasks + [Task(signal, Waiting, false, 0, false, 0)], waiters := w.waiters + [t])
  }

  function CloseServer(w: Writer): (w': Writer)
    requires InRange(w)
    ensures InRange(w') && |w'.tasks| == |w.tasks|
  {
    if w.serverClosed then w else RefuseAll(w.(serverClosed := true, waiters := []), w.waiters)
  }

  function Without(ts: seq<nat>, t: nat): (r: seq<nat>)
    ensures forall i :: 0 <= i < |r| ==> r[i] in ts
  {
    if ts == [] then [] else if ts[0] == t then ts[1..] else [ts[0]] + Without(ts[1..], t)
  }

  /** The abort listener a task has registered, if any, runs. */
  function Notice(w: Writer, t: nat): (w': Writer)
    requires InRange(w) && t < |w.tasks|
    ensures InRange(w') && |w'.tasks| == |w.tasks|
  {
    if !Aborted(w, t) then w
    else if w.tasks[t].stage.Waiting? then
      if w.tasks[t].waiterSettled then w else Refuse(w.(waiters := Without(w.waiters, t)), t)
    else if w.tasks[t].stage.Submitted? && !w.tasks[t].jobSettled then
      if w.active == Some(t) then FailWriter(CloseServer(w))
      else SettleJob(w.(queue := Without(w.queue, t)), t)
    else w
  }

  // ---- Runs ------------------------------------------------------------------------------

  datatype Event =
    | Write(signal: Option<nat>)
    | HandOn(task: nat, fault: Option<ErrorCode>, throws: bool)
    | Written(throws: bool)
    | Resume(task: nat)
    | Abort(source: nat)
    | Heard(task: nat)
    | Close
    | Fail
    | TransportError

  ghost function Step(max: nat, w: Writer, e: Event): (w': Writer)
    requires InRange(w)
    ensures InRange(w')
  {
    match e
    case Write(signal) => Arrive(max, w, signal)
    case HandOn(t, fault, throws) =>
      if t < |w.tasks| && w.tasks[t].stage.Admitted? then Submit(max, w, t, fault, throws) else w
    case Written(throws) => Complete(w, throws)
    case Resume(t) =>
      if t < |w.tasks| && w.tasks[t].stage.Submitted? && w.tasks[t].jobSettled then Leave(max, w, t) else w
    case Abort(source) => w.(aborted := w.aborted + {source})
    case Heard(t) => if t < |w.tasks| then Notice(w, t) else w
    case Close => CloseWriter(CloseServer(w))
    case Fail => FailWriter(CloseServer(w))
    case TransportError => FailWriter(w)
  }

  ghost function RunFrom(max: nat, w: Writer, es: seq<Event>): (w': Writer)
    requires InRange(w)
    ensures InRange(w')
    decreases |es|
  {
    if es == [] then w else RunFrom(max, Step(max, w, es[0]), es[1..])
  }

  ghost function Run(max: nat, es: seq<Event>): (w: Writer)
    ensures InRange(w)
  {
    RunFrom(max, OPENING, es)
  }

  // ---- The invariant ---------------------------------------------------------------------

  predicate Holds(x: Task) {
    x.stage.Admitted? || x.stage.Submitted?
  }

  ghost function Holders(ts: seq<Task>): set<nat> {
    set t | 0 <= t < |ts| && Holds(ts[t])
  }

  predicate TaskWell(x: Task) {
    && x.waiterAnswers == (if x.waiterSettled then 1 else 0)
    && x.jobAnswers == (if x.jobSettled then 1 else 0)
    && (x.waiterSettled <==> !x.stage.Waiting?)
    && (x.jobSettled ==> x.stage.Submitted? || x.stage.Finished?)
  }

  ghost predicate Distinct(ts: seq<nat>) {
    forall i, j :: 0 <= i < j < |ts| ==> ts[i] != ts[j]
  }

  /** Everything that also holds in the middle of a turn. */
  ghost predicate Core(max: nat, w: Writer) {
    && InRange(w)
    && (forall t :: 0 <= t < |w.tasks| ==> TaskWell(w.tasks[t]))
    && Distinct(w.waiters) && (forall t :: 0 <= t < |w.tasks| ==> (w.tasks[t].stage.Waiting? <==> t in w.waiters))
    && Distinct(w.queue)
    && (forall t :: 0 <= t < |w.tasks| && t in w.queue ==> w.tasks[t].stage.Submitted? && !w.tasks[t].jobSettled)
    && (w.active.Some? ==> w.tasks[w.active.value].stage.Submitted? || w.tasks[w.active.value].jobSettled)
    && (w.active.Some? && !w.closed ==>
          w.tasks[w.active.value].stage.Submitted? && !w.tasks[w.active.value].jobSettled && w.active.value !in w.queue)
    && (w.closed ==> w.queue == []) && (w.serverClosed ==> w.waiters == [])
    && w.admitted == |Holders(w.tasks)| <= max
  }

  /** Between turns no admission and no write is left idle while something waits for it. */
  ghost predicate Busy(max: nat, w: Writer) {
    && (w.waiters != [] ==> w.admitted >= max)
    && (w.queue != [] ==> w.active.Some?)
  }

  ghost predicate Inv(max: nat, w: Writer) {
    InRange(w) && Core(max, w) && Busy(max, w)
  }

  // ---- Every step keeps the invariant ----------------------------------------------------

  lemma HoldersUpdate(ts: seq<Task>, t: nat, x: Task)
    requires t < |ts|
    ensures Holders(ts[t := x]) == if Holds(x) then Holders(ts) + {t} else Holders(ts) - {t}
  {
  }

  lemma HoldersAppend(ts: seq<Task>, x: Task)
    ensures Holders(ts + [x]) == if Holds(x) then Holders(ts) + {|ts|} else Holders(ts)
    ensures |ts| !in Holders(ts)
  {
  }

  lemma SettleJobKeeps(max: nat, w: Writer, t: nat)
    requires Core(max, w) && t < |w.tasks| && t !in w.queue && (w.closed || w.active != Some(t))
    requires w.tasks[t].stage.Submitted? || w.tasks[t].jobSettled
    ensures Core(max, SettleJob(w, t))
  {
    HoldersUpdate(w.tasks, t, SettleJob(w, t).tasks[t]);
    assert w.tasks[t].stage.Submitted? ==> Holders(w.tasks) + {t} == Holders(w.tasks);
    hide Holders;
  }

  lemma {:induction false} SettleJobsKeep(max: nat, w: Writer, ts: seq<nat>)
    requires Core(max, w) && w.closed
    requires forall i :: 0 <= i < |ts| ==>
        ts[i] < |w.tasks| && (w.tasks[ts[i]].stage.Submitted? || w.tasks[ts[i]].jobSettled)
    ensures var w' := SettleJobs(w, ts);
      && Core(max, w') && w' == w.(tasks := w'.tasks)
      && (forall t :: 0 <= t < |w.tasks| ==>
            || w'.tasks[t] == w.tasks[t]
            || (t in ts && w'.tasks[t] == w.tasks[t].(jobSettled := true, jobAnswers := w'.tasks[t].jobAnswers)))
    decreases |ts|
  {
    hide Core;
    if ts != [] {
      QueueEmpty(max, w);
      SettleJobKeeps(max, w, ts[0]);
      SettleJobsKeep(max, SettleJob(w, ts[0]), ts[1..]);
    }
  }

  lemma QueueEmpty(max: nat, w: Writer)
    requires Core(max, w) && w.closed
    ensures w.queue == []
  {
  }

  lemma ShutKeeps(max: nat, w: Writer)
    requires Core(max, w)
    ensures Core(max, w.(closed := true, queue := []))
    ensures forall i :: 0 <= i < |w.queue| ==> w.tasks[w.queue[i]].stage.Submitted?
    ensures w.active.Some? ==> w.tasks[w.active.value].stage.Submitted? || w.tasks[w.active.value].jobSettled
  {
    hide Holders;
  }

  lemma FailWriterKeeps(max: nat, w: Writer)
    requires Core(max, w)
    ensures var w' := FailWriter(w);
      && Core(max, w') && w'.closed && w'.queue == []
      && w' == w.(closed := true, queue := [], tasks := w'.tasks)
  {
    ShutKeeps(max, w);
    var shut := w.(closed := true, queue := []);
    hide Core;
    SettleJobsKeep(max, shut, w.queue);
    if w.active.Some? { SettleJobKeeps(max, SettleJobs(shut, w.queue), w.active.value); }
  }

  lemma CloseWriterKeeps(max: nat, w: Writer)
    requires Core(max, w)
    ensures var w' := CloseWriter(w);
      && Core(max, w') && w'.closed && w'.queue == []
      && w' == w.(closed := true, queue := [], tasks := w'.tasks)
  {
    ShutKeeps(max, w);
    if w.closed { QueueEmpty(max, w); }
    hide Core;
    if !w.closed { SettleJobsKeep(max, w.(closed := true, queue := []), w.queue); }
  }

  /** Taking the first job off the queue, to settle it or to start it. */
  lemma TakeJobKeeps(max: nat, w: Writer)
    requires Core(max, w) && w.queue != [] && w.active.None?
    ensures var t := w.queue[0]; var taken := w.(queue := w.queue[1..]);
      && t < |w.tasks| && w.tasks[t].stage.Submitted? && t !in taken.queue
      && Core(max, taken) && Core(max, taken.(active := Some(t)))
  {
    hide Holders;
    var t := w.queue[0];
    assert t in w.queue;
    assert forall u :: u in w.queue[1..] ==> u in w.queue;
    assert t !in w.queue[1..];
  }

  lemma StartFirstKeeps(max: nat, w: Writer, throws: bool)
    requires Core(max, w) && w.queue != [] && w.active.None?
    ensures var w' := StartFirst(w, throws); Core(max, w') && w'.waiters == w.waiters && w'.admitted == w.admitted
  {
    TakeJobKeeps(max, w);
    hide Core;
    var t := w.queue[0];
    var taken := w.(queue := w.queue[1..]);
    if Aborted(w, t) { SettleJobKeeps(max, taken, t); }
    else if throws { FailWriterKeeps(max, taken); }
  }

  lemma {:induction false} PumpKeeps(max: nat, w: Writer, throws: bool)
    requires Core(max, w)
    ensures var w' := Pump(w, throws);
      Core(max, w') && (w'.queue != [] ==> w'.active.Some?) && w'.waiters == w.waiters && w'.admitted == w.admitted
    decreases |w.queue|
  {
    if w.closed { QueueEmpty(max, w); }
    if w.active.None? && !w.closed && w.queue != [] {
      StartFirstKeeps(max, w, throws);
      hide Core, StartFirst;
      PumpKeeps(max, StartFirst(w, throws), throws);
    }
  }

  lemma RefuseKeeps(max: nat, w: Writer, t: nat, waiters: seq<nat>)
    requires Core(max, w) && t < |w.tasks| && t in w.waiters
    requires InRange(w.(waiters := waiters)) && Distinct(waiters)
    requires forall u :: u in waiters <==> u in w.waiters && u != t
    ensures Core(max, Refuse(w.(waiters := waiters), t))
  {
    HoldersUpdate(w.tasks, t, w.tasks[t].(waiterSettled := true, waiterAnswers := 1, stage := Finished));
    assert Holders(w.tasks) - {t} == Holders(w.tasks);
    hide Holders;
  }

  lemma GrantKeeps(max: nat, w: Writer, t: nat, waiters: seq<nat>)
    requires Core(max, w) && t < |w.tasks| && t in w.waiters && w.admitted < max
    requires InRange(w.(waiters := waiters)) && Distinct(waiters)
    requires forall u :: u in waiters <==> u in w.waiters && u != t
    ensures Core(max, Grant(w.(waiters := waiters), t))
  {
    HoldersUpdate(w.tasks, t, w.tasks[t].(waiterSettled := true, waiterAnswers := 1, stage := Admitted));
    assert t !in Holders(w.tasks);
    hide Holders;
  }

  lemma AdmitFirstKeeps(max: nat, w: Writer)
    requires Core(max, w) && w.waiters != [] && w.admitted < max
    ensures var w' := AdmitFirst(w);
      Core(max, w') && w'.queue == w.queue && w'.active == w.active && w'.closed == w.closed
  {
    var t, rest := w.waiters[0], w.waiters[1..];
    FirstWaiter(max, w);
    if Aborted(w, t) { RefuseKeeps(max, w, t, rest); } else { GrantKeeps(max, w, t, rest); }
    hide Core;
  }

  lemma {:induction false} DrainKeeps(max: nat, w: Writer)
    requires Core(max, w)
    ensures var w' := Drain(max, w);
      Core(max, w') && (w'.waiters != [] ==> w'.admitted >= max) && w'.queue == w.queue && w'.active == w.active
    decreases |w.waiters|
  {
    if !w.serverClosed && w.admitted < max && w.waiters != [] {
      AdmitFirstKeeps(max, w);
      hide Core, AdmitFirst;
      DrainKeeps(max, AdmitFirst(w));
    } else {
      ClosedNoWaiters(max, w);
    }
  }

  lemma ClosedNoWaiters(max: nat, w: Writer)
    requires Core(max, w)
    ensures w.serverClosed ==> w.waiters == []
  {
  }

  lemma {:induction false} WithoutMeans(ts: seq<nat>, t: nat)
    requires Distinct(ts)
    ensures Distinct(Without(ts, t)) && forall u :: u in Without(ts, t) <==> u in ts && u != t
  {
    if ts != [] {
      var first, rest, shorter := ts[0], ts[1..], Without(ts[1..], t);
      assert ts == [first] + rest && first !in rest;
      if first != t {
        WithoutMeans(rest, t);
        assert Without(ts, t) == [first] + shorter && first !in shorter;
        DistinctPrepend(first, shorter);
      }
      hide Without;
    }
  }

  lemma DistinctPrepend(t: nat, ts: seq<nat>)
    requires Distinct(ts) && t !in ts
    ensures Distinct([t] + ts)
  {
  }

  /** The waiters are refused one by one after the list was emptied. */
  lemma {:induction false} RefuseAllKeeps(max: nat, w: Writer)
    requires Core(max, w)
    ensures var w' := RefuseAll(w.(waiters := []), w.waiters);
      Core(max, w') && w' == w.(waiters := [], tasks := w'.tasks)
    decreases |w.waiters|
  {
    if w.waiters != [] {
      var t, rest := w.waiters[0], w.waiters[1..];
      FirstWaiter(max, w);
      RefuseKeeps(max, w, t, rest);
      hide Core, RefuseAll;
      RefuseAllKeeps(max, Refuse(w.(waiters := rest), t));
      RefuseAllUnfold(w.(waiters := []), w.waiters);
      assert Refuse(w.(waiters := []), t) == Refuse(w.(waiters := rest), t).(waiters := []);
    }
  }

  lemma RefuseAllUnfold(w: Writer, ts: seq<nat>)
    requires InRange(w) && ts != [] && forall i :: 0 <= i < |ts| ==> ts[i] < |w.tasks|
    ensures RefuseAll(w, ts) == RefuseAll(Refuse(w, ts[0]), ts[1..])
  {
  }

  lemma FirstWaiter(max: nat, w: Writer)
    requires Core(max, w) && w.waiters != []
    ensures var t, rest := w.waiters[0], w.waiters[1..];
      && t < |w.tasks| && t in w.waiters && TaskWell(w.tasks[t]) && !w.tasks[t].waiterSettled
      && InRange(w.(waiters := rest)) && Distinct(rest) && forall u :: u in rest <==> u in w.waiters && u != t
  {
    assert w.waiters == [w.waiters[0]] + w.waiters[1..];
    assert TaskWell(w.tasks[w.waiters[0]]);
  }

  lemma CloseServerKeeps(max: nat, w: Writer)
    requires Core(max, w)
    ensures var w' := CloseServer(w);
      && Core(max, w') && w'.waiters == []
      && w'.queue == w.queue && w'.active == w.active && w'.closed == w.closed
  {
    if !w.serverClosed {
      RefuseAllKeeps(max, w);
      RefuseAllMarked(w, w.waiters);
      hide Holders;
      var w' := RefuseAll(w.(waiters := []), w.waiters);
      assert CloseServer(w) == w'.(serverClosed := true);
    }
  }

  /** Marking the writer closed before or after the waiters are refused is the same. */
  lemma {:induction false} RefuseAllMarked(w: Writer, ts: seq<nat>)
    requires InRange(w) && forall i :: 0 <= i < |ts| ==> ts[i] < |w.tasks|
    ensures RefuseAll(w.(serverClosed := true, waiters := []), ts) ==
        RefuseAll(w.(waiters := []), ts).(serverClosed := true)
    decreases |ts|
  {
    if ts != [] { RefuseAllMarked(Refuse(w, ts[0]), ts[1..]); }
  }

  /** A task that holds an admission but is not queued leaves room in the queue. */
  lemma RoomForHolder(max: nat, w: Writer, t: nat)
    requires Core(max, w) && !w.closed && t < |w.tasks| && w.tasks[t].stage.Admitted?
    ensures Load(w) < w.admitted
  {
    var jobs := w.queue + (if w.active.Some? then [w.active.value] else []) + [t];
    assert t !in w.queue;
    assert Distinct(jobs);
    DistinctSize(jobs);
    forall u | u in Members(jobs) ensures u in Holders(w.tasks) { }
    SubsetSize(Members(jobs), Holders(w.tasks));
  }

  lemma SubsetSize(a: set<nat>, b: set<nat>)
    requires a <= b
    ensures |a| <= |b|
  {
    assert b == a + (b - a);
  }

  ghost function Members(ts: seq<nat>): set<nat> {
    set u | u in ts
  }

  lemma {:induction false} DistinctSize(ts: seq<nat>)
    requires Distinct(ts)
    ensures |Members(ts)| == |ts|
  {
    if ts != [] {
      var rest := ts[1..];
      DistinctSize(rest);
      assert ts == [ts[0]] + rest && ts[0] !in rest;
      assert Members(ts) == {ts[0]} + Members(rest);
    }
  }

  lemma MoveToSubmitted(max: nat, w: Writer, t: nat)
    requires Core(max, w) && t < |w.tasks| && w.tasks[t].stage.Admitted?
    ensures var moved := w.(tasks := w.tasks[t := w.tasks[t].(stage := Submitted)]);
      && Core(max, moved) && t !in w.queue && w.active != Some(t)
      && (!w.closed ==> Core(max, moved.(queue := w.queue + [t])))
  {
    HoldersUpdate(w.tasks, t, w.tasks[t].(stage := Submitted));
    assert Holders(w.tasks) + {t} == Holders(w.tasks);
    assert TaskWell(w.tasks[t]);
    hide Holders;
  }

  lemma SubmitKeeps(max: nat, w: Writer, t: nat, fault: Option<ErrorCode>, throws: bool)
    requires Inv(max, w) && t < |w.tasks| && w.tasks[t].stage.Admitted?
    ensures Inv(max, Submit(max, w, t, fault, throws))
  {
    MoveToSubmitted(max, w, t);
    hide Core;
    var moved := w.(tasks := w.tasks[t := w.tasks[t].(stage := Submitted)]);
    if Admission(max, w, t, fault).Rejected? {
      SettleJobKeeps(max, moved, t);
    } else {
      PumpKeeps(max, moved.(queue := w.queue + [t]), throws);
    }
  }

  lemma CompleteKeeps(max: nat, w: Writer, throws: bool)
    requires Inv(max, w)
    ensures Inv(max, Complete(w, throws))
  {
    if w.active.Some? {
      var t := w.active.value;
      assert Core(max, w.(active := None)) && t !in w.queue;
      hide Core;
      SettleJobKeeps(max, w.(active := None), t);
      PumpKeeps(max, SettleJob(w.(active := None), t), throws);
    }
  }

  lemma LeaveKeeps(max: nat, w: Writer, t: nat)
    requires Inv(max, w) && t < |w.tasks| && w.tasks[t].stage.Submitted? && w.tasks[t].jobSettled
    ensures Inv(max, Leave(max, w, t))
  {
    LeftKeeps(max, w, t);
    hide Core;
    DrainKeeps(max, w.(tasks := w.tasks[t := w.tasks[t].(stage := Finished)], admitted := w.admitted - 1));
  }

  lemma LeftKeeps(max: nat, w: Writer, t: nat)
    requires Core(max, w) && t < |w.tasks| && w.tasks[t].stage.Submitted? && w.tasks[t].jobSettled
    ensures Core(max, w.(tasks := w.tasks[t := w.tasks[t].(stage := Finished)], admitted := w.admitted - 1))
  {
    HoldersUpdate(w.tasks, t, w.tasks[t].(stage := Finished));
    HolderIn(w.tasks, t);
    hide Holders;
    assert TaskWell(w.tasks[t]);
  }

  lemma HolderIn(ts: seq<Task>, t: nat)
    requires t < |ts|
    ensures t in Holders(ts) <==> Holds(ts[t])
  {
  }

  lemma ArriveKeeps(max: nat, w: Writer, signal: Option<nat>)
    requires Inv(max, w)
    ensures Inv(max, Arrive(max, w, signal))
  {
    hide Core;
    var x := Arrive(max, w, signal).tasks[|w.tasks|];
    if x.stage.Waiting? { WaitKeeps(max, w, x); } else { AppendKeeps(max, w, x); }
  }

  lemma AppendKeeps(max: nat, w: Writer, x: Task)
    requires Core(max, w) && TaskWell(x) && !x.stage.Waiting? && !x.stage.Submitted? && !x.jobSettled
    requires Holds(x) ==> w.admitted < max
    ensures Core(max, w.(tasks := w.tasks + [x], admitted := if Holds(x) then w.admitted + 1 else w.admitted))
  {
    HoldersAppend(w.tasks, x);
    hide Holders;
  }

  lemma WaitKeeps(max: nat, w: Writer, x: Task)
    requires Core(max, w) && !w.serverClosed && TaskWell(x) && x.stage.Waiting?
    ensures Core(max, w.(tasks := w.tasks + [x], waiters := w.waiters + [|w.tasks|]))
  {
    HoldersAppend(w.tasks, x);
    hide Holders;
    assert |w.tasks| !in w.waiters && |w.tasks| !in w.queue;
  }

  lemma NoticeKeeps(max: nat, w: Writer, t: nat)
    requires Inv(max, w) && t < |w.tasks|
    ensures Inv(max, Notice(w, t))
  {
    if Aborted(w, t) && w.tasks[t].stage.Waiting? {
      assert TaskWell(w.tasks[t]) && t in w.waiters;
      WithoutMeans(w.waiters, t);
      RefuseKeeps(max, w, t, Without(w.waiters, t));
      hide Core;
    } else if Aborted(w, t) && w.tasks[t].stage.Submitted? && !w.tasks[t].jobSettled {
      if w.active == Some(t) {
        CloseServerKeeps(max, w);
        FailWriterKeeps(max, CloseServer(w));
        hide Core;
      } else {
        WithoutMeans(w.queue, t);
        var shorter := w.(queue := Without(w.queue, t));
        assert Core(max, shorter) by { hide Holders; }
        hide Core;
        SettleJobKeeps(max, shorter, t);
      }
    }
  }

  lemma StepKeepsInv(max: nat, w: Writer, e: Event)
    requires Inv(max, w)
    ensures Inv(max, Step(max, w, e))
  {
    match e
    case Write(signal) => ArriveKeeps(max, w, signal);
    case HandOn(t, fault, throws) =>
      if t < |w.tasks| && w.tasks[t].stage.Admitted? { SubmitKeeps(max, w, t, fault, throws); }
    case Written(throws) => CompleteKeeps(max, w, throws);
    case Resume(t) =>
      if t < |w.tasks| && w.tasks[t].stage.Submitted? && w.tasks[t].jobSettled { LeaveKeeps(max, w, t); }
    case Abort(_) =>
    case Heard(t) => if t < |w.tasks| { NoticeKeeps(max, w, t); }
    case Close => CloseServerKeeps(max, w); CloseWriterKeeps(max, CloseServer(w));
    case Fail => CloseServerKeeps(max, w); FailWriterKeeps(max, CloseServer(w));
    case TransportError => FailWriterKeeps(max, w);
  }

  lemma {:induction false} RunsKeepInv(max: nat, w: Writer, es: seq<Event>)
    requires Inv(max, w)
    ensures Inv(max, RunFrom(max, w, es))
    decreases |es|
  {
    hide Core, Step;
    if es != [] {
      StepKeepsInv(max, w, es[0]);
      RunsKeepInv(max, Step(max, w, es[0]), es[1..]);
    }
  }

  lemma RunInvariant(max: nat, es: seq<Event>)
    ensures Inv(max, Run(max, es))
  {
    assert Holders([]) == {};
    RunsKeepInv(max, OPENING, es);
  }

  // ---- Results about every run -----------------------------------------------------------

  /** While the inner writer is open its jobs all hold admissions, of which there are at most the limit. */
  lemma LoadWithinAdmissions(max: nat, es: seq<Event>)
    ensures var w := Run(max, es);
      && w.admitted == |Holders(w.tasks)| && 0 <= w.admitted <= max
      && (!w.closed ==> Load(w) <= w.admitted)
  {
    RunInvariant(max, es);
    hide Run;
    var w := Run(max, es);
    if !w.closed {
      var jobs := w.queue + (if w.active.Some? then [w.active.value] else []);
      assert Distinct(jobs);
      DistinctSize(jobs);
      forall u | u in Members(jobs) ensures u in Holders(w.tasks) { }
      SubsetSize(Members(jobs), Holders(w.tasks));
    }
  }

  /** The inner writer never refuses an admitted frame for want of room. */
  lemma NeverExhausted(max: nat, es: seq<Event>, t: nat, fault: Option<ErrorCode>)
    requires t < |Run(max, es).tasks| && Run(max, es).tasks[t].stage.Admitted? && fault != Some(ResourceExhausted)
    ensures Admission(max, Run(max, es), t, fault) != Rejected(ResourceExhausted)
  {
    RunInvariant(max, es);
    hide Run;
    if !Run(max, es).closed { RoomForHolder(max, Run(max, es), t); }
  }

  /** Neither promise of a task is ever answered twice. */
  lemma SettledAtMostOnce(max: nat, es: seq<Event>, t: nat)
    requires t < |Run(max, es).tasks|
    ensures Run(max, es).tasks[t].waiterAnswers <= 1 && Run(max, es).tasks[t].jobAnswers <= 1
  {
    RunInvariant(max, es);
    assert TaskWell(Run(max, es).tasks[t]);
  }

  /** No waiter is forgotten, none waits while an admission is free, and no job waits while the stream is idle. */
  lemma NothingWaitsIdly(max: nat, es: seq<Event>, t: nat)
    requires t < |Run(max, es).tasks|
    ensures var w := Run(max, es);
      && (w.tasks[t].stage.Waiting? <==> t in w.waiters)
      && (w.tasks[t].stage.Waiting? ==> w.admitted == max && !w.serverClosed)
      && (t in w.queue ==> w.active.Some? && !w.closed)
  {
    RunInvariant(max, es);
    hide Run;
  }

  // ---- The writers, updated in place -----------------------------------------------------

  /** Both layers; the outer one owns the inner one, so they share an object here. */
  class ServerFrameWriter {
    const maximum: nat
    var tasks: seq<Task>
    var waiters: seq<nat>
    var admitted: int
    var serverClosed: bool
    var queue: seq<nat>
    var active: Option<nat>
    var closed: bool
    var aborted: set<nat>   // signals that have fired

    constructor (maximum: nat)
      ensures this.maximum == maximum && Now() == OPENING && Valid()
    {
      this.maximum := maximum;
      tasks, waiters, admitted, serverClosed, queue, active, closed, aborted := [], [], 0, false, [], None, false, {};
      assert Holders([]) == {};
    }

    function Now(): Writer reads this {
      Writer(tasks, waiters, admitted, serverClosed, queue, active, closed, aborted)
    }

    /** What also holds in the middle of a turn. */
    ghost predicate Ranged() reads this {
      InRange(Now())
    }

    ghost predicate Valid() reads this {
      Inv(maximum, Now())
    }

    method Settle(t: nat)
      requires Ranged() && t < |tasks|
      modifies this`tasks
      ensures Ranged() && Now() == SettleJob(old(Now()), t)
    {
      if tasks[t].jobSettled { return; }
      tasks := tasks[t := tasks[t].(jobSettled := true, jobAnswers := tasks[t].jobAnswers + 1)];
    }

    method SettleQueue()
      requires Ranged()
      modifies this`tasks, this`queue, this`closed
      ensures Ranged() && Now() == SettleJobs(old(Now()).(closed := true, queue := []), old(queue))
    {
      var jobs: seq<nat> := queue;
      queue := [];
      closed := true;
      ghost var target := SettleJobs(Now(), jobs);
      while jobs != []
        invariant Ranged() && forall i :: 0 <= i < |jobs| ==> jobs[i] < |tasks|
        invariant SettleJobs(Now(), jobs) == target
        decreases |jobs|
      {
        Settle(jobs[0]);
        jobs := jobs[1..];
      }
    }

    method FailInner()
      requires Ranged()
      modifies this`tasks, this`queue, this`closed
      ensures Ranged() && Now() == FailWriter(old(Now()))
    {
      SettleQueue();
      if active.Some? { Settle(active.value); }
    }

    method StartNext(throws: bool)
      requires Ranged() && queue != []
      modifies this`tasks, this`queue, this`closed, this`active
      ensures Ranged() && Now() == StartFirst(old(Now()), throws)
    {
      hide SettleJobs;
      var t := queue[0];
      queue := queue[1..];
      if Aborted(Now(), t) {
        Settle(t);
      } else if throws {
        FailInner();
      } else {
        active := Some(t);
      }
    }

    method PumpQueue(throws: bool)
      requires Ranged()
      modifies this`tasks, this`queue, this`closed, this`active
      ensures Ranged() && Now() == Pump(old(Now()), throws)
    {
      hide StartFirst;
      ghost var target := Pump(Now(), throws);
      while active.None? && !closed && queue != []
        invariant Ranged() && Pump(Now(), throws) == target
        decreases |queue|
      {
        StartNext(throws);
      }
    }

    /** The inner `write`, called by an admitted task. */
    method WriteFrame(t: nat, fault: Option<ErrorCode>, throws: bool) returns (r: Submission)
      requires Valid() && t < |tasks| && tasks[t].stage.Admitted?
      modifies this`tasks, this`queue, this`closed, this`active
      ensures Valid() && Now() == Submit(maximum, old(Now()), t, fault, throws)
      ensures r == Admission(maximum, old(Now()), t, fault)
    {
      SubmitKeeps(maximum, Now(), t, fault, throws);
      hide Inv;
      hide Pump;
      if closed {
        r := Rejected(Unavailable);
      } else if Aborted(Now(), t) {
        r := Rejected(Cancelled);
      } else if fault.Some? {
        r := Rejected(fault.value);
      } else if |queue| + (if active.Some? then 1 else 0) >= maximum {
        r := Rejected(ResourceExhausted);
      } else {
        r := Accepted;
      }
      tasks := tasks[t := tasks[t].(stage := Submitted)];
      if r.Rejected? {
        Settle(t);
      } else {
        queue := queue + [t];
        PumpQueue(throws);
      }
    }

    /** The stream's callback. */
    method Callback(throws: bool)
      requires Valid()
      modifies this`tasks, this`queue, this`closed, this`active
      ensures Valid() && Now() == Complete(old(Now()), throws)
    {
      CompleteKeeps(maximum, Now(), throws);
      hide Inv;
      hide Pump;
      if active.None? { return; }
      var t := active.value;
      active := None;
      Settle(t);
      PumpQueue(throws);
    }

    method Acquire(signal: Option<nat>) returns (t: nat)
      requires Valid()
      modifies this`tasks, this`admitted, this`waiters
      ensures Valid() && t == |old(tasks)| && Now() == Arrive(maximum, old(Now()), signal)
    {
      ArriveKeeps(maximum, Now(), signal);
      hide Inv;
      t := |tasks|;
      if serverClosed || (signal.Some? && signal.value in aborted) {
        tasks := tasks + [Task(signal, Finished, true, 1, false, 0)];
      } else if admitted < maximum {
        admitted := admitted + 1;
        tasks := tasks + [Task(signal, Admitted, true, 1, false, 0)];
      } else {
        waiters := waiters + [t];
        tasks := tasks + [Task(signal, Waiting, false, 0, false, 0)];
      }
    }

    method AdmitNext()
      requires Ranged() && waiters != []
      modifies this`tasks, this`waiters, this`admitted
      ensures Ranged() && Now() == AdmitFirst(old(Now()))
    {
      var t := waiters[0];
      var x := tasks[t];
      waiters := waiters[1..];
      if x.waiterSettled { return; }
      if Aborted(Now(), t) {
        tasks := tasks[t := x.(waiterSettled := true, waiterAnswers := x.waiterAnswers + 1, stage := Finished)];
      } else {
        tasks := tasks[t := x.(waiterSettled := true, waiterAnswers := x.waiterAnswers + 1, stage := Admitted)];
        admitted := admitted + 1;
      }
    }

    /** Hands free admissions to waiters in the order they came. */
    method DrainWaiters()
      requires Ranged()
      modifies this`tasks, this`waiters, this`admitted
      ensures Ranged() && Now() == Drain(maximum, old(Now()))
    {
      hide AdmitFirst;
      ghost var target := Drain(maximum, Now());
      while !serverClosed && admitted < maximum && waiters != []
        invariant Ranged() && Drain(maximum, Now()) == target
        decreases |waiters|
      {
        AdmitNext();
      }
    }

    method Release(t: nat)
      requires Valid() && t < |tasks| && tasks[t].stage.Submitted? && tasks[t].jobSettled
      modifies this`tasks, this`waiters, this`admitted
      ensures Valid() && Now() == Leave(maximum, old(Now()), t)
    {
      LeaveKeeps(maximum, Now(), t);
      hide Inv;
      hide Drain;
      tasks := tasks[t := tasks[t].(stage := Finished)];
      admitted := admitted - 1;
      DrainWaiters();
    }

    method CloseOuter()
      requires Ranged()
      modifies this`tasks, this`waiters, this`serverClosed
      ensures Ranged() && Now() == CloseServer(old(Now()))
    {
      if serverClosed { return; }
      serverClosed := true;
      var refused: seq<nat> := waiters;
      waiters := [];
      ghost var target := RefuseAll(Now(), refused);
      while refused != []
        invariant Ranged() && forall i :: 0 <= i < |refused| ==> refused[i] < |tasks|
        invariant RefuseAll(Now(), refused) == target
        decreases |refused|
      {
        RefuseWaiter(refused[0]);
        refused := refused[1..];
      }
    }

    method RefuseWaiter(t: nat)
      requires Ranged() && t < |tasks|
      modifies this`tasks
      ensures Ranged() && Now() == Refuse(old(Now()), t)
    {
      if tasks[t].waiterSettled { return; }
      var x := tasks[t];
      tasks := tasks[t := x.(waiterSettled := true, waiterAnswers := x.waiterAnswers + 1, stage := Finished)];
    }

    method Close()
      requires Valid()
      modifies this
      ensures Valid() && Now() == CloseWriter(CloseServer(old(Now())))
    {
      StepKeepsInv(maximum, Now(), Event.Close);
      hide Inv;
      CloseOuter();
      if !closed { SettleQueue(); }
    }

    method Fail()
      requires Valid()
      modifies this
      ensures Valid() && Now() == FailWriter(CloseServer(old(Now())))
    {
      StepKeepsInv(maximum, Now(), Event.Fail);
      hide Inv;
      CloseOuter();
      FailInner();
    }

    /** The stream reports an error of its own. */
    method TransportFails()
      requires Valid()
      modifies this
      ensures Valid() && Now() == FailWriter(old(Now()))
    {
      StepKeepsInv(maximum, Now(), TransportError);
      hide Inv;
      FailInner();
    }

    /** The abort listener of task t. */
    method HearAbort(t: nat)
      requires Valid() && t < |tasks|
      modifies this
      ensures Valid() && Now() == Notice(old(Now()), t)
    {
      NoticeKeeps(maximum, Now(), t);
      hide Inv, SettleJobs, RefuseAll;
      if !Aborted(Now(), t) { return; }
      if tasks[t].stage.Waiting? {
        if !tasks[t].waiterSettled {
          waiters := Without(waiters, t);
          RefuseWaiter(t);
        }
      } else if tasks[t].stage.Submitted? && !tasks[t].jobSettled {
        if active == Some(t) {
          CloseOuter();
          FailInner();
        } else {
          queue := Without(queue, t);
          Settle(t);
        }
      }
    }
  }
}
