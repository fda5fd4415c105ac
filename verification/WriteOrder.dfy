/**
 The order in which frames are written and admissions are granted.  The histories
 are read off a run: the tasks whose frames the inner writer accepted, and the
 tasks whose frames it handed to the stream.
 */
module WriteOrder {
  import opened Base
  import opened FrameWriters
  import opened LostWrites

  /** The task whose frame the inner writer accepts in this event. */
  function AcceptedIn(max: nat, w: Writer, e: Event): seq<nat> {
    if e.HandOn? && e.task < |w.tasks| && w.tasks[e.task].stage.Admitted?
        && Admission(max, w, e.task, e.fault).Accepted?
    then [e.task] else []
  }

  /** The task whose frame becomes the active write in this event. */
  ghost function StartedIn(max: nat, w: Writer, e: Event): seq<nat>
    requires InRange(w)
  {
    var after := Step(max, w, e).active;
    if after.Some? && after != w.active then [after.value] else []
  }

  ghost function Accepted(max: nat, es: seq<Event>): seq<nat> {
    if es == [] then []
    else
      var n := |es| - 1;
      Accepted(max, es[..n]) + AcceptedIn(max, Run(max, es[..n]), es[n])
  }

  ghost function Started(max: nat, es: seq<Event>): seq<nat> {
    if es == [] then []
    else
      var n := |es| - 1;
      Started(max, es[..n]) + StartedIn(max, Run(max, es[..n]), es[n])
  }

  // ---- Order -----------------------------------------------------------------------------

  /** a comes before b in s. */
  ghost predicate Before(s: seq<nat>, a: nat, b: nat) {
    exists i, j :: 0 <= i < j < |s| && s[i] == a && s[j] == b
  }

  /** The entries of xs are entries of s, in the order they have there; with s free of repeats, a subsequence of it. */
  ghost predicate InOrderOf(xs: seq<nat>, s: seq<nat>) {
    && (forall i :: 0 <= i < |xs| ==> xs[i] in s)
    && (forall i, j :: 0 <= i < j < |xs| ==> Before(s, xs[i], xs[j]))
  }

  /** The invariant, given the two histories: what was started and what is queued, together, follow acceptance. */
  ghost predicate Ordered(w: Writer, accepted: seq<nat>, started: seq<nat>) {
    && Distinct(accepted)
    && (forall t :: t in accepted ==> t < |w.tasks| && (w.tasks[t].stage.Submitted? || w.tasks[t].stage.Finished?))
    && InOrderOf(started + w.queue, accepted)
    && (!w.closed ==> forall t :: t in accepted ==> t in started || t in w.queue || Skipped(w, t))
    && (forall a, b :: Before(accepted, a, b) && b in started ==> a in started || Skipped(w, a))
  }

  /** Its signal fired, so it was passed over. */
  predicate Skipped(w: Writer, t: nat) {
    t < |w.tasks| && Aborted(w, t)
  }

  lemma BeforeExtends(s: seq<nat>, x: nat, a: nat, b: nat)
    ensures Before(s, a, b) ==> Before(s + [x], a, b)
    ensures a in s ==> Before(s + [x], a, x)
    ensures x !in s && Before(s + [x], a, b) ==> Before(s, a, b) || (b == x && a in s)
  {
    var longer := s + [x];
    if Before(s, a, b) {
      var i, j :| 0 <= i < j < |s| && s[i] == a && s[j] == b;
      assert longer[i] == a && longer[j] == b;
    }
    if a in s {
      var i :| 0 <= i < |s| && s[i] == a;
      assert longer[i] == a && longer[|s|] == x;
    }
    if x !in s && Before(longer, a, b) {
      var i, j :| 0 <= i < j < |longer| && longer[i] == a && longer[j] == b;
      if j < |s| { assert s[i] == a && s[j] == b; } else { assert s[i] == a; }
    }
  }

  lemma OneWay(s: seq<nat>, a: nat, b: nat)
    requires Distinct(s) && Before(s, a, b)
    ensures !Before(s, b, a) && a != b
  {
    var i, j :| 0 <= i < j < |s| && s[i] == a && s[j] == b;
  }

  /** Dropping entries of the queue keeps the order of the rest. */
  lemma QueueShrinks(started: seq<nat>, q: seq<nat>, q': seq<nat>, accepted: seq<nat>)
    requires InOrderOf(started + q, accepted) && InOrderOf(q', q)
    ensures InOrderOf(started + q', accepted)
  {
    var xs, ys, n := started + q, started + q', |started|;
    forall i | 0 <= i < |ys| ensures ys[i] in accepted {
      if i < n { assert ys[i] == xs[i]; } else { InBoth(started, q, q'[i - n]); }
    }
    forall i, j | 0 <= i < j < |ys| ensures Before(accepted, ys[i], ys[j]) {
      if j < n {
        assert ys[i] == xs[i] && ys[j] == xs[j];
      } else if i < n {
        var m :| 0 <= m < |q| && q[m] == q'[j - n];
        assert xs[i] == ys[i] && xs[n + m] == ys[j];
      } else {
        var m, k :| 0 <= m < k < |q| && q[m] == q'[i - n] && q[k] == q'[j - n];
        assert xs[n + m] == ys[i] && xs[n + k] == ys[j];
      }
    }
  }

  lemma InBoth(started: seq<nat>, q: seq<nat>, x: nat)
    requires x in q
    ensures exists i :: 0 <= i < |started + q| && (started + q)[i] == x
  {
    var m :| 0 <= m < |q| && q[m] == x;
    assert (started + q)[|started| + m] == x;
  }

  lemma TailInOrder(q: seq<nat>)
    requires q != []
    ensures InOrderOf(q[1..], q)
  {
    forall i, j | 0 <= i < j < |q[1..]| ensures Before(q, q[1..][i], q[1..][j]) {
      assert q[i + 1] == q[1..][i] && q[j + 1] == q[1..][j];
    }
  }

  lemma {:induction false} WithoutInOrder(q: seq<nat>, t: nat)
    ensures InOrderOf(Without(q, t), q)
    decreases |q|
  {
    if q != [] {
      var rest, r := q[1..], Without(q, t);
      if q[0] == t {
        TailInOrder(q);
      } else {
        WithoutInOrder(rest, t);
        var short := Without(rest, t);
        assert r == [q[0]] + short;
        forall i, j | 0 <= i < j < |r| ensures Before(q, r[i], r[j]) {
          if i == 0 {
            var m :| 0 <= m < |rest| && rest[m] == short[j - 1];
            assert q[0] == r[0] && q[m + 1] == r[j];
          } else {
            var m, k :| 0 <= m < k < |rest| && rest[m] == short[i - 1] && rest[k] == short[j - 1];
            assert q[m + 1] == r[i] && q[k + 1] == r[j];
          }
        }
        forall i | 0 <= i < |r| ensures r[i] in q {
          if i > 0 { assert short[i - 1] in rest; }
        }
      }
    }
  }

  // ---- What steps leave alone ------------------------------------------------------------

  predicate Past(x: Task) {
    x.stage.Submitted? || x.stage.Finished?
  }

  /** Signals stay, fired signals stay fired, and who has handed on a frame has done so for good. */
  ghost predicate Onward(w: Writer, w': Writer) {
    && SameSignals(w, w') && w.aborted <= w'.aborted && (w.closed ==> w'.closed)
    && forall t :: 0 <= t < |w.tasks| && Past(w.tasks[t]) ==> Past(w'.tasks[t])
  }

  /** A step that drops jobs from the queue, those it drops being aborted unless the writer closed, and starts none. */
  lemma OrderKept(w: Writer, w': Writer, accepted: seq<nat>, started: seq<nat>)
    requires Ordered(w, accepted, started) && Onward(w, w') && InOrderOf(w'.queue, w.queue)
    requires !w'.closed ==> forall t :: t in w.queue ==> t in w'.queue || Skipped(w', t)
    ensures Ordered(w', accepted, started)
  {
    QueueShrinks(started, w.queue, w'.queue, accepted);
    hide InOrderOf, Before;
    forall t | Skipped(w, t) ensures Skipped(w', t) { }
  }

  lemma SameInOrder(q: seq<nat>)
    ensures InOrderOf(q, q)
  {
  }

  lemma {:induction false} SettleJobsOnward(w: Writer, ts: seq<nat>)
    requires InRange(w) && forall i :: 0 <= i < |ts| ==> ts[i] < |w.tasks|
    ensures var w' := SettleJobs(w, ts);
      && Onward(w, w') && w'.aborted == w.aborted
      && forall t :: 0 <= t < |w.tasks| ==> w'.tasks[t].stage == w.tasks[t].stage
    decreases |ts|
  {
    if ts != [] { SettleJobsOnward(SettleJob(w, ts[0]), ts[1..]); }
  }

  lemma FailWriterOnward(w: Writer)
    requires InRange(w)
    ensures Onward(w, FailWriter(w)) && FailWriter(w).closed && FailWriter(w).queue == []
        && FailWriter(w).active == w.active
    ensures Onward(w, CloseWriter(w)) && CloseWriter(w).closed && CloseWriter(w).active == w.active
    ensures !w.closed ==> CloseWriter(w).queue == []
    ensures w.closed ==> CloseWriter(w) == w
  {
    var shut := w.(closed := true, queue := []);
    SettleJobsOnward(shut, w.queue);
    if w.queue == [] { SettlesNothing(shut); } else { SettleJobsMean(shut, w.queue, w.queue[0]); }
    hide SettleJobs;
  }

  lemma SettlesNothing(w: Writer)
    requires InRange(w)
    ensures SettleJobs(w, []) == w
  {
  }

  lemma {:induction false} RefuseAllOnward(w: Writer, ts: seq<nat>)
    requires InRange(w) && forall i :: 0 <= i < |ts| ==> ts[i] < |w.tasks|
    ensures var w' := RefuseAll(w, ts);
      && Onward(w, w') && w'.aborted == w.aborted
      && w'.queue == w.queue && w'.active == w.active && w'.closed == w.closed
    decreases |ts|
  {
    if ts != [] { RefuseAllOnward(Refuse(w, ts[0]), ts[1..]); }
  }

  lemma CloseServerOnward(w: Writer)
    requires InRange(w)
    ensures var w' := CloseServer(w);
      Onward(w, w') && w'.queue == w.queue && w'.active == w.active && w'.closed == w.closed
  {
    RefuseAllOnward(w.(serverClosed := true, waiters := []), w.waiters);
    hide RefuseAll;
  }

  lemma {:induction false} DrainOnward(max: nat, w: Writer)
    requires InRange(w) && AllWaiting(w, w.waiters) && Distinct(w.waiters)
    ensures var w' := Drain(max, w);
      Onward(w, w') && w'.queue == w.queue && w'.active == w.active && w'.closed == w.closed
    decreases |w.waiters|
  {
    if !w.serverClosed && w.admitted < max && w.waiters != [] {
      AdmitFirstOnward(w);
      hide AdmitFirst, AllWaiting, Distinct;
      DrainOnward(max, AdmitFirst(w));
    }
  }

  lemma AdmitFirstOnward(w: Writer)
    requires InRange(w) && AllWaiting(w, w.waiters) && Distinct(w.waiters) && w.waiters != []
    ensures var w' := AdmitFirst(w);
      && Onward(w, w') && w'.queue == w.queue && w'.active == w.active && w'.closed == w.closed
      && AllWaiting(w', w'.waiters) && Distinct(w'.waiters)
  {
  }

  lemma LeaveOnward(max: nat, w: Writer, t: nat)
    requires Core(max, w) && t < |w.tasks| && w.tasks[t].stage.Submitted? && w.tasks[t].jobSettled
    ensures var w' := Leave(max, w, t);
      Onward(w, w') && w'.queue == w.queue && w'.active == w.active && w'.closed == w.closed
  {
    WaitersWait(max, w);
    hide Core, Drain;
    var left := w.(tasks := w.tasks[t := w.tasks[t].(stage := Finished)], admitted := w.admitted - 1);
    assert AllWaiting(left, left.waiters);
    DrainOnward(max, left);
  }

  // ---- Pumping ---------------------------------------------------------------------------

  /** The task a pump starts, if it starts one. */
  function Fresh(w: Writer, w': Writer): seq<nat> {
    if w.active.None? && w'.active.Some? then [w'.active.value] else []
  }

  lemma StartFirstOrder(max: nat, w: Writer, throws: bool, accepted: seq<nat>, started: seq<nat>)
    requires Core(max, w) && Ordered(w, accepted, started) && w.active.None? && !w.closed && w.queue != []
    ensures var w' := StartFirst(w, throws);
      && Ordered(w', accepted, started + Fresh(w, w'))
      && (w'.active.Some? ==> w'.active.value in w.queue) && (forall t :: t in w'.queue ==> t in w.queue)
  {
    TakeJobKeeps(max, w);
    hide Core, Ordered, InOrderOf, FailWriter;
    var u, taken := w.queue[0], w.(queue := w.queue[1..]);
    assert started + [] == started;
    assert forall t :: t in w.queue ==> t == u || t in taken.queue;
    if Aborted(w, u) {
      TailInOrder(w.queue);
      OrderKept(w, SettleJob(taken, u), accepted, started);
    } else if throws {
      FailWriterOnward(taken);
      EmptyInOrder(w.queue);
      OrderKept(w, FailWriter(taken), accepted, started);
    } else {
      StartsInOrder(w, accepted, started);
    }
  }

  lemma {:induction false} PumpOrder(max: nat, w: Writer, throws: bool, accepted: seq<nat>, started: seq<nat>)
    requires Core(max, w) && Ordered(w, accepted, started)
    ensures var w' := Pump(w, throws);
      && Ordered(w', accepted, started + Fresh(w, w'))
      && (w'.active == w.active || (w'.active.Some? && w'.active.value in w.queue))
      && (w.active.Some? ==> w'.active == w.active)
    decreases |w.queue|
  {
    assert started + [] == started;
    if w.active.None? && !w.closed && w.queue != [] {
      StartFirstKeeps(max, w, throws);
      StartFirstOrder(max, w, throws, accepted, started);
      hide Core, Ordered, StartFirst;
      var next := StartFirst(w, throws);
      PumpOrder(max, next, throws, accepted, started + Fresh(w, next));
      assert started + Fresh(w, next) + [] == started + Fresh(w, next);
    }
  }

  lemma EmptyInOrder(q: seq<nat>)
    ensures InOrderOf([], q)
  {
  }

  /** Moving the head of the queue to the end of what was started changes no order, and only aborted tasks were passed
      over. */
  lemma StartsInOrder(w: Writer, accepted: seq<nat>, started: seq<nat>)
    requires Ordered(w, accepted, started) && !w.closed && w.queue != []
    ensures var u := w.queue[0];
      Ordered(w.(queue := w.queue[1..], active := Some(u)), accepted, started + [u])
  {
    var u, rest := w.queue[0], w.queue[1..];
    var w' := w.(queue := rest, active := Some(u));
    assert started + [u] + rest == started + w.queue;
    forall t | t in accepted ensures t in started + [u] || t in rest || Skipped(w', t) {
      assert t in started || t in w.queue || Skipped(w, t);
      assert w.queue == [u] + rest;
    }
    forall a, b | Before(accepted, a, b) && b in started + [u] ensures a in started + [u] || Skipped(w', a) {
      if b !in started { PassedOver(w, accepted, started, a); }
    }
  }

  lemma PassedOver(w: Writer, accepted: seq<nat>, started: seq<nat>, a: nat)
    requires Ordered(w, accepted, started) && !w.closed && w.queue != [] && Before(accepted, a, w.queue[0])
    ensures a in started || Skipped(w, a)
  {
    var u := w.queue[0];
    OneWay(accepted, a, u);
    assert a in accepted by {
      var i, j :| 0 <= i < j < |accepted| && accepted[i] == a && accepted[j] == u;
    }
    var xs, n := started + w.queue, |started|;
    forall m | 0 < m < |w.queue| ensures Before(accepted, u, w.queue[m]) {
      assert xs[n] == u && xs[n + m] == w.queue[m];
    }
  }

  // ---- One event -------------------------------------------------------------------------

  lemma AcceptsInOrder(w: Writer, u: nat, accepted: seq<nat>, started: seq<nat>)
    requires Ordered(w, accepted, started) && u < |w.tasks| && w.tasks[u].stage.Admitted?
    ensures Ordered(w.(tasks := w.tasks[u := w.tasks[u].(stage := Submitted)], queue := w.queue + [u]),
          accepted + [u], started)
  {
    var w' := w.(tasks := w.tasks[u := w.tasks[u].(stage := Submitted)], queue := w.queue + [u]);
    assert u !in accepted;
    forall a, b ensures Before(accepted, a, b) ==> Before(accepted + [u], a, b) { BeforeExtends(accepted, u, a, b); }
    forall a | a in accepted ensures Before(accepted + [u], a, u) { BeforeExtends(accepted, u, a, u); }
    assert started + w'.queue == started + w.queue + [u];
    forall a, b | Before(accepted + [u], a, b) && b in started ensures a in started || Skipped(w', a) {
      BeforeExtends(accepted, u, a, b);
      assert b != u by { StartedAccepted(w, accepted, started, b); }
    }
    forall t | Skipped(w, t) ensures Skipped(w', t) { }
  }

  lemma StartedAccepted(w: Writer, accepted: seq<nat>, started: seq<nat>, b: nat)
    requires Ordered(w, accepted, started) && b in started
    ensures b in accepted
  {
    var i :| 0 <= i < |started| && started[i] == b;
    assert (started + w.queue)[i] == b;
  }

  lemma HandOnOrder(
    max: nat, w: Writer, u: nat, fault: Option<ErrorCode>, throws: bool, accepted: seq<nat>, started: seq<nat>)
    requires Inv(max, w) && Ordered(w, accepted, started) && u < |w.tasks| && w.tasks[u].stage.Admitted?
    ensures var e := HandOn(u, fault, throws);
      Ordered(Step(max, w, e), accepted + AcceptedIn(max, w, e), started + StartedIn(max, w, e))
  {
    assert accepted + [] == accepted && started + [] == started;
    if Admission(max, w, u, fault).Accepted? {
      AcceptedOrder(max, w, u, throws, accepted, started);
      hide Core, Pump, Ordered;
    } else {
      RejectedOrder(w, u, accepted, started);
      hide Core, Ordered;
    }
  }

  lemma AcceptedOrder(max: nat, w: Writer, u: nat, throws: bool, accepted: seq<nat>, started: seq<nat>)
    requires Inv(max, w) && Ordered(w, accepted, started) && u < |w.tasks| && w.tasks[u].stage.Admitted? && !w.closed
    ensures InRange(w.(queue := w.queue + [u]))
    ensures var moved := w.(tasks := w.tasks[u := w.tasks[u].(stage := Submitted)], queue := w.queue + [u]);
      && InRange(moved) && Ordered(Pump(moved, throws), accepted + [u], started + Fresh(w, Pump(moved, throws)))
      && (w.active.Some? ==> Pump(moved, throws).active == w.active)
  {
    MoveToSubmitted(max, w, u);
    AcceptsInOrder(w, u, accepted, started);
    hide Core, Pump, Ordered;
    var moved := w.(tasks := w.tasks[u := w.tasks[u].(stage := Submitted)], queue := w.queue + [u]);
    PumpOrder(max, moved, throws, accepted + [u], started);
  }

  lemma RejectedOrder(w: Writer, u: nat, accepted: seq<nat>, started: seq<nat>)
    requires InRange(w) && Ordered(w, accepted, started) && u < |w.tasks|
    ensures var moved := w.(tasks := w.tasks[u := w.tasks[u].(stage := Submitted)]);
      Ordered(SettleJob(moved, u), accepted, started)
  {
    SameInOrder(w.queue);
    hide Ordered, InOrderOf;
    var moved := w.(tasks := w.tasks[u := w.tasks[u].(stage := Submitted)]);
    OrderKept(w, SettleJob(moved, u), accepted, started);
  }

  lemma WrittenOrder(max: nat, w: Writer, throws: bool, accepted: seq<nat>, started: seq<nat>)
    requires Inv(max, w) && Ordered(w, accepted, started)
    ensures Ordered(Step(max, w, Written(throws)), accepted, started + StartedIn(max, w, Written(throws)))
  {
    assert started + [] == started;
    if w.active.Some? {
      var u, idle := w.active.value, w.(active := None);
      assert Core(max, idle) && u !in w.queue;
      SettleJobKeeps(max, idle, u);
      SameInOrder(w.queue);
      hide Core, Pump, Ordered, InOrderOf;
      var settled := SettleJob(idle, u);
      OrderKept(w, settled, accepted, started);
      PumpOrder(max, settled, throws, accepted, started);
    }
  }

  ghost predicate Quiet(w: Writer, w': Writer) {
    && Onward(w, w') && w'.active == w.active && InOrderOf(w'.queue, w.queue)
    && (!w'.closed ==> forall t :: t in w.queue ==> t in w'.queue || Skipped(w', t))
  }

  /** Every other event at most drops jobs. */
  lemma OtherEvents(max: nat, w: Writer, e: Event)
    requires Inv(max, w) && !e.HandOn? && !e.Written?
    ensures Quiet(w, Step(max, w, e))
  {
    SameInOrder(w.queue);
    EmptyInOrder(w.queue);
    hide Core, CloseServer, FailWriter, CloseWriter, Leave, InOrderOf;
    CloseServerOnward(w);
    match e
    case Resume(u) =>
      if u < |w.tasks| && w.tasks[u].stage.Submitted? && w.tasks[u].jobSettled { LeaveOnward(max, w, u); }
    case Heard(u) => if u < |w.tasks| { HeardQuiet(max, w, u); }
    case Close => FailWriterOnward(CloseServer(w));
    case Fail => FailWriterOnward(CloseServer(w));
    case TransportError => FailWriterOnward(w);
    case Write(_) =>
    case Abort(_) =>
  }

  lemma HeardQuiet(max: nat, w: Writer, u: nat)
    requires Inv(max, w) && u < |w.tasks|
    ensures Quiet(w, Notice(w, u))
  {
    assert Distinct(w.queue);
    hide Core, CloseServer, FailWriter, Quiet, SettleJob, Without, Refuse;
    StaysQuiet(w);
    if Aborted(w, u) && w.tasks[u].stage.Waiting? {
      RefuseQuiet(w, u);
    } else if Aborted(w, u) {
      if w.active == Some(u) { FailQuiet(w); } else { DropQuiet(w, u); }
    }
  }

  lemma StaysQuiet(w: Writer)
    ensures Quiet(w, w)
  {
    SameInOrder(w.queue);
  }

  lemma RefuseQuiet(w: Writer, u: nat)
    requires InRange(w) && u < |w.tasks|
    ensures Quiet(w, Refuse(w.(waiters := Without(w.waiters, u)), u))
  {
    SameInOrder(w.queue);
    hide InOrderOf, Without;
  }

  lemma DropQuiet(w: Writer, u: nat)
    requires InRange(w) && Distinct(w.queue) && u < |w.tasks| && Aborted(w, u)
    ensures Quiet(w, SettleJob(w.(queue := Without(w.queue, u)), u))
  {
    WithoutInOrder(w.queue, u);
    WithoutMeans(w.queue, u);
    hide InOrderOf, Without, Distinct;
    var shorter := w.(queue := Without(w.queue, u));
    var w' := SettleJob(shorter, u);
    assert Onward(w, w') && w'.active == w.active && w'.queue == shorter.queue;
    hide SettleJob, Onward, InRange;
  }

  lemma FailQuiet(w: Writer)
    requires InRange(w)
    ensures Quiet(w, FailWriter(CloseServer(w)))
  {
    EmptyInOrder(w.queue);
    CloseServerOnward(w);
    hide CloseServer, FailWriter, InOrderOf;
    FailWriterOnward(CloseServer(w));
  }

  lemma StepOrder(max: nat, w: Writer, e: Event, accepted: seq<nat>, started: seq<nat>)
    requires Inv(max, w) && Ordered(w, accepted, started)
    ensures Ordered(Step(max, w, e), accepted + AcceptedIn(max, w, e), started + StartedIn(max, w, e))
  {
    assert accepted + [] == accepted && started + [] == started;
    hide Inv, Ordered, Step;
    match e
    case HandOn(u, fault, throws) =>
      if u < |w.tasks| && w.tasks[u].stage.Admitted? {
        HandOnOrder(max, w, u, fault, throws, accepted, started);
      } else {
        NoHandOn(max, w, e);
      }
    case Written(throws) => WrittenOrder(max, w, throws, accepted, started);
    case _ =>
      OtherEvents(max, w, e);
      OrderKept(w, Step(max, w, e), accepted, started);
  }

  lemma NoHandOn(max: nat, w: Writer, e: Event)
    requires InRange(w) && e.HandOn? && !(e.task < |w.tasks| && w.tasks[e.task].stage.Admitted?)
    ensures Step(max, w, e) == w
  {
  }

  lemma {:induction false} RunOrder(max: nat, es: seq<Event>)
    ensures Ordered(Run(max, es), Accepted(max, es), Started(max, es))
    decreases |es|
  {
    if es == [] {
      assert !exists a, b :: Before([], a, b);
    } else {
      var n := |es| - 1;
      RunOrder(max, es[..n]);
      RunInvariant(max, es[..n]);
      LastEvent(max, es);
      hide Run, Ordered, Inv, Step;
      StepOrder(max, Run(max, es[..n]), es[n], Accepted(max, es[..n]), Started(max, es[..n]));
    }
  }

  // ---- Results ---------------------------------------------------------------------------

  /** In every run frames are handed to the stream in the order they were accepted, those still queued come after them
      in the same order, and a frame that a later one overtook belongs to a task whose signal had fired. */
  lemma FramesInOrder(max: nat, es: seq<Event>)
    ensures var w, accepted, started := Run(max, es), Accepted(max, es), Started(max, es);
      && Distinct(accepted) && InOrderOf(started + w.queue, accepted)
      && (forall a, b :: Before(accepted, a, b) && b in started ==> a in started || Skipped(w, a))
      && (!w.closed ==> forall t :: t in accepted ==> t in started || t in w.queue || Skipped(w, t))
  {
    RunOrder(max, es);
  }

  // ---- Admissions ------------------------------------------------------------------------

  /** Tasks are numbered as they arrive, so a list of waiters in arrival order increases. */
  ghost predicate Increasing(ts: seq<nat>) {
    forall i, j :: 0 <= i < j < |ts| ==> ts[i] < ts[j]
  }

  lemma {:induction false} WithoutIncreases(ts: seq<nat>, t: nat)
    requires Increasing(ts)
    ensures Increasing(Without(ts, t)) && forall u :: u in Without(ts, t) ==> u in ts
    decreases |ts|
  {
    if ts != [] && ts[0] != t {
      var short := Without(ts[1..], t);
      WithoutIncreases(ts[1..], t);
      forall i | 0 <= i < |short| ensures ts[0] < short[i] { assert short[i] in ts[1..]; }
    }
  }

  /** Task j is admitted between w and w'. */
  predicate Admits(w: Writer, w': Writer, j: nat) {
    j < |w'.tasks| && w'.tasks[j].stage.Admitted? && (j < |w.tasks| ==> !w.tasks[j].stage.Admitted?)
  }

  /** A drain admits from the front of the list and leaves the rest waiting. */
  lemma {:induction false} DrainTakesFront(max: nat, w: Writer)
    requires InRange(w) && Increasing(w.waiters)
    ensures var w' := Drain(max, w);
      && Increasing(w'.waiters) && (forall t :: t in w'.waiters ==> t in w.waiters)
      && forall j: nat, t :: Admits(w, w', j) && t in w'.waiters ==> j < t
    decreases |w.waiters|
  {
    if !w.serverClosed && w.admitted < max && w.waiters != [] {
      var next := AdmitFirst(w);
      DrainTakesFront(max, next);
      var w' := Drain(max, w);
      forall j: nat, t | Admits(w, w', j) && t in w'.waiters ensures j < t {
        assert t in next.waiters && w.waiters[0] < t;
        assert j == w.waiters[0] || Admits(next, w', j);
      }
    }
  }

  lemma {:induction false} RefuseAllAdmitsNone(w: Writer, ts: seq<nat>)
    requires InRange(w) && forall i :: 0 <= i < |ts| ==> ts[i] < |w.tasks|
    ensures var w' := RefuseAll(w, ts);
      && w'.waiters == w.waiters
      && forall j :: 0 <= j < |w.tasks| && w'.tasks[j].stage.Admitted? ==> w.tasks[j].stage.Admitted?
    decreases |ts|
  {
    if ts != [] { RefuseAllAdmitsNone(Refuse(w, ts[0]), ts[1..]); }
  }

  /** Nobody is newly admitted, and the list only loses entries. */
  ghost predicate AdmitsNone(w: Writer, w': Writer) {
    && |w'.tasks| == |w.tasks|
    && (Increasing(w.waiters) ==> Increasing(w'.waiters)) && (forall t :: t in w'.waiters ==> t in w.waiters)
    && forall j :: 0 <= j < |w.tasks| && w'.tasks[j].stage.Admitted? ==> w.tasks[j].stage.Admitted?
  }

  lemma {:induction false} SettleJobsAdmitNone(w: Writer, ts: seq<nat>)
    requires InRange(w) && forall i :: 0 <= i < |ts| ==> ts[i] < |w.tasks|
    ensures var w' := SettleJobs(w, ts);
      w'.waiters == w.waiters && forall t :: 0 <= t < |w.tasks| ==> w'.tasks[t].stage == w.tasks[t].stage
    decreases |ts|
  {
    if ts != [] { SettleJobsAdmitNone(SettleJob(w, ts[0]), ts[1..]); }
  }

  lemma InnerAdmitsNone(w: Writer)
    requires InRange(w)
    ensures AdmitsNone(w, FailWriter(w)) && AdmitsNone(w, CloseWriter(w))
  {
    SettleJobsAdmitNone(w.(closed := true, queue := []), w.queue);
    hide SettleJobs;
  }

  lemma {:induction false} PumpAdmitsNone(w: Writer, throws: bool)
    requires InRange(w)
    ensures AdmitsNone(w, Pump(w, throws))
    decreases |w.queue|
  {
    if !(w.active.Some? || w.closed || w.queue == []) {
      InnerAdmitsNone(w.(queue := w.queue[1..]));
      hide FailWriter;
      PumpAdmitsNone(StartFirst(w, throws), throws);
    }
  }

  lemma OuterAdmitsNone(w: Writer)
    requires InRange(w)
    ensures AdmitsNone(w, CloseServer(w))
  {
    RefuseAllAdmitsNone(w.(serverClosed := true, waiters := []), w.waiters);
    hide RefuseAll;
  }

  lemma AdmitsNoneTwice(a: Writer, b: Writer, c: Writer)
    requires AdmitsNone(a, b) && AdmitsNone(b, c)
    ensures AdmitsNone(a, c)
  {
    hide Increasing;
  }

  lemma NoticeAdmitsNone(w: Writer, t: nat)
    requires InRange(w) && t < |w.tasks| && Increasing(w.waiters)
    ensures AdmitsNone(w, Notice(w, t))
  {
    WithoutIncreases(w.waiters, t);
    hide CloseServer, FailWriter, Without, Increasing;
    OuterAdmitsNone(w);
    InnerAdmitsNone(CloseServer(w));
    AdmitsNoneTwice(w, CloseServer(w), FailWriter(CloseServer(w)));
  }

  lemma SubmitAdmitsNone(max: nat, w: Writer, u: nat, fault: Option<ErrorCode>, throws: bool)
    requires InRange(w) && u < |w.tasks|
    ensures AdmitsNone(w, Submit(max, w, u, fault, throws))
  {
    hide Pump, Increasing;
    var moved := w.(tasks := w.tasks[u := w.tasks[u].(stage := Submitted)], queue := w.queue + [u]);
    PumpAdmitsNone(moved, throws);
    AdmitsNoneTwice(w, moved, Pump(moved, throws));
  }

  lemma CompleteAdmitsNone(w: Writer, throws: bool)
    requires InRange(w)
    ensures AdmitsNone(w, Complete(w, throws))
  {
    hide Pump, Increasing;
    if w.active.Some? {
      var settled := SettleJob(w.(active := None), w.active.value);
      PumpAdmitsNone(settled, throws);
      AdmitsNoneTwice(w, settled, Pump(settled, throws));
    }
  }

  /** Whom an event admits, nobody who arrived earlier is left waiting behind. */
  ghost predicate InTurn(w: Writer, w': Writer) {
    && Increasing(w'.waiters)
    && forall j: nat, t :: Admits(w, w', j) && t in w'.waiters ==> j < t
  }

  lemma NoneInTurn(w: Writer, w': Writer)
    requires AdmitsNone(w, w') && Increasing(w.waiters)
    ensures InTurn(w, w')
  {
    hide Increasing;
  }

  lemma LeaveInTurn(max: nat, w: Writer, u: nat)
    requires InRange(w) && u < |w.tasks| && Increasing(w.waiters)
    ensures InTurn(w, Leave(max, w, u))
  {
    hide Drain, Increasing;
    var left := w.(tasks := w.tasks[u := w.tasks[u].(stage := Finished)], admitted := w.admitted - 1);
    DrainTakesFront(max, left);
    forall j: nat | Admits(w, Leave(max, w, u), j) ensures Admits(left, Leave(max, w, u), j) { }
  }

  lemma ArriveInTurn(max: nat, w: Writer, signal: Option<nat>)
    requires Inv(max, w) && Increasing(w.waiters)
    ensures InTurn(w, Arrive(max, w, signal))
  {
    hide Core;
  }

  lemma StepInTurn(max: nat, w: Writer, e: Event)
    requires Inv(max, w) && Increasing(w.waiters)
    ensures InTurn(w, Step(max, w, e))
  {
    hide Core, Submit, Complete, Leave, CloseServer, FailWriter, CloseWriter, Notice, Arrive, Increasing, AdmitsNone,
         InTurn;
    NothingAdmitted(w, Step(max, w, e));
    NoneInTurn(w, w);
    OuterAdmitsNone(w);
    match e
    case Write(signal) => ArriveInTurn(max, w, signal);
    case HandOn(u, fault, throws) =>
      if u < |w.tasks| {
        SubmitAdmitsNone(max, w, u, fault, throws);
        NoneInTurn(w, Submit(max, w, u, fault, throws));
      }
    case Written(throws) => CompleteAdmitsNone(w, throws); NoneInTurn(w, Complete(w, throws));
    case Resume(u) => if u < |w.tasks| { LeaveInTurn(max, w, u); }
    case Abort(_) => NoneInTurn(w, Step(max, w, e));
    case Heard(u) => if u < |w.tasks| { NoticeAdmitsNone(w, u); NoneInTurn(w, Notice(w, u)); }
    case Close =>
      InnerAdmitsNone(CloseServer(w));
      AdmitsNoneTwice(w, CloseServer(w), CloseWriter(CloseServer(w)));
      NoneInTurn(w, CloseWriter(CloseServer(w)));
    case Fail =>
      InnerAdmitsNone(CloseServer(w));
      AdmitsNoneTwice(w, CloseServer(w), FailWriter(CloseServer(w)));
      NoneInTurn(w, FailWriter(CloseServer(w)));
    case TransportError => InnerAdmitsNone(w); NoneInTurn(w, FailWriter(w));
  }

  lemma NothingAdmitted(w: Writer, w': Writer)
    ensures w'.tasks == w.tasks && w'.waiters == w.waiters ==> AdmitsNone(w, w')
    ensures AdmitsNone(w, w)
  {
  }

  lemma {:induction false} WaitersIncrease(max: nat, es: seq<Event>)
    ensures Increasing(Run(max, es).waiters)
    decreases |es|
  {
    if es != [] {
      var n := |es| - 1;
      WaitersIncrease(max, es[..n]);
      RunInvariant(max, es[..n]);
      LastEvent(max, es);
      hide Run, Inv, Step;
      StepInTurn(max, Run(max, es[..n]), es[n]);
    }
  }

  /** In every run admissions are granted in the order of arrival: whom an event admits, no earlier task still waits. */
  lemma AdmissionsInOrder(max: nat, es: seq<Event>, e: Event, i: nat, j: nat)
    requires var w, w' := Run(max, es), Step(max, Run(max, es), e);
      && i < j < |w'.tasks| && w'.tasks[j].stage.Admitted? && (j < |w.tasks| ==> !w.tasks[j].stage.Admitted?)
    ensures !Step(max, Run(max, es), e).tasks[i].stage.Waiting?
  {
    RunInvariant(max, es);
    WaitersIncrease(max, es);
    StepInTurn(max, Run(max, es), e);
    StepKeepsInv(max, Run(max, es), e);
    hide Run, Step;
    assert Admits(Run(max, es), Step(max, Run(max, es), e), j);
  }

  /** What becomes of a new write: refused, admitted or left to wait, in terms of who holds an admission. */
  lemma ArrivalIsExact(max: nat, es: seq<Event>, signal: Option<nat>)
    ensures var w, w' := Run(max, es), Step(max, Run(max, es), Write(signal));
      var refused := w.serverClosed || (signal.Some? && signal.value in w.aborted);
      && |w'.tasks| == |w.tasks| + 1 && w'.tasks[..|w.tasks|] == w.tasks
      && w'.tasks[|w.tasks|].signal == signal
      && w'.tasks[|w.tasks|].stage == (if refused then Finished else if |Holders(w.tasks)| < max then Stage.Admitted
            else Waiting)
  {
    RunInvariant(max, es);
    hide Run;
  }

  /** What becomes of a frame handed on: rejected at once, with the code of the first check that fails, exactly if the
      writer is closed, its signal fired or the frame is at fault, and never for want of room; otherwise queued last or,
      on an idle stream that takes it, written at once. */
  lemma HandOnIsExact(max: nat, es: seq<Event>, t: nat, fault: Option<ErrorCode>, throws: bool)
    requires t < |Run(max, es).tasks| && Run(max, es).tasks[t].stage.Admitted?
    ensures var w, w' := Run(max, es), Step(max, Run(max, es), HandOn(t, fault, throws));
      var answered := w.closed || Aborted(w, t) || fault.Some?;
      && Admission(max, w, t, fault) ==
         (if w.closed then Rejected(Unavailable) else if Aborted(w, t) then Rejected(Cancelled)
          else if fault.Some? then Rejected(fault.value) else Submission.Accepted)
      && t < |w'.tasks| && w'.tasks[t].stage.Submitted? && (w'.tasks[t].jobSettled <==> answered)
      && (!answered && w.active.Some? ==> w'.queue == w.queue + [t] && w'.active == w.active)
      && (!answered && w.active.None? && !throws ==> w'.queue == [] && w'.active == Some(t))
  {
    RunInvariant(max, es);
    hide Run;
    var w := Run(max, es);
    if !w.closed { RoomForHolder(max, w, t); }
    assert TaskWell(w.tasks[t]) && (w.active.None? ==> w.queue == []);
    assert t !in w.queue && w.active != Some(t) by { MoveToSubmitted(max, w, t); }
    hide Core;
    var queued := w.(tasks := w.tasks[t := w.tasks[t].(stage := Submitted)], queue := w.queue + [t]);
    if !w.closed && !Aborted(w, t) && fault.None? {
      if w.active.None? {
        assert queued.queue == [t] && queued.queue[1..] == [];
        ThrownOrActive(queued, t, throws);
      }
    }
  }

  lemma ThrownOrActive(w: Writer, t: nat, throws: bool)
    requires InRange(w) && t < |w.tasks| && w.queue == [t] && w.active.None? && !w.closed
    requires !Aborted(w, t) && !w.tasks[t].jobSettled
    ensures var w' := Pump(w, throws);
      && w'.queue == [] && w'.tasks == w.tasks && (!throws ==> w'.active == Some(t))
  {
    assert [t][1..] == [];
    var taken := w.(queue := []);
    SettlesNothing(taken.(closed := true));
    if throws { ClosedPump(FailWriter(taken), throws); } else { ClosedPump(taken.(active := Some(t)), throws); }
  }

  // ---- Aborting and shutting down --------------------------------------------------------

  /** Nobody waits for admission, and only a job that is out of reach, or the one in `spared`, waits for a write. */
  ghost predicate AllAnswered(w: Writer, w': Writer, spared: Option<nat>) {
    && |w'.tasks| == |w.tasks| && w'.waiters == [] && w'.queue == []
    && (forall t :: 0 <= t < |w'.tasks| ==> !w'.tasks[t].stage.Waiting?)
    && (forall t :: 0 <= t < |w'.tasks| && Waits(w'.tasks[t]) ==> Orphan(w, t) || spared == Some(t))
  }

  /** Closing answers everything but the write in progress; failing answers that too. */
  lemma ShutdownAnswersAll(max: nat, es: seq<Event>)
    ensures var w := Run(max, es);
      && AllAnswered(w, Step(max, w, Close), w.active) && AllAnswered(w, Step(max, w, Fail), None)
  {
    RunInvariant(max, es);
    hide Run;
    var w := Run(max, es);
    StepKeepsInv(max, w, Close);
    StepKeepsInv(max, w, Fail);
    var closed, failed := Step(max, w, Close), Step(max, w, Fail);
    assert closed.waiters == [] && failed.waiters == [] && closed.queue == [] && failed.queue == [] by {
      CloseServerKeeps(max, w);
      CloseWriterKeeps(max, CloseServer(w));
      FailWriterKeeps(max, CloseServer(w));
    }
    CloseServerOnward(w);
    FailWriterOnward(CloseServer(w));
    forall t | 0 <= t < |w.tasks|
      ensures Waits(closed.tasks[t]) ==> Orphan(w, t) || w.active == Some(t)
      ensures Waits(failed.tasks[t]) ==> Orphan(w, t)
    {
      StepOrphans(max, w, Close, t);
      StepOrphans(max, w, Fail, t);
      FailedActive(CloseServer(w), t);
    }
    hide Step, Orphan;
  }

  lemma FailedActive(w: Writer, t: nat)
    requires InRange(w) && t < |w.tasks|
    ensures w.active == Some(t) ==> !Waits(FailWriter(w).tasks[t])
  {
    hide SettleJobs;
  }

  /** What a fired signal does when its listener runs: a waiting task or a queued job is answered and taken out, and a
      write in progress brings both layers down. */
  lemma AbortIsExact(max: nat, es: seq<Event>, t: nat)
    requires t < |Run(max, es).tasks| && Aborted(Run(max, es), t)
    ensures var w, w' := Run(max, es), Step(max, Run(max, es), Heard(t));
      && t < |w'.tasks|
      && (w.tasks[t].stage.Waiting? ==> w'.tasks[t].stage.Finished? && t !in w'.waiters)
      && (t in w.queue ==> w'.tasks[t].jobSettled && t !in w'.queue && w'.active == w.active)
      && (w.active == Some(t) && !w.tasks[t].jobSettled ==>
            w'.closed && w'.serverClosed && AllAnswered(w, w', None))
      && (!w.tasks[t].stage.Waiting? && !Waits(w.tasks[t]) ==> w' == w)
  {
    RunInvariant(max, es);
    ShutdownAnswersAll(max, es);
    hide Run;
    var w := Run(max, es);
    assert TaskWell(w.tasks[t]);
    WithoutMeans(w.queue, t);
    WithoutMeans(w.waiters, t);
    ClosesServer(w);
    FailWriterOnward(CloseServer(w));
    hide Without, CloseServer, FailWriter, AllAnswered, InOrderOf, Holders;
    if w.active == Some(t) && !w.tasks[t].jobSettled {
      assert Waits(w.tasks[t]) && Step(max, w, Heard(t)) == Step(max, w, Fail);
      KeepsServerClosed(CloseServer(w));
    }
  }

  lemma {:induction false} RefusesStayClosed(w: Writer, ts: seq<nat>)
    requires InRange(w) && forall i :: 0 <= i < |ts| ==> ts[i] < |w.tasks|
    ensures RefuseAll(w, ts).serverClosed == w.serverClosed
    decreases |ts|
  {
    if ts != [] { RefusesStayClosed(Refuse(w, ts[0]), ts[1..]); }
  }

  lemma ClosesServer(w: Writer)
    requires InRange(w)
    ensures CloseServer(w).serverClosed
  {
    if !w.serverClosed { RefusesStayClosed(w.(serverClosed := true, waiters := []), w.waiters); }
  }

  lemma KeepsServerClosed(w: Writer)
    requires InRange(w)
    ensures FailWriter(w).serverClosed == w.serverClosed
  {
    var shut := w.(closed := true, queue := []);
    if w.queue == [] { SettlesNothing(shut); } else { SettleJobsMean(shut, w.queue, w.queue[0]); }
    hide SettleJobs;
  }
}
