/**
 Subscription admissions of one server connection: a slot counter, an index of
 terminal streams and an index of acknowledged subscription IDs.  An admission
 takes its slot and its stream in one critical section, its ID in another when the
 acknowledgement is prepared, and gives them back in two more when it is cleaned up.
 */
module Subscriptions {
  import opened Base

  /** How far an admission's once-only cleanup has come. */
  datatype Stage = Live | Unmapped | Released

  datatype Target = Target(session: string, stream: string)

  /** `subscriptionID` is empty until the acknowledgement is prepared. */
  datatype Admission = Admission(target: Option<Target>, subscriptionID: string, stage: Stage)

  /** An admission is named by its position, which plays the part of its address. */
  datatype Table = Table(
    admissions: seq<Admission>, streams: map<string, nat>, cancels: map<string, nat>, subscriptions: int, closing: bool)

  const OPENING: Table := Table([], map[], map[], 0, false)

  /** Native session IDs are validated to hold no NUL. */
  predicate ValidTarget(target: Target) {
    NUL !in target.session
  }

  function Key(target: Target): (key: string)
    ensures key != ""
  {
    target.session + [NUL] + target.stream
  }

  lemma KeyInjective(a: Target, b: Target)
    requires ValidTarget(a) && ValidTarget(b) && Key(a) == Key(b)
    ensures a == b
  {
    JoinInjective(a.session, a.stream, b.session, b.stream);
  }

  // ---- The critical sections -------------------------------------------------------------

  function Admit(max: nat, t: Table, target: Option<Target>): Result<nat> {
    if t.closing || t.subscriptions >= max then Err(ResourceExhausted)
    else if target.Some? && Key(target.value) in t.streams then Err(Conflict)
    else Ok(|t.admissions|)
  }

  function Enter(t: Table, target: Option<Target>): Table {
    t.(admissions := t.admissions + [Admission(target, "", Live)], subscriptions := t.subscriptions + 1,
       streams := if target.Some? then t.streams[Key(target.value) := |t.admissions|] else t.streams)
  }

  function Register(t: Table, a: nat, id: string): (t': Table)
    requires a < |t.admissions|
    ensures |t'.admissions| == |t.admissions|
  {
    t.(admissions := t.admissions[a := t.admissions[a].(subscriptionID := id)], cancels := t.cancels[id := a])
  }

  /** First half of a cleanup; identity is tested before either index is touched. */
  function Unmap(t: Table, a: nat): (t': Table)
    requires a < |t.admissions|
    ensures |t'.admissions| == |t.admissions|
  {
    var x := t.admissions[a];
    if !x.stage.Live? then t else
    t.(admissions := t.admissions[a := x.(stage := Unmapped)],
       streams := if x.target.Some? && Key(x.target.value) in t.streams && t.streams[Key(x.target.value)] == a
                  then t.streams - {Key(x.target.value)} else t.streams,
       cancels := if x.subscriptionID != "" && x.subscriptionID in t.cancels && t.cancels[x.subscriptionID] == a
                  then t.cancels - {x.subscriptionID} else t.cancels)
  }

  /** Second half of a cleanup. */
  function Release(t: Table, a: nat): Table
    requires a < |t.admissions|
  {
    var x := t.admissions[a];
    if !x.stage.Unmapped? then t else
    t.(admissions := t.admissions[a := x.(stage := Stage.Released)],
       subscriptions := if t.subscriptions > 0 then t.subscriptions - 1 else t.subscriptions)
  }

  // ---- Runs ------------------------------------------------------------------------------

  datatype Event =
    | Begin(target: Option<Target>)
    | Prepare(admission: nat, id: string)   // the handler's acknowledgement carries this ID
    | CleanUp(admission: nat)               // any of the paths that call cleanup
    | GiveBack(admission: nat)
    | Close

  ghost function Step(max: nat, t: Table, e: Event): Table {
    match e
    case Begin(target) =>
      if (target.Some? ==> ValidTarget(target.value)) && Admit(max, t, target).Ok? then Enter(t, target) else t
    case Prepare(a, id) =>
      if a < |t.admissions| && t.admissions[a].stage.Live? && t.admissions[a].subscriptionID == "" then
        if id == "" || id in t.cancels then Unmap(t, a) else Register(t, a, id)
      else t
    case CleanUp(a) => if a < |t.admissions| then Unmap(t, a) else t
    case GiveBack(a) => if a < |t.admissions| then Release(t, a) else t
    case Close => t.(closing := true)
  }

  ghost function RunFrom(max: nat, t: Table, es: seq<Event>): Table
    decreases |es|
  {
    if es == [] then t else RunFrom(max, Step(max, t, es[0]), es[1..])
  }

  ghost function Run(max: nat, es: seq<Event>): Table {
    RunFrom(max, OPENING, es)
  }

  // ---- The invariant ---------------------------------------------------------------------

  /** Admissions that still hold a slot. */
  function Held(xs: seq<Admission>): nat {
    if xs == [] then 0 else Held(xs[..|xs| - 1]) + (if xs[|xs| - 1].stage.Released? then 0 else 1)
  }

  /** Each index holds exactly the live admissions that have an entry in it. */
  ghost predicate Indexed(t: Table) {
    && (forall k :: k in t.streams ==> t.streams[k] < |t.admissions| && HoldsStream(t.admissions[t.streams[k]], k))
    && (forall k :: k in t.cancels ==> t.cancels[k] < |t.admissions| && HoldsID(t.admissions[t.cancels[k]], k))
    && (forall a :: 0 <= a < |t.admissions| ==> Entered(t, a))
  }

  predicate HoldsStream(x: Admission, key: string) {
    x.stage.Live? && x.target.Some? && Key(x.target.value) == key
  }

  predicate HoldsID(x: Admission, id: string) {
    x.stage.Live? && id != "" && x.subscriptionID == id
  }

  predicate Entered(t: Table, a: nat)
    requires a < |t.admissions|
  {
    var x := t.admissions[a];
    && (x.target.Some? ==> ValidTarget(x.target.value))
    && (x.stage.Live? && x.target.Some? ==> Key(x.target.value) in t.streams && t.streams[Key(x.target.value)] == a)
    && (x.stage.Live? && x.subscriptionID != "" ==> x.subscriptionID in t.cancels && t.cancels[x.subscriptionID] == a)
  }

  ghost predicate Inv(max: nat, t: Table) {
    Indexed(t) && t.subscriptions == Held(t.admissions) <= max
  }

  lemma {:induction false} HeldUpdate(xs: seq<Admission>, a: nat, x: Admission)
    requires a < |xs|
    ensures Held(xs[a := x]) ==
              Held(xs) + (if xs[a].stage.Released? then 1 else 0) - (if x.stage.Released? then 1 else 0)
    ensures xs[a].stage.Released? || Held(xs) > 0
  {
    var n := |xs| - 1;
    if a == n {
      assert xs[a := x][..n] == xs[..n];
    } else {
      HeldUpdate(xs[..n], a, x);
      assert xs[a := x][..n] == xs[..n][a := x];
    }
  }

  lemma EnterKeepsInv(max: nat, t: Table, target: Option<Target>)
    requires Inv(max, t) && Admit(max, t, target).Ok? && (target.Some? ==> ValidTarget(target.value))
    ensures Inv(max, Enter(t, target))
  {
    hide Key, Held;
    var t' := Enter(t, target);
    HeldAppend(t.admissions, t'.admissions[|t.admissions|]);
    forall a | 0 <= a < |t'.admissions| ensures Entered(t', a) {
      if a < |t.admissions| { assert Entered(t, a); }
    }
  }

  lemma HeldAppend(xs: seq<Admission>, x: Admission)
    ensures Held(xs + [x]) == Held(xs) + (if x.stage.Released? then 0 else 1)
  {
    assert (xs + [x])[..|xs|] == xs;
  }

  lemma RegisterKeepsInv(max: nat, t: Table, a: nat, id: string)
    requires Inv(max, t) && a < |t.admissions| && t.admissions[a].stage.Live? && t.admissions[a].subscriptionID == ""
    requires id != "" && id !in t.cancels
    ensures Inv(max, Register(t, a, id))
  {
    hide Key, Held, ValidTarget;
    var t' := Register(t, a, id);
    HeldUpdate(t.admissions, a, t'.admissions[a]);
    forall b | 0 <= b < |t'.admissions| ensures Entered(t', b) { assert Entered(t, b); }
  }

  lemma UnmapKeepsInv(max: nat, t: Table, a: nat)
    requires Inv(max, t) && a < |t.admissions|
    ensures Inv(max, Unmap(t, a))
  {
    hide Key, Held, ValidTarget;
    if t.admissions[a].stage.Live? {
      var t' := Unmap(t, a);
      HeldUpdate(t.admissions, a, t'.admissions[a]);
      assert Entered(t, a);
      forall b | 0 <= b < |t'.admissions| ensures Entered(t', b) { assert Entered(t, b); }
    }
  }

  lemma ReleaseKeepsInv(max: nat, t: Table, a: nat)
    requires Inv(max, t) && a < |t.admissions|
    ensures Inv(max, Release(t, a))
    ensures t.admissions[a].stage.Unmapped? ==> t.subscriptions > 0
  {
    hide Key, Held, ValidTarget;
    if t.admissions[a].stage.Unmapped? {
      var t' := Release(t, a);
      HeldUpdate(t.admissions, a, t'.admissions[a]);
      forall b | 0 <= b < |t'.admissions| ensures Entered(t', b) { assert Entered(t, b); }
    }
  }

  lemma StepKeepsInv(max: nat, t: Table, e: Event)
    requires Inv(max, t)
    ensures Inv(max, Step(max, t, e))
  {
    hide Inv, Unmap, Release, Register, Enter, Admit;
    match e
    case Begin(target) =>
      if (target.Some? ==> ValidTarget(target.value)) && Admit(max, t, target).Ok? { EnterKeepsInv(max, t, target); }
    case Prepare(a, id) =>
      if a < |t.admissions| && t.admissions[a].stage.Live? && t.admissions[a].subscriptionID == "" {
        if id == "" || id in t.cancels { UnmapKeepsInv(max, t, a); } else { RegisterKeepsInv(max, t, a, id); }
      }
    case CleanUp(a) => if a < |t.admissions| { UnmapKeepsInv(max, t, a); }
    case GiveBack(a) => if a < |t.admissions| { ReleaseKeepsInv(max, t, a); }
    case Close => CloseKeepsInv(max, t);
  }

  lemma CloseKeepsInv(max: nat, t: Table)
    requires Inv(max, t)
    ensures Inv(max, t.(closing := true))
  {
    forall a | 0 <= a < |t.admissions| ensures Entered(t.(closing := true), a) { assert Entered(t, a); }
  }

  lemma {:induction false} RunsKeepInv(max: nat, t: Table, es: seq<Event>)
    requires Inv(max, t)
    ensures Inv(max, RunFrom(max, t, es))
    decreases |es|
  {
    hide Inv, Step;
    if es != [] {
      StepKeepsInv(max, t, es[0]);
      RunsKeepInv(max, Step(max, t, es[0]), es[1..]);
    }
  }

  // ---- Results about every run -----------------------------------------------------------

  /** The counter is the number of admissions not yet released and never exceeds the limit. */
  lemma SlotsAreExact(max: nat, es: seq<Event>)
    ensures Run(max, es).subscriptions == Held(Run(max, es).admissions) <= max
  {
    RunsKeepInv(max, OPENING, es);
  }

  /** A slot is given back exactly once, and the guard against a negative count never decides. */
  lemma SlotReturnedOnce(max: nat, es: seq<Event>, a: nat)
    requires a < |Run(max, es).admissions|
    ensures var t := Run(max, es);
      && (t.admissions[a].stage.Unmapped? ==> Release(t, a).subscriptions == t.subscriptions - 1 >= 0)
      && (!t.admissions[a].stage.Unmapped? ==> Release(t, a) == t)
      && Release(Release(t, a), a) == Release(t, a) && Unmap(Unmap(t, a), a) == Unmap(t, a)
  {
    hide RunFrom;
    RunsKeepInv(max, OPENING, es);
    ReleaseKeepsInv(max, Run(max, es), a);
  }

  /** At most one live admission per session and stream. */
  lemma OneLivePerStream(max: nat, es: seq<Event>, a: nat, b: nat)
    requires var t := Run(max, es);
      && a < |t.admissions| && b < |t.admissions| && t.admissions[a].stage.Live? && t.admissions[b].stage.Live?
      && t.admissions[a].target.Some? && t.admissions[a].target == t.admissions[b].target
    ensures a == b
  {
    hide RunFrom, Key;
    RunsKeepInv(max, OPENING, es);
    assert Entered(Run(max, es), a) && Entered(Run(max, es), b);
  }

  /** While slots are left, a stream is refused exactly when that very stream has a live admission. */
  lemma ConflictIsExact(max: nat, es: seq<Event>, target: Target)
    requires ValidTarget(target)
    ensures var t := Run(max, es);
      !t.closing && t.subscriptions < max ==>
        (Admit(max, t, Some(target)) == Err(Conflict) <==>
           exists a :: 0 <= a < |t.admissions| && t.admissions[a].stage.Live? && t.admissions[a].target == Some(target))
  {
    RunsKeepInv(max, OPENING, es);
    hide RunFrom, Key;
    var t := Run(max, es);
    if Key(target) in t.streams {
      var a := t.streams[Key(target)];
      assert HoldsStream(t.admissions[a], Key(target)) && Entered(t, a);
      KeyInjective(t.admissions[a].target.value, target);
    }
    if a :| 0 <= a < |t.admissions| && t.admissions[a].stage.Live? && t.admissions[a].target == Some(target) {
      assert Entered(t, a);
    }
  }

  /** An admission is granted exactly if the connection is not closing, fewer than the limit hold a slot and, for a
      stream, no live admission has it; a full or closing connection is reported first. */
  lemma AdmissionIsExact(max: nat, es: seq<Event>, target: Option<Target>)
    requires target.Some? ==> ValidTarget(target.value)
    ensures var t := Run(max, es);
      var full := t.closing || Held(t.admissions) >= max;
      var taken := target.Some? &&
        exists a :: 0 <= a < |t.admissions| && t.admissions[a].stage.Live? && t.admissions[a].target == target;
      && Admit(max, t, target) == (if full then Err(ResourceExhausted) else if taken then Err(Conflict)
            else Ok(|t.admissions|))
      && (Step(max, t, Begin(target)) != t <==> !full && !taken)
  {
    SlotsAreExact(max, es);
    if target.Some? { ConflictIsExact(max, es, target.value); }
    hide Run, Key, Held;
    var t := Run(max, es);
    assert Enter(t, target).subscriptions != t.subscriptions;
  }

  /** A credit for a target finds these admissions. */
  ghost function Found(t: Table, target: Target): set<nat> {
    set a | a in t.cancels.Values && a < |t.admissions| && t.admissions[a].target == Some(target)
  }

  /** An acknowledged subscription to a target that has not begun its cleanup. */
  predicate Streaming(t: Table, a: nat, target: Target) {
    && a < |t.admissions| && t.admissions[a].stage.Live?
    && t.admissions[a].subscriptionID != "" && t.admissions[a].target == Some(target)
  }

  /** A credit finds the acknowledged live admission of its stream and nothing else. */
  lemma CreditFindsItsStream(max: nat, es: seq<Event>, target: Target)
    ensures |Found(Run(max, es), target)| <= 1
    ensures forall a: nat :: a in Found(Run(max, es), target) <==> Streaming(Run(max, es), a, target)
  {
    hide RunFrom, Key;
    RunsKeepInv(max, OPENING, es);
    FoundMeans(max, Run(max, es), target);
  }

  lemma FoundMeans(max: nat, t: Table, target: Target)
    requires Inv(max, t)
    ensures |Found(t, target)| <= 1
    ensures forall a: nat :: a in Found(t, target) <==> Streaming(t, a, target)
  {
    hide Key, Held;
    forall a: nat ensures a in Found(t, target) <==> Streaming(t, a, target) {
      if a in Found(t, target) {
        var k :| k in t.cancels && t.cancels[k] == a;
        assert HoldsID(t.admissions[a], k);
      }
      if a < |t.admissions| { assert Entered(t, a); }
    }
    if Found(t, target) != {} {
      var a :| a in Found(t, target);
      forall b | b in Found(t, target) ensures b == a { assert Entered(t, a) && Entered(t, b); }
      assert Found(t, target) == {a};
    }
  }

  /** An index without the entries that name admission a. */
  ghost predicate Dropped(before: map<string, nat>, after: map<string, nat>, a: nat) {
    && (forall k :: k in after <==> k in before && before[k] != a)
    && (forall k :: k in after ==> after[k] == before[k])
  }

  /** Whatever else has happened since an admission began, its cleanup takes exactly its own entries out of both
      indexes. */
  lemma CleanupTakesItsOwn(max: nat, es: seq<Event>, a: nat)
    requires a < |Run(max, es).admissions|
    ensures var t, t' := Run(max, es), Unmap(Run(max, es), a);
      && Dropped(t.streams, t'.streams, a) && Dropped(t.cancels, t'.cancels, a)
      && t'.subscriptions == t.subscriptions && t'.closing == t.closing && |t'.admissions| == |t.admissions|
      && (forall b :: 0 <= b < |t.admissions| && b != a ==> t'.admissions[b] == t.admissions[b])
  {
    RunsKeepInv(max, OPENING, es);
    hide RunFrom, Key;
    assert Entered(Run(max, es), a);
  }

  /** From the cleanup on, in every later state, no entry names the admission, and returning its slot changes the
      counter alone. */
  lemma CleanedUpLeavesNothing(max: nat, es: seq<Event>, a: nat)
    requires a < |Run(max, es).admissions| && !Run(max, es).admissions[a].stage.Live?
    ensures var t := Run(max, es);
      && (forall k :: k in t.streams ==> t.streams[k] != a) && (forall k :: k in t.cancels ==> t.cancels[k] != a)
      && Release(t, a).streams == t.streams && Release(t, a).cancels == t.cancels
      && Release(t, a).subscriptions == t.subscriptions - (if t.admissions[a].stage.Unmapped? then 1 else 0)
  {
    RunsKeepInv(max, OPENING, es);
    hide RunFrom, Key;
    ReleaseKeepsInv(max, Run(max, es), a);
  }

  /** What has been cleaned up stays cleaned up. */
  lemma {:induction false} CleanedUpForGood(max: nat, t: Table, es: seq<Event>, a: nat)
    requires a < |t.admissions| && !t.admissions[a].stage.Live?
    ensures var later := RunFrom(max, t, es); a < |later.admissions| && !later.admissions[a].stage.Live?
    decreases |es|
  {
    if es != [] {
      hide Key, Admit;
      CleanedUpForGood(max, Step(max, t, es[0]), es[1..], a);
    }
  }

  /** An ID is refused as taken exactly when a live admission holds it. */
  lemma TakenIDIsExact(max: nat, es: seq<Event>, id: string)
    requires id != ""
    ensures var t := Run(max, es);
      id in t.cancels <==> exists a :: 0 <= a < |t.admissions| && HoldsID(t.admissions[a], id)
  {
    RunsKeepInv(max, OPENING, es);
    hide RunFrom, Key;
    var t := Run(max, es);
    if a :| 0 <= a < |t.admissions| && HoldsID(t.admissions[a], id) { assert Entered(t, a); }
  }

  /** An acknowledgement gets its ID exactly if the ID is not empty and no live admission holds it; otherwise the
      admission is cleaned up at once. */
  lemma PrepareIsExact(max: nat, es: seq<Event>, a: nat, id: string)
    requires var t := Run(max, es);
      a < |t.admissions| && t.admissions[a].stage.Live? && t.admissions[a].subscriptionID == ""
    ensures var t, t' := Run(max, es), Step(max, Run(max, es), Prepare(a, id));
      var free := id != "" && !exists b :: 0 <= b < |t.admissions| && HoldsID(t.admissions[b], id);
      && |t'.admissions| == |t.admissions|
      && (free <==> HoldsID(t'.admissions[a], id)) && (free <==> t'.admissions[a].stage.Live?)
      && (free ==> id in t'.cancels && t'.cancels[id] == a)
  {
    if id != "" { TakenIDIsExact(max, es, id); }
    hide Run, Key, Held;
  }

  /** An admission that is prepared and then cleaned up: what is left of it. */
  ghost function Undone(max: nat, t: Table, target: Option<Target>, id: string): Table {
    var a := |t.admissions|;
    Step(max, Step(max, Step(max, Step(max, t, Begin(target)), Prepare(a, id)), CleanUp(a)), GiveBack(a))
  }

  /** Undoing an admission whose acknowledgement was prepared, or could not be, gives back the slot and both index
      entries. */
  lemma RollbackRestores(max: nat, es: seq<Event>, target: Option<Target>, id: string)
    requires (target.Some? ==> ValidTarget(target.value)) && Admit(max, Run(max, es), target).Ok?
    ensures var t := Run(max, es); var u := Undone(max, t, target, id);
      && u.subscriptions == t.subscriptions && u.streams == t.streams && u.cancels == t.cancels
      && |u.admissions| == |t.admissions| + 1 && u.admissions[..|t.admissions|] == t.admissions
  {
    hide RunFrom, Key, Unmap, Register, Enter, Admit;
    RunsKeepInv(max, OPENING, es);
    var t := Run(max, es);
    hide Run, Inv;
    var t1 := Step(max, t, Begin(target));
    assert t1 == Enter(t, target);
    FreshAdmission(t, target);
    var t2 := Step(max, t1, Prepare(|t.admissions|, id));
    UndoneMaps(max, t, target, id, t1, t2, Step(max, t2, CleanUp(|t.admissions|)));
  }

  lemma FreshAdmission(t: Table, target: Option<Target>)
    ensures Enter(t, target).admissions == t.admissions + [Admission(target, "", Live)]
  {
  }

  lemma UndoneMaps(max: nat, t: Table, target: Option<Target>, id: string, t1: Table, t2: Table, t3: Table)
    requires Inv(max, t) && Admit(max, t, target).Ok? && t1 == Enter(t, target)
    requires t2 == if id == "" || id in t1.cancels then Unmap(t1, |t.admissions|) else Register(t1, |t.admissions|, id)
    requires t3 == Unmap(t2, |t.admissions|)
    ensures t3.streams == t.streams && t3.cancels == t.cancels && t3.subscriptions == t.subscriptions + 1
    ensures |t3.admissions| == |t2.admissions| == |t.admissions| + 1
    ensures t3.admissions[..|t.admissions|] == t.admissions && t3.admissions[|t.admissions|].stage.Unmapped?
  {
    hide Key, Held;
  }

  // ---- The connection, updated in place --------------------------------------------------

  class Connection {
    const maxSubscriptions: nat
    var admissions: seq<Admission>
    var terminalStreams: map<string, nat>
    var subscriptionCancels: map<string, nat>
    var subscriptions: int
    var closing: bool

    constructor (maxSubscriptions: nat)
      ensures this.maxSubscriptions == maxSubscriptions && Now() == OPENING && Valid()
    {
      this.maxSubscriptions := maxSubscriptions;
      admissions, terminalStreams, subscriptionCancels, subscriptions, closing := [], map[], map[], 0, false;
    }

    function Now(): Table reads this {
      Table(admissions, terminalStreams, subscriptionCancels, subscriptions, closing)
    }

    ghost predicate Valid() reads this {
      Inv(maxSubscriptions, Now())
    }

    method BeginSubscription(target: Option<Target>) returns (r: Result<nat>)
      requires Valid() && (target.Some? ==> ValidTarget(target.value))
      modifies this
      ensures Valid() && r == Admit(maxSubscriptions, old(Now()), target)
      ensures Now() == if r.Ok? then Enter(old(Now()), target) else old(Now())
    {
      hide Inv, Key;
      if closing || subscriptions >= maxSubscriptions { return Err(ResourceExhausted); }
      if target.Some? && Key(target.value) in terminalStreams { return Err(Conflict); }
      EnterKeepsInv(maxSubscriptions, Now(), target);
      r := Ok(|admissions|);
      subscriptions := subscriptions + 1;
      if target.Some? { terminalStreams := terminalStreams[Key(target.value) := |admissions|]; }
      admissions := admissions + [Admission(target, "", Live)];
    }

    /** `id` is the acknowledged subscription ID; an invalid or taken one cleans the admission up. */
    method Prepare(a: nat, id: string) returns (r: Option<ErrorCode>)
      requires Valid() && a < |admissions| && admissions[a].stage.Live? && admissions[a].subscriptionID == ""
      modifies this
      ensures Valid() && Now() == Step(maxSubscriptions, old(Now()), Event.Prepare(a, id))
      ensures r == if id == "" then Some(InvalidArgument) else if old(id in subscriptionCancels) then Some(Conflict)
          else None
    {
      hide Inv, Key;
      if id == "" || id in subscriptionCancels {
        r := Some(if id == "" then InvalidArgument else Conflict);
        Cleanup(a);
        return;
      }
      RegisterKeepsInv(maxSubscriptions, Now(), a, id);
      admissions := admissions[a := admissions[a].(subscriptionID := id)];
      subscriptionCancels := subscriptionCancels[id := a];
      return None;
    }

    /** The part of a cleanup made under the connection's mutex. */
    method Cleanup(a: nat)
      requires Valid() && a < |admissions|
      modifies this
      ensures Valid() && Now() == Unmap(old(Now()), a)
    {
      hide Inv, Key;
      UnmapKeepsInv(maxSubscriptions, Now(), a);
      var x := admissions[a];
      if !x.stage.Live? { return; }
      admissions := admissions[a := x.(stage := Unmapped)];
      if x.target.Some? && Key(x.target.value) in terminalStreams && terminalStreams[Key(x.target.value)] == a {
        terminalStreams := terminalStreams - {Key(x.target.value)};
      }
      if x.subscriptionID != "" && x.subscriptionID in subscriptionCancels
          && subscriptionCancels[x.subscriptionID] == a {
        subscriptionCancels := subscriptionCancels - {x.subscriptionID};
      }
    }

    method ReleaseSubscription(a: nat)
      requires Valid() && a < |admissions| && admissions[a].stage.Unmapped?
      modifies this
      ensures Valid() && Now() == Release(old(Now()), a)
    {
      hide Inv;
      ReleaseKeepsInv(maxSubscriptions, Now(), a);
      admissions := admissions[a := admissions[a].(stage := Stage.Released)];
      if subscriptions > 0 { subscriptions := subscriptions - 1; }
    }

    /** Finds the admission a credit applies to; anything but one match is refused. */
    method FindCredit(target: Target) returns (r: Result<nat>)
      requires Valid()
      ensures r.Ok? <==> Found(Now(), target) != {}
      ensures r.Ok? ==> Found(Now(), target) == {r.value}
      ensures r.Err? ==> r.code == InvalidArgument
    {
      hide Inv, Found, FoundAmong, Streaming;
      FoundMeans(maxSubscriptions, Now(), target);
      InRange(maxSubscriptions, Now());
      NothingFound(Now(), target);
      ghost var keys := subscriptionCancels.Keys;
      assert keys - keys == {};
      var matches: set<nat> := {};
      var rest := subscriptionCancels.Keys;
      while rest != {}
        invariant rest <= keys
        invariant matches == FoundAmong(Now(), keys - rest, target)
        decreases |rest|
      {
        var k :| k in rest;
        FoundGrows(Now(), keys - rest, k, target);
        assert keys - (rest - {k}) == (keys - rest) + {k};
        var a := subscriptionCancels[k];
        if admissions[a].target == Some(target) { matches := matches + {a}; }
        rest := rest - {k};
      }
      assert keys - rest == keys;
      FoundAll(Now(), target);
      if |matches| != 1 { return Err(InvalidArgument); }
      var a :| a in matches;
      Singleton(matches, a);
      return Ok(a);
    }
  }

  lemma InRange(max: nat, t: Table)
    requires Inv(max, t)
    ensures forall k :: k in t.cancels ==> t.cancels[k] < |t.admissions|
  {
  }

  /** What a search that has looked at some of the IDs has found. */
  ghost function FoundAmong(t: Table, ids: set<string>, target: Target): set<nat> {
    set k | k in ids && k in t.cancels && t.cancels[k] < |t.admissions|
        && t.admissions[t.cancels[k]].target == Some(target) :: t.cancels[k]
  }

  lemma NothingFound(t: Table, target: Target)
    ensures FoundAmong(t, {}, target) == {}
  {
  }

  lemma Singleton(s: set<nat>, a: nat)
    requires a in s && |s| == 1
    ensures s == {a}
  {
    assert |s - {a}| == 0;
  }

  lemma FoundGrows(t: Table, ids: set<string>, k: string, target: Target)
    requires k in t.cancels && t.cancels[k] < |t.admissions|
    ensures FoundAmong(t, ids + {k}, target) ==
            FoundAmong(t, ids, target)
            + (if t.admissions[t.cancels[k]].target == Some(target) then {t.cancels[k]} else {})
  {
  }

  lemma FoundAll(t: Table, target: Target)
    ensures FoundAmong(t, t.cancels.Keys, target) == Found(t, target)
  {
  }
}
