/**
 The event sequence tracker.  It keeps two indexes over the cursors it has
 recorded, one by event ID and one by sequence number within a stream.
 */
module EventTracker {
  import opened Base

  datatype StreamKey = StreamKey(provider: string, role: string, stream: string)
  datatype IdKey = IdKey(stream: StreamKey, event: string)

  datatype Cursor = Cursor(provider: string, role: string, stream: string, event: string, sequence: u64, digest: string)
  {
    function Stream(): StreamKey { StreamKey(provider, role, stream) }
    function Id(): IdKey { IdKey(Stream(), event) }
  }

  datatype Outcome = Accepted | Duplicate | Gap

  datatype StreamState = StreamState(highest: u64, seen: map<u64, Cursor>)

  datatype Tracker = Tracker(streams: map<StreamKey, StreamState>, eventIDs: map<IdKey, Cursor>)

  datatype Observed = Observed(tracker: Tracker, result: Result<Outcome>)

  const EMPTY := Tracker(map[], map[])

  /** The field patterns are abstract; a zero sequence is refused outright. */
  predicate WellFormed(fields: Cursor -> bool, c: Cursor) {
    fields(c) && c.sequence != 0
  }

  /** One observation, branch for branch; note that the stream entry is created before its sequence is looked up. */
  function ObserveStep(fields: Cursor -> bool, t: Tracker, c: Cursor): Observed {
    if !WellFormed(fields, c) then Observed(t, Err(InvalidArgument))
    else if c.Id() in t.eventIDs then
      Observed(t, if t.eventIDs[c.Id()] == c then Ok(Duplicate) else Err(SequenceConflict))
    else
      var s := if c.Stream() in t.streams then t.streams[c.Stream()] else StreamState(0, map[]);
      var t' := t.(streams := t.streams[c.Stream() := s]);
      if c.sequence in s.seen then
        var prior := s.seen[c.sequence];
        var same := prior.event == c.event && prior.digest == c.digest;
        Observed(t', if same then Ok(Duplicate) else Err(SequenceConflict))
      else
        var outcome := if s.highest != 0 && c.sequence > WrapAdd(s.highest, 1) then Gap else Accepted;
        var s' := StreamState(if c.sequence > s.highest then c.sequence else s.highest, s.seen[c.sequence := c]);
        Observed(Tracker(t'.streams[c.Stream() := s'], t.eventIDs[c.Id() := c]), Ok(outcome))
  }

  /** The tracker itself, updated in place. */
  class SequenceTracker {
    const fields: Cursor -> bool
    var streams: map<StreamKey, StreamState>
    var eventIDs: map<IdKey, Cursor>

    constructor (fields: Cursor -> bool)
      ensures this.fields == fields && Now() == EMPTY
    {
      this.fields := fields;
      streams, eventIDs := map[], map[];
    }

    function Now(): Tracker reads this {
      Tracker(streams, eventIDs)
    }

    method Observe(cursor: Cursor) returns (result: Result<Outcome>)
      modifies this
      ensures Observed(Now(), result) == ObserveStep(fields, old(Now()), cursor)
    {
      if !fields(cursor) || cursor.sequence == 0 { return Err(InvalidArgument); }
      var streamKey, idKey := cursor.Stream(), cursor.Id();
      if idKey in eventIDs {
        if eventIDs[idKey] == cursor { return Ok(Duplicate); }
        return Err(SequenceConflict);
      }
      if streamKey !in streams {
        streams := streams[streamKey := StreamState(0, map[])];
      }
      var stream := streams[streamKey];
      if cursor.sequence in stream.seen {
        var prior := stream.seen[cursor.sequence];
        assert streams == old(streams)[streamKey := stream];
        if prior.event == cursor.event && prior.digest == cursor.digest { return Ok(Duplicate); }
        return Err(SequenceConflict);
      }
      var outcome := Accepted;
      if stream.highest != 0 && cursor.sequence > WrapAdd(stream.highest, 1) { outcome := Gap; }
      stream := stream.(seen := stream.seen[cursor.sequence := cursor]);
      eventIDs := eventIDs[idKey := cursor];
      if cursor.sequence > stream.highest { stream := stream.(highest := cursor.sequence); }
      streams := streams[streamKey := stream];
      return Ok(outcome);
    }
  }

  // ---- The two indexes are mutually inverse ----------------------------------------------

  /** The stream index holds this cursor under its own keys, and nothing above `highest`. */
  ghost predicate StreamConsistent(t: Tracker, k: StreamKey)
    requires k in t.streams
  {
    var s := t.streams[k];
    && s.highest in s.seen
    && forall n :: n in s.seen ==>
        && 0 < n <= s.highest
        && s.seen[n].sequence == n && s.seen[n].Stream() == k
        && s.seen[n].Id() in t.eventIDs && t.eventIDs[s.seen[n].Id()] == s.seen[n]
  }

  ghost predicate IdConsistent(t: Tracker, id: IdKey)
    requires id in t.eventIDs
  {
    var c := t.eventIDs[id];
    && c.Id() == id && c.Stream() in t.streams
    && c.sequence in t.streams[c.Stream()].seen && t.streams[c.Stream()].seen[c.sequence] == c
  }

  ghost predicate Consistent(t: Tracker) {
    && (forall k :: k in t.streams ==> StreamConsistent(t, k))
    && (forall id :: id in t.eventIDs ==> IdConsistent(t, id))
  }

  ghost function Recorded(t: Tracker): set<Cursor> { t.eventIDs.Values }

  /** Distinct cursors share neither an event ID nor a sequence number in one stream. */
  ghost predicate Clash(c: Cursor, d: Cursor) {
    c != d && (c.Id() == d.Id() || (c.Stream() == d.Stream() && c.sequence == d.sequence))
  }

  ghost predicate ConflictFree(fields: Cursor -> bool, cs: set<Cursor>) {
    && (forall c :: c in cs ==> WellFormed(fields, c))
    && (forall c, d :: c in cs && d in cs ==> !Clash(c, d))
  }

  lemma RecordedIn(t: Tracker, c: Cursor)
    requires Consistent(t)
    ensures c in Recorded(t) <==> c.Id() in t.eventIDs && t.eventIDs[c.Id()] == c
  {
    if c in Recorded(t) {
      var id :| id in t.eventIDs && t.eventIDs[id] == c;
      assert IdConsistent(t, id);
    }
  }

  /** Exactly what one observation does in a consistent tracker, in terms of the recorded set alone. */
  lemma ObserveMeans(fields: Cursor -> bool, t: Tracker, c: Cursor)
    requires Consistent(t)
    ensures var o := ObserveStep(fields, t, c);
      && Consistent(o.tracker)
      && (!WellFormed(fields, c) ==> o == Observed(t, Err(InvalidArgument)))
      && (WellFormed(fields, c) && c in Recorded(t) ==> o == Observed(t, Ok(Duplicate)))
      && (WellFormed(fields, c) && c !in Recorded(t) && (exists d :: d in Recorded(t) && Clash(c, d)) ==>
            o == Observed(t, Err(SequenceConflict)))
      && (WellFormed(fields, c) && c !in Recorded(t) && !(exists d :: d in Recorded(t) && Clash(c, d)) ==>
            o.result in {Ok(Accepted), Ok(Gap)} && Recorded(o.tracker) == Recorded(t) + {c})
  {
    RecordedIn(t, c);
    if WellFormed(fields, c) {
      if c.Id() in t.eventIDs {
        var d := t.eventIDs[c.Id()];
        assert IdConsistent(t, c.Id());
        assert d in Recorded(t);
        assert c != d ==> Clash(c, d);
      } else if c.Stream() in t.streams && c.sequence in t.streams[c.Stream()].seen {
        SeenMeans(fields, t, c);
      } else {
        FreshMeans(fields, t, c);
        InsertKeepsConsistent(t, c);
        InsertRecords(t, c);
        forall d | d in Recorded(t) ensures !Clash(c, d) { FreshNeverClashes(t, c, d); }
      }
    }
  }

  /** A sequence number already taken is always taken by another event ID: the second duplicate branch is never
      taken. */
  lemma SeenMeans(fields: Cursor -> bool, t: Tracker, c: Cursor)
    requires Consistent(t) && WellFormed(fields, c) && c.Id() !in t.eventIDs
    requires c.Stream() in t.streams && c.sequence in t.streams[c.Stream()].seen
    ensures var prior := t.streams[c.Stream()].seen[c.sequence];
      prior.event != c.event && prior in Recorded(t) && Clash(c, prior)
    ensures ObserveStep(fields, t, c) == Observed(t, Err(SequenceConflict))
  {
    assert StreamConsistent(t, c.Stream());
    var prior := t.streams[c.Stream()].seen[c.sequence];
    RecordedIn(t, prior);
    assert t.streams[c.Stream() := t.streams[c.Stream()]] == t.streams;
  }

  predicate Fresh(t: Tracker, c: Cursor) {
    c.Id() !in t.eventIDs && (c.Stream() in t.streams ==> c.sequence !in t.streams[c.Stream()].seen)
  }

  /** The tracker with a fresh cursor entered in both indexes. */
  function Insert(t: Tracker, c: Cursor): Tracker {
    var s := if c.Stream() in t.streams then t.streams[c.Stream()] else StreamState(0, map[]);
    var highest := if c.sequence > s.highest then c.sequence else s.highest;
    Tracker(t.streams[c.Stream() := StreamState(highest, s.seen[c.sequence := c])], t.eventIDs[c.Id() := c])
  }

  lemma InsertKeepsStream(t: Tracker, c: Cursor, k: StreamKey)
    requires Consistent(t) && Fresh(t, c) && c.sequence != 0 && k in Insert(t, c).streams
    ensures StreamConsistent(Insert(t, c), k)
  {
    if k in t.streams { assert StreamConsistent(t, k); }
  }

  lemma InsertKeepsConsistent(t: Tracker, c: Cursor)
    requires Consistent(t) && Fresh(t, c) && c.sequence != 0
    ensures Consistent(Insert(t, c))
  {
    hide StreamConsistent, IdConsistent, Insert, Fresh;
    var t' := Insert(t, c);
    forall k | k in t'.streams ensures StreamConsistent(t', k) { InsertKeepsStream(t, c, k); }
    forall id | id in t'.eventIDs ensures IdConsistent(t', id) { InsertKeepsId(t, c, id); }
  }

  lemma InsertKeepsId(t: Tracker, c: Cursor, id: IdKey)
    requires Consistent(t) && Fresh(t, c) && id in Insert(t, c).eventIDs
    ensures IdConsistent(Insert(t, c), id)
  {
    hide StreamConsistent;
    if id != c.Id() { assert IdConsistent(t, id); }
  }

  lemma InsertRecords(t: Tracker, c: Cursor)
    requires Consistent(t) && Fresh(t, c) && c.sequence != 0
    ensures Recorded(Insert(t, c)) == Recorded(t) + {c}
  {
    InsertKeepsConsistent(t, c);
    var t' := Insert(t, c);
    assert t'.eventIDs == t.eventIDs[c.Id() := c] && c.Id() !in t.eventIDs;
    hide Consistent, Insert, Recorded;
    forall d ensures d in Recorded(t') <==> d in Recorded(t) + {c} {
      RecordedIn(t, d);
      RecordedIn(t', d);
    }
  }

  lemma FreshNeverClashes(t: Tracker, c: Cursor, d: Cursor)
    requires Consistent(t) && Fresh(t, c) && d in Recorded(t)
    ensures !Clash(c, d)
  {
    RecordedIn(t, d);
    assert IdConsistent(t, d.Id());
  }

  lemma FreshMeans(fields: Cursor -> bool, t: Tracker, c: Cursor)
    requires WellFormed(fields, c) && Fresh(t, c)
    ensures var o := ObserveStep(fields, t, c);
      o.tracker == Insert(t, c) && o.result in {Ok(Accepted), Ok(Gap)}
  {
    assert ObserveStep(fields, t, c).tracker.streams == Insert(t, c).streams;
  }

  // ---- Whole runs ------------------------------------------------------------------------

  datatype Delivery = Delivery(tracker: Tracker, results: seq<Result<Outcome>>)

  /** Observing a list of cursors in order, whatever each one answers. */
  function Deliver(fields: Cursor -> bool, cs: seq<Cursor>): (d: Delivery)
    ensures |d.results| == |cs|
  {
    if cs == [] then Delivery(EMPTY, []) else
    var d := Deliver(fields, cs[..|cs| - 1]);
    var o := ObserveStep(fields, d.tracker, cs[|cs| - 1]);
    Delivery(o.tracker, d.results + [o.result])
  }

  /** Every reachable tracker has mutually inverse indexes and records only what was delivered. */
  lemma {:induction false} ReachableConsistent(fields: Cursor -> bool, cs: seq<Cursor>)
    ensures Consistent(Deliver(fields, cs).tracker)
    ensures forall c :: c in Recorded(Deliver(fields, cs).tracker) ==> c in cs
  {
    if cs != [] {
      var last := cs[|cs| - 1];
      ReachableConsistent(fields, cs[..|cs| - 1]);
      ObserveMeans(fields, Deliver(fields, cs[..|cs| - 1]).tracker, last);
    }
  }

  /** A refused cursor leaves no trace. */
  lemma RefusedRecordsNothing(fields: Cursor -> bool, cs: seq<Cursor>, c: Cursor)
    ensures var t := Deliver(fields, cs).tracker;
      ObserveStep(fields, t, c).result.Err? || ObserveStep(fields, t, c).result == Ok(Duplicate) ==>
        ObserveStep(fields, t, c).tracker == t
  {
    ReachableConsistent(fields, cs);
    ObserveMeans(fields, Deliver(fields, cs).tracker, c);
  }

  /** A gap is reported exactly when some number between the highest and the new sequence is missing, except that once
      the highest number is 2^64-1 the increment wraps and every late arrival is reported as a gap. */
  lemma GapExactly(fields: Cursor -> bool, cs: seq<Cursor>, c: Cursor)
    ensures var t := Deliver(fields, cs).tracker;
      WellFormed(fields, c) && Fresh(t, c) ==>
        var highest: int := if c.Stream() in t.streams then t.streams[c.Stream()].highest else 0;
        var result := ObserveStep(fields, t, c).result;
        && result in {Ok(Accepted), Ok(Gap)}
        && (highest < U64_LIMIT - 1 ==>
             (result == Ok(Gap) <==>
               highest != 0 && exists n :: highest < n < c.sequence && n !in t.streams[c.Stream()].seen))
        && (highest == U64_LIMIT - 1 ==> result == Ok(Gap) && c.sequence < highest)
  {
    ReachableConsistent(fields, cs);
    hide Deliver;
    var t := Deliver(fields, cs).tracker;
    if WellFormed(fields, c) && Fresh(t, c) {
      GapAnswer(fields, t, c);
      hide ObserveStep;
      if c.Stream() in t.streams {
        assert StreamConsistent(t, c.Stream());
        var highest: int := t.streams[c.Stream()].highest;
        if c.sequence > highest + 1 { assert highest + 1 !in t.streams[c.Stream()].seen; }
      }
    }
  }

  /** What the code compares to tell a gap. */
  lemma GapAnswer(fields: Cursor -> bool, t: Tracker, c: Cursor)
    requires WellFormed(fields, c) && Fresh(t, c)
    ensures var result := ObserveStep(fields, t, c).result;
      var highest: u64 := if c.Stream() in t.streams then t.streams[c.Stream()].highest else 0;
      && result in {Ok(Accepted), Ok(Gap)}
      && (result == Ok(Gap) <==> highest != 0 && c.sequence > WrapAdd(highest, 1))
  {
  }

  /** The wrap is reachable in every stream: after 2^64-1, any other event with a lower number is reported as a gap. */
  lemma GapWrapsAtLimit(fields: Cursor -> bool, a: Cursor, b: Cursor)
    requires WellFormed(fields, a) && WellFormed(fields, b) && a.Stream() == b.Stream() && a.event != b.event
    requires a.sequence == U64_LIMIT - 1 && b.sequence != a.sequence
    ensures Deliver(fields, [a, b]).results == [Ok(Accepted), Ok(Gap)]
  {
    assert [a, b][..1] == [a] && [a][..0] == [];
    assert Deliver(fields, [a]).results == [Ok(Accepted)];
  }

  ghost function Elements<T>(cs: seq<T>): set<T> { set c | c in cs }

  /** The i-th answer is a duplicate exactly when the i-th cursor was delivered before. */
  ghost predicate RepeatsAreDuplicates(cs: seq<Cursor>, results: seq<Result<Outcome>>) {
    && |results| == |cs|
    && forall i :: 0 <= i < |cs| ==> results[i].Ok? && (results[i] == Ok(Duplicate) <==> cs[i] in cs[..i])
  }

  lemma RepeatsExtend(cs: seq<Cursor>, results: seq<Result<Outcome>>, c: Cursor, r: Result<Outcome>)
    requires RepeatsAreDuplicates(cs, results) && r.Ok? && (r == Ok(Duplicate) <==> c in cs)
    ensures RepeatsAreDuplicates(cs + [c], results + [r])
  {
    forall i | 0 <= i < |cs| ensures (cs + [c])[..i] == cs[..i] {}
    assert (cs + [c])[..|cs|] == cs;
  }

  /** Delivering conflict-free cursors: the recorded set is what was delivered, and exactly the repeats are
      duplicates. */
  lemma {:induction false} ConflictFreeDelivery(fields: Cursor -> bool, cs: seq<Cursor>)
    requires ConflictFree(fields, Elements(cs))
    ensures Recorded(Deliver(fields, cs).tracker) == Elements(cs)
    ensures RepeatsAreDuplicates(cs, Deliver(fields, cs).results)
  {
    if cs != [] {
      var head, last := cs[..|cs| - 1], cs[|cs| - 1];
      assert cs == head + [last];
      assert Elements(cs) == Elements(head) + {last};
      ConflictFreeDelivery(fields, head);
      ConflictFreeOne(fields, head, last);
      var answer := ObserveStep(fields, Deliver(fields, head).tracker, last).result;
      RepeatsExtend(head, Deliver(fields, head).results, last, answer);
    }
  }

  lemma ConflictFreeOne(fields: Cursor -> bool, cs: seq<Cursor>, c: Cursor)
    requires ConflictFree(fields, Elements(cs) + {c}) && Recorded(Deliver(fields, cs).tracker) == Elements(cs)
    ensures var o := ObserveStep(fields, Deliver(fields, cs).tracker, c);
      && o.result.Ok? && Recorded(o.tracker) == Elements(cs) + {c}
      && (o.result == Ok(Duplicate) <==> c in cs)
  {
    ReachableConsistent(fields, cs);
    var t := Deliver(fields, cs).tracker;
    forall d | d in Recorded(t) ensures !Clash(c, d) {}
    ObserveMeans(fields, t, c);
  }

  /** A consistent tracker is determined by the set it has recorded. */
  lemma RecordedDetermines(t: Tracker, u: Tracker)
    requires Consistent(t) && Consistent(u) && Recorded(t) == Recorded(u)
    ensures t == u
  {
    EventIDsAgree(t, u);
    StreamsAgree(t, u);
  }

  lemma EventIDsAgree(t: Tracker, u: Tracker)
    requires Consistent(t) && Consistent(u) && Recorded(t) == Recorded(u)
    ensures t.eventIDs == u.eventIDs
  {
    forall id | id in t.eventIDs ensures id in u.eventIDs && u.eventIDs[id] == t.eventIDs[id] {
      IdDetermined(t, u, id);
    }
    forall id | id in u.eventIDs ensures id in t.eventIDs { IdDetermined(u, t, id); }
  }

  lemma StreamsAgree(t: Tracker, u: Tracker)
    requires Consistent(t) && Consistent(u) && t.eventIDs == u.eventIDs
    ensures t.streams == u.streams
  {
    forall k | k in t.streams ensures k in u.streams && u.streams[k] == t.streams[k] { StreamsDetermined(t, u, k); }
    forall k | k in u.streams ensures k in t.streams { StreamsDetermined(u, t, k); }
  }

  lemma StreamsDetermined(t: Tracker, u: Tracker, k: StreamKey)
    requires Consistent(t) && Consistent(u) && t.eventIDs == u.eventIDs && k in t.streams
    ensures k in u.streams && u.streams[k] == t.streams[k]
  {
    StreamDetermined(t, u, k);
    StreamDetermined(u, t, k);
    assert t.streams[k].seen == u.streams[k].seen;
    assert StreamConsistent(t, k) && StreamConsistent(u, k);
  }

  lemma IdDetermined(t: Tracker, u: Tracker, id: IdKey)
    requires Consistent(t) && Consistent(u) && Recorded(t) <= Recorded(u) && id in t.eventIDs
    ensures id in u.eventIDs && u.eventIDs[id] == t.eventIDs[id]
  {
    assert IdConsistent(t, id);
    assert t.eventIDs[id] in Recorded(t);
    RecordedIn(u, t.eventIDs[id]);
  }

  lemma StreamDetermined(t: Tracker, u: Tracker, k: StreamKey)
    requires Consistent(t) && Consistent(u) && t.eventIDs == u.eventIDs && k in t.streams
    ensures k in u.streams
    ensures forall n :: n in t.streams[k].seen ==>
        n in u.streams[k].seen && u.streams[k].seen[n] == t.streams[k].seen[n]
  {
    assert StreamConsistent(t, k);
    forall n | n in t.streams[k].seen
      ensures k in u.streams && n in u.streams[k].seen && u.streams[k].seen[n] == t.streams[k].seen[n]
    {
      assert IdConsistent(u, t.streams[k].seen[n].Id());
    }
  }

  /** Any order and any number of repeats of the same conflict-free cursors end in the same tracker. */
  lemma DeliveryOrderIrrelevant(fields: Cursor -> bool, cs: seq<Cursor>, ds: seq<Cursor>)
    requires Elements(cs) == Elements(ds) && ConflictFree(fields, Elements(cs))
    ensures Deliver(fields, cs).tracker == Deliver(fields, ds).tracker
  {
    ConflictFreeDelivery(fields, cs);
    ConflictFreeDelivery(fields, ds);
    ReachableConsistent(fields, cs);
    ReachableConsistent(fields, ds);
    RecordedDetermines(Deliver(fields, cs).tracker, Deliver(fields, ds).tracker);
  }
}
