/** The control-plane journal: every delivery the tracker does not call a duplicate is committed once, numbered from
    one. */
module EventJournal {
  import opened Base
  import opened EventTracker

  /** An event is represented by the cursor derived from it. */
  datatype Record = Record(journalSequence: nat, cursor: Cursor)

  datatype IngestResult = IngestResult(outcome: Outcome, journalSequence: nat)

  predicate Commits(r: Result<Outcome>) {
    r.Ok? && r.value != Duplicate
  }

  /** The journal left by a list of deliveries. */
  function Journal(fields: Cursor -> bool, cs: seq<Cursor>): seq<Record> {
    if cs == [] then [] else
    var head := cs[..|cs| - 1];
    var r := ObserveStep(fields, Deliver(fields, head).tracker, cs[|cs| - 1]).result;
    var j := Journal(fields, head);
    if Commits(r) then j + [Record(|j| + 1, cs[|cs| - 1])] else j
  }

  /** `None` is a delivery that does not decode. */
  class ControlPlane {
    const tracker: SequenceTracker
    var next: nat
    var records: seq<Record>
    ghost var delivered: seq<Cursor>

    constructor (fields: Cursor -> bool)
      ensures Valid() && fresh(tracker) && tracker.fields == fields && records == [] && delivered == []
    {
      tracker := new SequenceTracker(fields);
      next, records, delivered := 0, [], [];
    }

    /** The journal is the one its deliveries determine. */
    ghost predicate Valid() reads this, tracker {
      && tracker.Now() == Deliver(tracker.fields, delivered).tracker
      && records == Journal(tracker.fields, delivered)
      && next == |records|
    }

    method IngestOne(c: Cursor) returns (outcome: Result<Outcome>, number: nat)
      requires Valid()
      modifies this, tracker
      ensures Valid() && delivered == old(delivered) + [c]
      ensures outcome == ObserveStep(tracker.fields, Deliver(tracker.fields, old(delivered)).tracker, c).result
      ensures number == if Commits(outcome) then |old(records)| + 1 else 0
    {
      outcome := tracker.Observe(c);
      DeliverOneMore(tracker.fields, delivered, c);
      delivered := delivered + [c];
      number := 0;
      if outcome.Ok? && outcome.value != Duplicate {
        next := next + 1;
        number := next;
        records := records + [Record(next, c)];
      }
    }

    /** On an error the deliveries before it stay committed. */
    method Ingest(deliveries: seq<Option<Cursor>>) returns (results: Result<seq<IngestResult>>)
      requires Valid()
      modifies this, tracker
      ensures Valid()
      ensures old(delivered) <= delivered && |delivered| - |old(delivered)| <= |deliveries|
      ensures forall i :: 0 <= i < |delivered| - |old(delivered)| ==>
                deliveries[i] == Some(delivered[|old(delivered)| + i])
      ensures results.Ok? ==> |delivered| - |old(delivered)| == |deliveries| == |results.value|
      ensures results.Ok? ==> AnswersFrom(tracker.fields, delivered, |old(delivered)|, results.value)
      ensures results.Err? ==>
        StopsAt(tracker.fields, delivered, |old(delivered)|, deliveries, |delivered| - |old(delivered)|, results.code)
    {
      hide Deliver, Journal;
      var out: seq<IngestResult> := [];
      for i := 0 to |deliveries|
        invariant Valid() && |out| == i
        invariant old(delivered) <= delivered && |delivered| == |old(delivered)| + i
        invariant forall k :: 0 <= k < i ==> deliveries[k] == Some(delivered[|old(delivered)| + k])
        invariant AnswersFrom(tracker.fields, delivered, |old(delivered)|, out)
      {
        if deliveries[i].None? {
          AllFine(tracker.fields, delivered, |old(delivered)|, out);
          return Err(InvalidArgument);
        }
        ghost var before := delivered;
        var outcome, number := IngestOne(deliveries[i].value);
        if outcome.Err? {
          AllFine(tracker.fields, before, |old(delivered)|, out);
          FineStays(tracker.fields, before, delivered, |old(delivered)|);
          return Err(outcome.code);
        }
        AnswersExtend(tracker.fields, before, |old(delivered)|, out, delivered, IngestResult(outcome.value, number));
        out := out + [IngestResult(outcome.value, number)];
      }
      return Ok(out);
    }
  }

  /** How delivery n is answered: as the tracker answers it, with one past the journal before it, or 0 if not
      committed. */
  ghost predicate Answers(fields: Cursor -> bool, cs: seq<Cursor>, n: nat, r: IngestResult)
    requires n < |cs|
  {
    var result := ObserveStep(fields, Deliver(fields, cs[..n]).tracker, cs[n]).result;
    && result == Ok(r.outcome)
    && r.journalSequence == if Commits(result) then |Journal(fields, cs[..n])| + 1 else 0
  }

  ghost predicate AnswersFrom(fields: Cursor -> bool, cs: seq<Cursor>, first: nat, rs: seq<IngestResult>) {
    first + |rs| == |cs| && forall i :: 0 <= i < |rs| ==> Answers(fields, cs, first + i, rs[i])
  }

  /** Deliveries from `first` up to `end` were all accepted or repeats. */
  ghost predicate Fine(fields: Cursor -> bool, cs: seq<Cursor>, first: nat, end: nat) {
    end <= |cs| && forall n :: first <= n < end ==> AnswerTo(fields, cs, n).Ok?
  }

  function AnswerTo(fields: Cursor -> bool, cs: seq<Cursor>, n: nat): Result<Outcome>
    requires n < |cs|
  {
    ObserveStep(fields, Deliver(fields, cs[..n]).tracker, cs[n]).result
  }

  /** Why an ingest stops after `taken` deliveries: the next does not decode, or the tracker refused the last one, with
      its code; everything before went through. */
  ghost predicate StopsAt(
    fields: Cursor -> bool, cs: seq<Cursor>, first: nat, deliveries: seq<Option<Cursor>>, taken: int, code: ErrorCode)
  {
    || (0 <= taken < |deliveries| && deliveries[taken].None? && code == InvalidArgument
          && Fine(fields, cs, first, |cs|))
    || (0 < taken && |cs| > 0 && AnswerTo(fields, cs, |cs| - 1) == Err(code) && Fine(fields, cs, first, |cs| - 1))
  }

  lemma AllFine(fields: Cursor -> bool, cs: seq<Cursor>, first: nat, rs: seq<IngestResult>)
    requires AnswersFrom(fields, cs, first, rs)
    ensures Fine(fields, cs, first, |cs|)
  {
    hide Deliver, Journal;
    forall n | first <= n < |cs| ensures AnswerTo(fields, cs, n).Ok? {
      assert Answers(fields, cs, first + (n - first), rs[n - first]);
    }
  }

  lemma FineStays(fields: Cursor -> bool, cs: seq<Cursor>, more: seq<Cursor>, first: nat)
    requires |more| == |cs| + 1 && more[..|cs|] == cs && Fine(fields, cs, first, |cs|)
    ensures Fine(fields, more, first, |cs|)
  {
    hide Deliver;
    forall n | first <= n < |cs| ensures AnswerTo(fields, more, n).Ok? {
      assert more[..n] == cs[..n] && AnswerTo(fields, cs, n).Ok?;
    }
  }

  lemma AnswersExtend(
    fields: Cursor -> bool, cs: seq<Cursor>, first: nat, rs: seq<IngestResult>, more: seq<Cursor>, r: IngestResult)
    requires AnswersFrom(fields, cs, first, rs) && |more| == |cs| + 1 && more[..|cs|] == cs
    requires Answers(fields, more, |cs|, r)
    ensures AnswersFrom(fields, more, first, rs + [r])
  {
    hide Deliver, Journal;
    forall i | 0 <= i < |rs| ensures Answers(fields, more, first + i, rs[i]) {
      assert more[..first + i] == cs[..first + i];
    }
  }

  /** The n-th answer of a delivery is the one its prefix determines. */
  lemma {:induction false} AnswerAt(fields: Cursor -> bool, cs: seq<Cursor>, n: nat)
    requires n < |cs|
    ensures Deliver(fields, cs).results[n] == ObserveStep(fields, Deliver(fields, cs[..n]).tracker, cs[n]).result
    decreases |cs|
  {
    var head := cs[..|cs| - 1];
    if n < |head| {
      AnswerAt(fields, head, n);
      assert head[..n] == cs[..n];
    }
  }

  lemma DeliverOneMore(fields: Cursor -> bool, cs: seq<Cursor>, c: Cursor)
    ensures var o := ObserveStep(fields, Deliver(fields, cs).tracker, c);
      && Deliver(fields, cs + [c]) == Delivery(o.tracker, Deliver(fields, cs).results + [o.result])
      && Journal(fields, cs + [c]) ==
           Journal(fields, cs) + if Commits(o.result) then [Record(|Journal(fields, cs)| + 1, c)] else []
  {
    hide ObserveStep;
    assert (cs + [c])[..|cs|] == cs;
  }

  ghost function CursorsOf(j: seq<Record>): set<Cursor> { set r | r in j :: r.cursor }

  ghost predicate Numbered(j: seq<Record>) {
    && (forall k :: 0 <= k < |j| ==> j[k].journalSequence == k + 1)
    && (forall k, l :: 0 <= k < l < |j| ==> j[k].cursor != j[l].cursor)
  }

  lemma NumberedExtend(j: seq<Record>, c: Cursor)
    requires Numbered(j) && c !in CursorsOf(j)
    ensures Numbered(j + [Record(|j| + 1, c)]) && CursorsOf(j + [Record(|j| + 1, c)]) == CursorsOf(j) + {c}
  {
    var j' := j + [Record(|j| + 1, c)];
    forall k | 0 <= k < |j| ensures j[k].cursor != c { assert j[k].cursor in CursorsOf(j); }
    forall d ensures d in CursorsOf(j') <==> d in CursorsOf(j) + {c} {
      if d in CursorsOf(j) { var r :| r in j && r.cursor == d; assert r in j'; }
      if d == c { assert j'[|j|] in j'; }
    }
  }

  /** Whatever is delivered, the journal is numbered 1, 2, 3, ... and holds each recorded cursor once. */
  lemma {:induction false} JournalNumbering(fields: Cursor -> bool, cs: seq<Cursor>)
    ensures Numbered(Journal(fields, cs))
    ensures CursorsOf(Journal(fields, cs)) == Recorded(Deliver(fields, cs).tracker)
  {
    if cs != [] {
      var head, last := cs[..|cs| - 1], cs[|cs| - 1];
      assert cs == head + [last];
      JournalNumbering(fields, head);
      ReachableConsistent(fields, head);
      DeliverOneMore(fields, head, last);
      JournalOne(fields, Deliver(fields, head).tracker, Journal(fields, head), last);
    }
  }

  lemma JournalOne(fields: Cursor -> bool, t: Tracker, j: seq<Record>, c: Cursor)
    requires Consistent(t) && Numbered(j) && CursorsOf(j) == Recorded(t)
    ensures var o := ObserveStep(fields, t, c);
      var j' := j + if Commits(o.result) then [Record(|j| + 1, c)] else [];
      Numbered(j') && CursorsOf(j') == Recorded(o.tracker)
  {
    ObserveMeans(fields, t, c);
    if Commits(ObserveStep(fields, t, c).result) {
      NumberedExtend(j, c);
    } else {
      assert j + [] == j;
    }
  }

  /** Conflict-free deliveries, in any order and with any repeats, leave exactly one record per cursor. */
  lemma OneRecordPerCursor(fields: Cursor -> bool, cs: seq<Cursor>)
    requires ConflictFree(fields, Elements(cs))
    ensures CursorsOf(Journal(fields, cs)) == Elements(cs)
    ensures |Journal(fields, cs)| == |Elements(cs)|
  {
    ConflictFreeDelivery(fields, cs);
    JournalNumbering(fields, cs);
    DistinctCount(Journal(fields, cs));
  }

  lemma {:induction false} DistinctCount(j: seq<Record>)
    requires forall k, l :: 0 <= k < l < |j| ==> j[k].cursor != j[l].cursor
    ensures |CursorsOf(j)| == |j|
  {
    if j != [] {
      var head, last := j[..|j| - 1], j[|j| - 1];
      DistinctCount(head);
      assert j == head + [last];
      assert CursorsOf(j) == CursorsOf(head) + {last.cursor};
    }
  }
}
