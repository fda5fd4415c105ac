/**
 One end of a terminal subscription on its own, against a peer that may send
 anything: whatever arrives, the chunks an end lets through are in order.
 */
module TerminalOrder {
  import opened Base
  import opened TerminalFlow

  datatype End = Client | Server(order: Order)

  datatype Input = Data(chunk: Chunk) | Replenish(credit: Credit)

  /** The chunks let through so far and the one a server holds back for credit; an end stops at the first refusal. */
  datatype Feed = Feed(ledger: Ledger, accepted: seq<Chunk>, waiting: Option<Chunk>, stopped: bool)

  ghost function Take(end: End, t: Terms, f: Feed, x: Input): Feed {
    if f.stopped then f else
    match x
    case Replenish(k) =>
      (match ApplyCredit(t, f.ledger, k)
       case Ok(l) => f.(ledger := l)
       case Err(_) => f.(stopped := end.Server?))
    case Data(c) =>
      if end.Client? then
        (match ClientConsume(t, f.ledger, c)
         case Ok(l) => f.(ledger := l, accepted := f.accepted + [c])
         case Err(_) => f.(stopped := true))
      else if f.waiting.Some? && f.waiting.value != c then f
      else
        (match ServerCharge(end.order, t, f.ledger, c)
         case Charged(l) => Feed(l, f.accepted + [c], None, false)
         case Blocked(l) => f.(ledger := l, waiting := Some(c))
         case Refused(l, _) => f.(ledger := l, stopped := true))
  }

  ghost function TakeAll(end: End, t: Terms, xs: seq<Input>): Feed
    decreases |xs|
  {
    if xs == [] then Feed(OpeningLedger(t), [], None, false)
    else Take(end, t, TakeAll(end, t, xs[..|xs| - 1]), xs[|xs| - 1])
  }

  function Reached(t: Terms, cs: seq<Chunk>): int {
    if cs == [] then t.afterOffset else cs[|cs| - 1].offset + cs[|cs| - 1].size
  }

  ghost predicate Follows(t: Terms, cs: seq<Chunk>, i: nat)
    requires i < |cs|
  {
    && ValidChunk(cs[i]) && Addressed(t, cs[i])
    && cs[i].offset >= Reached(t, cs[..i])
    && (!cs[i].truncated ==> cs[i].offset == Reached(t, cs[..i]))
    && (!cs[i].truncated && i > 0 ==> cs[i].sequence == cs[i - 1].sequence + 1)
  }

  /** Each chunk starts where the one before ended, or later if marked truncated; sequence numbers likewise. */
  ghost predicate InOrder(t: Terms, cs: seq<Chunk>) {
    forall i :: 0 <= i < |cs| ==> Follows(t, cs, i)
  }

  /** A chunk held back by the Go server has already moved its offset, past a gap only if it is marked truncated. */
  ghost predicate Standing(end: End, t: Terms, f: Feed) {
    && f.ledger.sequence == (if f.accepted == [] then 0 else f.accepted[|f.accepted| - 1].sequence)
    && f.ledger.throughOffset ==
         (if end == Server(GoOrder) && f.waiting.Some? then f.waiting.value.offset else Reached(t, f.accepted))
    && (end == Server(GoOrder) && f.waiting.Some? ==>
          && f.waiting.value.offset >= Reached(t, f.accepted)
          && (f.waiting.value.offset == Reached(t, f.accepted) || f.waiting.value.truncated))
  }

  lemma OrderExtends(t: Terms, cs: seq<Chunk>, c: Chunk)
    requires InOrder(t, cs) && Follows(t, cs + [c], |cs|)
    ensures InOrder(t, cs + [c])
  {
    var longer := cs + [c];
    forall i | 0 <= i < |cs| ensures Follows(t, longer, i) {
      assert Follows(t, cs, i) && longer[..i] == cs[..i];
    }
  }

  lemma LastNumbered(t: Terms, cs: seq<Chunk>)
    requires InOrder(t, cs)
    ensures cs != [] ==> cs[|cs| - 1].sequence != 0
  {
    if cs != [] { assert Follows(t, cs, |cs| - 1); }
  }

  lemma TakeKeepsOrder(end: End, t: Terms, f: Feed, x: Input)
    requires InOrder(t, f.accepted) && (!f.stopped ==> Standing(end, t, f))
    ensures var f' := Take(end, t, f, x); InOrder(t, f'.accepted) && (!f'.stopped ==> Standing(end, t, f'))
  {
    hide InOrder, ValidRedactions;
    var f' := Take(end, t, f, x);
    if f'.accepted != f.accepted {
      var c := x.chunk;
      LastNumbered(t, f.accepted);
      assert (f.accepted + [c])[..|f.accepted|] == f.accepted;
      OrderExtends(t, f.accepted, c);
    }
  }

  lemma {:induction false} AcceptedInOrder(end: End, t: Terms, xs: seq<Input>)
    ensures var f := TakeAll(end, t, xs); InOrder(t, f.accepted) && (!f.stopped ==> Standing(end, t, f))
    decreases |xs|
  {
    if xs != [] {
      hide InOrder, Standing, Take;
      AcceptedInOrder(end, t, xs[..|xs| - 1]);
      TakeKeepsOrder(end, t, TakeAll(end, t, xs[..|xs| - 1]), xs[|xs| - 1]);
    } else {
      NothingYet(end, t);
    }
  }

  lemma NothingYet(end: End, t: Terms)
    ensures InOrder(t, []) && Standing(end, t, Feed(OpeningLedger(t), [], None, false))
  {
  }

  /** The ranges an end lets through are disjoint, increase, and stay below 2^64, so no offset ever wraps. */
  lemma {:induction false} RangesIncrease(end: End, t: Terms, xs: seq<Input>, i: nat, j: nat)
    requires i < j < |TakeAll(end, t, xs).accepted|
    ensures var cs := TakeAll(end, t, xs).accepted;
      cs[i].offset < cs[i].offset + cs[i].size <= cs[j].offset < cs[j].offset + cs[j].size < U64_LIMIT
    decreases j - i
  {
    AcceptedInOrder(end, t, xs);
    hide TakeAll;
    var cs := TakeAll(end, t, xs).accepted;
    assert Follows(t, cs, j) && Follows(t, cs, i);
    if i + 1 < j { RangesIncrease(end, t, xs, i, j - 1); }
  }
}
