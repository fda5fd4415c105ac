/**
 The credit protocol as a whole: a server ledger and a client ledger joined by
 two FIFO channels, chunks one way and credits the other.  Every message ever sent
 stays in the state together with what its sender had received by then, so a
 channel is the part of a history the other end has not taken yet.  All results
 are about every sequence of events from the opening state.
 */
module TerminalCredit {
  import opened Base
  import opened TerminalFlow

  /** A charged chunk, with the number of credits the server had applied by then. */
  datatype Sent = Sent(chunk: Chunk, applied: nat)

  /** An issued credit, with the number of chunks the client had consumed by then. */
  datatype Issued = Issued(credit: Credit, consumed: nat)

  datatype State = State(
    server: Ledger, client: Ledger,
    charged: seq<Sent>, consumed: nat,
    issued: seq<Issued>, applied: nat,
    waiting: Option<Chunk>, ended: bool)

  datatype Event =
    | Offer(chunk: Chunk)     // the provider's next chunk, or the waiting one tried again
    | TakeChunk               // the client reads the next chunk notification
    | Issue(credit: Credit)   // the client's user replenishes the window
    | TakeCredit              // the server reads the next credit notification
    | Disconnect              // cancellation, deadline or transport failure

  function Opening(t: Terms): State {
    State(OpeningLedger(t), OpeningLedger(t), [], 0, [], 0, None, false)
  }

  ghost function Step(o: Order, t: Terms, s: State, e: Event): State {
    if s.ended then s else
    match e
    case Offer(c) =>
      if s.waiting.Some? && s.waiting.value != c then s else
      (match ServerCharge(o, t, s.server, c)
       case Charged(l) => s.(server := l, charged := s.charged + [Sent(c, s.applied)], waiting := None)
       case Blocked(l) => s.(server := l, waiting := Some(c))
       case Refused(l, _) => s.(server := l, ended := true))
    case TakeChunk =>
      if s.consumed >= |s.charged| then s else
      (match ClientConsume(t, s.client, s.charged[s.consumed].chunk)
       case Ok(l) => s.(client := l, consumed := s.consumed + 1)
       case Err(_) => s.(ended := true))
    case Issue(k) =>
      (match ApplyCredit(t, s.client, k)
       case Ok(l) => s.(client := l, issued := s.issued + [Issued(k, s.consumed)])
       case Err(_) => s)
    case TakeCredit =>
      if s.applied >= |s.issued| then s else
      (match ApplyCredit(t, s.server, s.issued[s.applied].credit)
       case Ok(l) => s.(server := l, applied := s.applied + 1)
       case Err(_) => s.(ended := true))
    case Disconnect => s.(ended := true)
  }

  ghost function RunFrom(o: Order, t: Terms, s: State, es: seq<Event>): State
    decreases |es|
  {
    if es == [] then s else RunFrom(o, t, Step(o, t, s, es[0]), es[1..])
  }

  ghost function Run(o: Order, t: Terms, es: seq<Event>): State {
    RunFrom(o, t, Opening(t), es)
  }

  // ---- Quantities read off a history -----------------------------------------------------

  /** Bytes in the first n charged chunks. */
  function Bytes(xs: seq<Sent>, n: nat): nat
    requires n <= |xs|
  {
    if n == 0 then 0 else Bytes(xs, n - 1) + xs[n - 1].chunk.size
  }

  /** Bytes granted by the first n credits. */
  function Granted(ks: seq<Issued>, n: nat): nat
    requires n <= |ks|
  {
    if n == 0 then 0 else Granted(ks, n - 1) + ks[n - 1].credit.bytes
  }

  /** The offset reached by the first n charged chunks. */
  function End(t: Terms, xs: seq<Sent>, n: nat): int
    requires n <= |xs|
  {
    if n == 0 then t.afterOffset else xs[n - 1].chunk.offset + xs[n - 1].chunk.size
  }

  function LastSequence(xs: seq<Sent>, n: nat): u64
    requires n <= |xs|
  {
    if n == 0 then 0 else xs[n - 1].chunk.sequence
  }

  /** Bytes of chunks in the chunk channel, counted over the channel itself. */
  function ChunkBytes(channel: seq<Sent>): nat {
    if channel == [] then 0 else channel[0].chunk.size + ChunkBytes(channel[1..])
  }

  function CreditBytes(channel: seq<Issued>): nat {
    if channel == [] then 0 else channel[0].credit.bytes + CreditBytes(channel[1..])
  }

  /** A truncated chunk has moved the server's offset past the last charged byte and waits for credit. */
  predicate GapWaiting(t: Terms, s: State) {
    s.waiting.Some? && s.waiting.value.offset > End(t, s.charged, |s.charged|)
  }

  /** Chunk i was charged before credit j arrived, and credit j was issued before chunk i was consumed. */
  predicate Crossed(s: State, i: nat, j: nat)
    requires i < |s.charged| && j < |s.issued|
  {
    s.charged[i].applied <= j && s.issued[j].consumed <= i
  }

  // ---- The invariant ---------------------------------------------------------------------

  /** Every charged chunk follows its predecessor and echoes the balance the server was left with. */
  ghost predicate ChargedWell(t: Terms, s: State) {
    forall i :: 0 <= i < |s.charged| ==> ChunkWell(t, s, i)
  }

  ghost predicate ChunkWell(t: Terms, s: State, i: nat)
    requires i < |s.charged|
  {
    var c := s.charged[i].chunk;
    && ValidChunk(c) && Addressed(t, c) && c.size <= t.maximumChunk && (c.replayed ==> t.replayAllowed)
    && s.charged[i].applied <= |s.issued|
    && s.charged[i].applied <= s.applied
    && 0 <= End(t, s.charged, i) < U64_LIMIT
    && OffsetFollows(End(t, s.charged, i), c)
    && SequenceFollows(LastSequence(s.charged, i), c)
    && c.creditRemaining == t.window + Granted(s.issued, s.charged[i].applied) - Bytes(s.charged, i + 1)
  }

  ghost predicate IssuedWell(t: Terms, s: State) {
    forall j :: 0 <= j < |s.issued| ==> CreditWell(t, s, j)
  }

  ghost predicate CreditWell(t: Terms, s: State, j: nat)
    requires j < |s.issued|
  {
    var k := s.issued[j];
    && ValidCredit(k.credit) && k.credit.session == t.session && k.credit.stream == t.stream
    && k.consumed <= |s.charged| && k.consumed <= s.consumed
    && k.credit.throughOffset == End(t, s.charged, k.consumed)
  }

  ghost predicate ServerWell(o: Order, t: Terms, s: State)
    requires s.applied <= |s.issued|
  {
    && s.server.remaining == t.window + Granted(s.issued, s.applied) - Bytes(s.charged, |s.charged|)
    && s.server.sequence == LastSequence(s.charged, |s.charged|)
    && s.server.throughOffset ==
         (if o.GoOrder? && s.waiting.Some? then s.waiting.value.offset else End(t, s.charged, |s.charged|))
    && (o.GoOrder? && s.waiting.Some? ==> s.waiting.value.offset >= End(t, s.charged, |s.charged|))
    && (o.GoOrder? && GapWaiting(t, s) ==> s.waiting.value.size > s.server.remaining)
  }

  ghost predicate ClientWell(t: Terms, s: State)
    requires s.consumed <= |s.charged|
  {
    && s.client.remaining == t.window + Granted(s.issued, |s.issued|) - Bytes(s.charged, s.consumed)
    && s.client.remaining <= t.window
    && s.client.sequence == LastSequence(s.charged, s.consumed)
    && s.client.throughOffset == End(t, s.charged, s.consumed)
  }

  /** A consumed chunk had seen every credit issued before it was consumed, and an applied credit every chunk charged
      before it arrived. */
  ghost predicate Uncrossed(s: State) {
    && s.consumed <= |s.charged| && s.applied <= |s.issued|
    && (forall i, j :: 0 <= i < s.consumed && 0 <= j < |s.issued| ==> !Crossed(s, i, j))
    && (forall i, j :: 0 <= i < |s.charged| && 0 <= j < s.applied ==> !Crossed(s, i, j))
  }

  ghost predicate Live(o: Order, t: Terms, s: State) {
    && s.consumed <= |s.charged| && s.applied <= |s.issued|
    && ChargedWell(t, s) && IssuedWell(t, s) && ServerWell(o, t, s) && ClientWell(t, s)
  }

  ghost predicate Inv(o: Order, t: Terms, s: State) {
    Uncrossed(s) && (!s.ended ==> Live(o, t, s))
  }

  // ---- Facts about prefixes --------------------------------------------------------------

  lemma {:induction false} BytesPrefix(xs: seq<Sent>, x: Sent, n: nat)
    requires n <= |xs|
    ensures Bytes(xs + [x], n) == Bytes(xs, n)
  {
    if n > 0 { BytesPrefix(xs, x, n - 1); }
  }

  lemma {:induction false} GrantedPrefix(ks: seq<Issued>, k: Issued, n: nat)
    requires n <= |ks|
    ensures Granted(ks + [k], n) == Granted(ks, n)
  {
    if n > 0 { GrantedPrefix(ks, k, n - 1); }
  }

  lemma {:induction false} BytesMonotone(xs: seq<Sent>, m: nat, n: nat)
    requires m <= n <= |xs|
    ensures Bytes(xs, m) <= Bytes(xs, n)
    decreases n
  {
    if m < n { BytesMonotone(xs, m, n - 1); }
  }

  /** Credits grant at least one byte, so the number granted determines how many there were. */
  lemma {:induction false} GrantedStrict(t: Terms, s: State, m: nat, n: nat)
    requires IssuedWell(t, s) && m <= n <= |s.issued|
    ensures m < n ==> Granted(s.issued, m) < Granted(s.issued, n)
    decreases n
  {
    if m < n {
      assert CreditWell(t, s, n - 1);
      if m < n - 1 { GrantedStrict(t, s, m, n - 1); }
    }
  }

  /** Chunks hold at least one byte and never go back, so the offset reached determines how many there were. */
  lemma {:induction false} EndStrict(t: Terms, s: State, m: nat, n: nat)
    requires ChargedWell(t, s) && m <= n <= |s.charged|
    ensures m < n ==> End(t, s.charged, m) < End(t, s.charged, n)
    decreases n
  {
    if m < n {
      assert ChunkWell(t, s, n - 1);
      if m < n - 1 { EndStrict(t, s, m, n - 1); }
    }
  }

  lemma {:induction false} ChunkBytesFrom(xs: seq<Sent>, m: nat)
    requires m <= |xs|
    ensures ChunkBytes(xs[m..]) == Bytes(xs, |xs|) - Bytes(xs, m)
    decreases |xs| - m
  {
    if m < |xs| {
      ChunkBytesFrom(xs, m + 1);
      assert xs[m..][1..] == xs[m + 1..];
    }
  }

  lemma {:induction false} CreditBytesFrom(ks: seq<Issued>, m: nat)
    requires m <= |ks|
    ensures CreditBytes(ks[m..]) == Granted(ks, |ks|) - Granted(ks, m)
    decreases |ks| - m
  {
    if m < |ks| {
      CreditBytesFrom(ks, m + 1);
      assert ks[m..][1..] == ks[m + 1..];
    }
  }

  // ---- Acceptance, in any state that satisfies the invariant -----------------------------

  /** The client takes the next chunk exactly when the server had applied every credit issued so far when it charged
      it. */
  lemma ChunkAcceptance(o: Order, t: Terms, s: State)
    requires ValidTerms(t) && Live(o, t, s) && s.consumed < |s.charged|
    ensures ClientConsume(t, s.client, s.charged[s.consumed].chunk).Ok? <==> s.charged[s.consumed].applied == |s.issued|
    ensures s.charged[s.consumed].chunk.size <= s.client.remaining
  {
    assert ChunkWell(t, s, s.consumed);
    GrantedStrict(t, s, s.charged[s.consumed].applied, |s.issued|);
  }

  /** The server takes the next credit exactly when the client had consumed every chunk charged so far when it issued
      it, and no truncated chunk waits past a gap. */
  lemma CreditAcceptance(o: Order, t: Terms, s: State)
    requires ValidTerms(t) && Live(o, t, s) && s.applied < |s.issued|
    ensures ApplyCredit(t, s.server, s.issued[s.applied].credit).Ok?
       <==> s.issued[s.applied].consumed == |s.charged| && !(o.GoOrder? && GapWaiting(t, s))
    ensures s.server.remaining + s.issued[s.applied].credit.bytes <= t.window
  {
    assert CreditWell(t, s, s.applied);
    EndStrict(t, s, s.issued[s.applied].consumed, |s.charged|);
    BytesMonotone(s.charged, s.consumed, |s.charged|);
    GrantedStrict(t, s, s.applied + 1, |s.issued|);
  }

  // ---- Every event keeps the invariant ---------------------------------------------------

  /** Appending to the history of chunks leaves the facts about earlier messages alone. */
  lemma ChargeKeepsHistory(t: Terms, s: State, s': State, x: Sent)
    requires s.consumed <= |s.charged| && s.applied <= |s.issued|
    requires ChargedWell(t, s) && IssuedWell(t, s)
    requires s'.charged == s.charged + [x] && s'.issued == s.issued
    requires s'.consumed == s.consumed && s'.applied == s.applied
    ensures forall i :: 0 <= i < |s.charged| ==> ChunkWell(t, s', i)
    ensures IssuedWell(t, s')
    ensures forall n :: 0 <= n <= |s.charged| ==> Bytes(s'.charged, n) == Bytes(s.charged, n)
  {
    forall n | 0 <= n <= |s.charged| ensures Bytes(s'.charged, n) == Bytes(s.charged, n) {
      BytesPrefix(s.charged, x, n);
    }
    forall i | 0 <= i < |s.charged| ensures ChunkWell(t, s', i) {
      assert ChunkWell(t, s, i);
    }
    forall j | 0 <= j < |s.issued| ensures CreditWell(t, s', j) {
      assert CreditWell(t, s, j);
    }
  }

  lemma SameHistory(t: Terms, s: State, s': State)
    requires s'.charged == s.charged && s'.issued == s.issued
    requires s.consumed <= s'.consumed && s.applied <= s'.applied
    ensures ChargedWell(t, s) ==> ChargedWell(t, s')
    ensures IssuedWell(t, s) ==> IssuedWell(t, s')
    ensures Uncrossed(s) && s'.consumed == s.consumed && s'.applied == s.applied ==> Uncrossed(s')
  {
    if ChargedWell(t, s) {
      forall i | 0 <= i < |s.charged| ensures ChunkWell(t, s', i) { assert ChunkWell(t, s, i); }
    }
    if IssuedWell(t, s) {
      forall j | 0 <= j < |s.issued| ensures CreditWell(t, s', j) { assert CreditWell(t, s, j); }
    }
    if Uncrossed(s) && s'.consumed == s.consumed && s'.applied == s.applied {
      forall i, j | 0 <= i < s.consumed && 0 <= j < |s.issued| ensures !Crossed(s', i, j) { assert !Crossed(s, i, j); }
      forall i, j | 0 <= i < |s.charged| && 0 <= j < s.applied ensures !Crossed(s', i, j) { assert !Crossed(s, i, j); }
    }
  }

  /** What a server has checked by the time it charges or keeps a chunk waiting. */
  lemma ChargeMeans(o: Order, t: Terms, l: Ledger, c: Chunk)
    ensures var r := ServerCharge(o, t, l, c);
      && (r.Charged? ==>
        && ValidChunk(c) && Addressed(t, c) && c.size <= t.maximumChunk && (c.replayed ==> t.replayAllowed)
        && OffsetFollows(l.throughOffset, c) && SequenceFollows(l.sequence, c)
        && c.size <= l.remaining && c.creditRemaining == l.remaining - c.size
        && r.after == Ledger(l.remaining - c.size, c.offset + c.size, c.sequence))
      && (r.Blocked? ==>
        && c.size > l.remaining && (o.TypeScriptOrder? ==> r.after == l)
        && (o.GoOrder? ==> c.offset >= l.throughOffset && r.after == l.(throughOffset := c.offset)))
  {
  }

  lemma OfferKeepsInv(o: Order, t: Terms, s: State, c: Chunk)
    requires ValidTerms(t) && Inv(o, t, s)
    ensures Inv(o, t, Step(o, t, s, Offer(c)))
  {
    var s' := Step(o, t, s, Offer(c));
    ChargeMeans(o, t, s.server, c);
    if s'.charged == s.charged {
      SameHistory(t, s, s');
    } else {
      ChargeKeepsInv(o, t, s, s', c);
    }
  }

  lemma ChargeKeepsInv(o: Order, t: Terms, s: State, s': State, c: Chunk)
    requires ValidTerms(t) && Inv(o, t, s) && !s.ended
    requires s.waiting == None || s.waiting == Some(c)
    requires ServerCharge(o, t, s.server, c).Charged?
    requires s' == s.(server := ServerCharge(o, t, s.server, c).after, charged := s.charged + [Sent(c, s.applied)],
          waiting := None)
    ensures Inv(o, t, s')
  {
    ChargeMeans(o, t, s.server, c);
    var n := |s.charged|;
    ChargeKeepsHistory(t, s, s', Sent(c, s.applied));
    if n > 0 { assert ChunkWell(t, s, n - 1); }
    assert ChunkWell(t, s', n);
    assert ChargedWell(t, s');
    forall i, j | 0 <= i < s'.consumed && 0 <= j < |s'.issued| ensures !Crossed(s', i, j) {
      assert !Crossed(s, i, j);
    }
    forall i, j | 0 <= i < |s'.charged| && 0 <= j < s'.applied ensures !Crossed(s', i, j) {
      if i < n { assert !Crossed(s, i, j); }
    }
  }

  lemma TakeChunkKeepsInv(o: Order, t: Terms, s: State)
    requires ValidTerms(t) && Inv(o, t, s)
    ensures Inv(o, t, Step(o, t, s, TakeChunk))
  {
    var s' := Step(o, t, s, TakeChunk);
    SameHistory(t, s, s');
    if s'.consumed != s.consumed {
      ChunkAcceptance(o, t, s);
      assert ChunkWell(t, s, s.consumed);
      forall i, j | 0 <= i < s'.consumed && 0 <= j < |s'.issued| ensures !Crossed(s', i, j) {
        if i < s.consumed { assert !Crossed(s, i, j); }
      }
      forall i, j | 0 <= i < |s'.charged| && 0 <= j < s'.applied ensures !Crossed(s', i, j) {
        assert !Crossed(s, i, j);
      }
    }
  }

  lemma IssueKeepsInv(o: Order, t: Terms, s: State, k: Credit)
    requires ValidTerms(t) && Inv(o, t, s)
    ensures Inv(o, t, Step(o, t, s, Issue(k)))
  {
    var s' := Step(o, t, s, Issue(k));
    if s'.issued != s.issued {
      forall n | 0 <= n <= |s.issued| ensures Granted(s'.issued, n) == Granted(s.issued, n) {
        GrantedPrefix(s.issued, Issued(k, s.consumed), n);
      }
      forall i | 0 <= i < |s'.charged| ensures ChunkWell(t, s', i) { assert ChunkWell(t, s, i); }
      forall j | 0 <= j < |s'.issued| ensures CreditWell(t, s', j) {
        if j < |s.issued| { assert CreditWell(t, s, j); }
      }
      forall i, j | 0 <= i < s'.consumed && 0 <= j < |s'.issued| ensures !Crossed(s', i, j) {
        if j < |s.issued| { assert !Crossed(s, i, j); }
      }
      forall i, j | 0 <= i < |s'.charged| && 0 <= j < s'.applied ensures !Crossed(s', i, j) {
        assert !Crossed(s, i, j);
      }
    }
  }

  lemma TakeCreditKeepsInv(o: Order, t: Terms, s: State)
    requires ValidTerms(t) && Inv(o, t, s)
    ensures Inv(o, t, Step(o, t, s, TakeCredit))
  {
    var s' := Step(o, t, s, TakeCredit);
    SameHistory(t, s, s');
    if s'.applied != s.applied {
      CreditAcceptance(o, t, s);
      forall i, j | 0 <= i < s'.consumed && 0 <= j < |s'.issued| ensures !Crossed(s', i, j) {
        assert !Crossed(s, i, j);
      }
      forall i, j | 0 <= i < |s'.charged| && 0 <= j < s'.applied ensures !Crossed(s', i, j) {
        if j < s.applied { assert !Crossed(s, i, j); }
      }
    }
  }

  lemma StepKeepsInv(o: Order, t: Terms, s: State, e: Event)
    requires ValidTerms(t) && Inv(o, t, s)
    ensures Inv(o, t, Step(o, t, s, e))
  {
    match e
    case Offer(c) => OfferKeepsInv(o, t, s, c);
    case TakeChunk => TakeChunkKeepsInv(o, t, s);
    case Issue(k) => IssueKeepsInv(o, t, s, k);
    case TakeCredit => TakeCreditKeepsInv(o, t, s);
    case Disconnect => SameHistory(t, s, Step(o, t, s, e));
  }

  lemma {:induction false} RunFromKeepsInv(o: Order, t: Terms, s: State, es: seq<Event>)
    requires ValidTerms(t) && Inv(o, t, s)
    ensures Inv(o, t, RunFrom(o, t, s, es))
    decreases |es|
  {
    if es != [] {
      StepKeepsInv(o, t, s, es[0]);
      RunFromKeepsInv(o, t, Step(o, t, s, es[0]), es[1..]);
    }
  }

  lemma RunInvariant(o: Order, t: Terms, es: seq<Event>)
    requires ValidTerms(t)
    ensures Inv(o, t, Run(o, t, es))
  {
    RunFromKeepsInv(o, t, Opening(t), es);
  }

  // ---- Results over whole runs -----------------------------------------------------------

  /** Conservation: the client's balance is the server's plus what is in flight either way, and never exceeds the
      window. */
  lemma Conservation(o: Order, t: Terms, es: seq<Event>)
    requires ValidTerms(t)
    ensures var s := Run(o, t, es);
      && s.consumed <= |s.charged| && s.applied <= |s.issued|
      && (!s.ended ==>
        && s.client.remaining == s.server.remaining + ChunkBytes(s.charged[s.consumed..])
            + CreditBytes(s.issued[s.applied..])
        && s.client.remaining <= t.window)
  {
    RunInvariant(o, t, es);
    var s := Run(o, t, es);
    if !s.ended {
      ChunkBytesFrom(s.charged, s.consumed);
      CreditBytesFrom(s.issued, s.applied);
    }
  }

  /** Neither window check ever refuses a conforming peer. */
  lemma WindowChecksNeverRefuse(o: Order, t: Terms, es: seq<Event>)
    requires ValidTerms(t)
    ensures var s := Run(o, t, es);
      !s.ended ==>
        && (s.consumed < |s.charged| ==> s.charged[s.consumed].chunk.size <= s.client.remaining)
        && (s.applied < |s.issued| ==> s.issued[s.applied].credit.bytes <= WrapSub(t.window, s.server.remaining))
  {
    RunInvariant(o, t, es);
    var s := Run(o, t, es);
    if !s.ended && s.consumed < |s.charged| { ChunkAcceptance(o, t, s); }
    if !s.ended && s.applied < |s.issued| { CreditAcceptance(o, t, s); }
  }

  lemma ChunkAcceptedIff(o: Order, t: Terms, es: seq<Event>)
    requires ValidTerms(t)
    ensures var s := Run(o, t, es);
      !s.ended && s.consumed < |s.charged| ==>
        (!Step(o, t, s, TakeChunk).ended <==> s.charged[s.consumed].applied == |s.issued|)
  {
    RunInvariant(o, t, es);
    var s := Run(o, t, es);
    if !s.ended && s.consumed < |s.charged| { ChunkAcceptance(o, t, s); }
  }

  lemma CreditAcceptedIff(o: Order, t: Terms, es: seq<Event>)
    requires ValidTerms(t)
    ensures var s := Run(o, t, es);
      !s.ended && s.applied < |s.issued| ==>
        (!Step(o, t, s, TakeCredit).ended <==>
          s.issued[s.applied].consumed == |s.charged| && !(o.GoOrder? && GapWaiting(t, s)))
  {
    RunInvariant(o, t, es);
    var s := Run(o, t, es);
    if !s.ended && s.applied < |s.issued| { CreditAcceptance(o, t, s); }
  }

  /** No consumed chunk ever crossed an issued credit, nor an applied credit a charged chunk. */
  lemma AcceptedNeverCross(o: Order, t: Terms, es: seq<Event>, i: nat, j: nat)
    requires ValidTerms(t)
    ensures var s := Run(o, t, es);
      i < |s.charged| && j < |s.issued| && (i < s.consumed || j < s.applied) ==> !Crossed(s, i, j)
  {
    RunInvariant(o, t, es);
  }

  /** Histories only grow. */
  lemma {:induction false} HistoryGrows(o: Order, t: Terms, s: State, es: seq<Event>)
    ensures var s' := RunFrom(o, t, s, es);
      s.charged <= s'.charged && s.issued <= s'.issued && (s.ended ==> s' == s)
    decreases |es|
  {
    if es != [] { HistoryGrows(o, t, Step(o, t, s, es[0]), es[1..]); }
  }

  lemma {:induction false} RunFromAppend(o: Order, t: Terms, s: State, es: seq<Event>, fs: seq<Event>)
    ensures RunFrom(o, t, s, es + fs) == RunFrom(o, t, RunFrom(o, t, s, es), fs)
    decreases |es|
  {
    if es == [] {
      assert es + fs == fs;
    } else {
      assert (es + fs)[1..] == es[1..] + fs;
      RunFromAppend(o, t, Step(o, t, s, es[0]), es[1..], fs);
    }
  }

  /** Once a chunk and a credit are in flight together, no continuation gets both of them accepted. */
  lemma CrossingIsFatal(o: Order, t: Terms, es: seq<Event>, fs: seq<Event>, i: nat, j: nat)
    requires ValidTerms(t)
    requires var s := Run(o, t, es); !s.ended && s.consumed <= i < |s.charged| && s.applied <= j < |s.issued|
    ensures var s' := Run(o, t, es + fs); !(i < s'.consumed && j < s'.applied)
  {
    var s, s' := Run(o, t, es), Run(o, t, es + fs);
    RunInvariant(o, t, es);
    RunInvariant(o, t, es + fs);
    RunFromAppend(o, t, Opening(t), es, fs);
    HistoryGrows(o, t, s, fs);
    assert ChunkWell(t, s, i) && CreditWell(t, s, j);
    assert Crossed(s, i, j);
    assert s'.charged[i] == s.charged[i] && s'.issued[j] == s.issued[j];
    assert Crossed(s', i, j);
  }

  /** With both channels empty the ledgers are equal; in the Go order the offsets are equal exactly when no truncated
      chunk waits past a gap. */
  lemma QuiescentAgreement(o: Order, t: Terms, es: seq<Event>)
    requires ValidTerms(t)
    ensures var s := Run(o, t, es);
      !s.ended && s.consumed == |s.charged| && s.applied == |s.issued| ==>
        && s.client.remaining == s.server.remaining
        && s.client.sequence == s.server.sequence
        && (s.client.throughOffset == s.server.throughOffset <==> !(o.GoOrder? && GapWaiting(t, s)))
  {
    RunInvariant(o, t, es);
  }

  /** In the Go order a truncated chunk that waits past a gap is never charged, nor is any chunk after it. */
  lemma GapWaitIsFatal(t: Terms, es: seq<Event>, fs: seq<Event>)
    requires ValidTerms(t)
    requires !Run(GoOrder, t, es).ended && GapWaiting(t, Run(GoOrder, t, es))
    ensures Run(GoOrder, t, es + fs).charged == Run(GoOrder, t, es).charged
    ensures Run(GoOrder, t, es + fs).applied == Run(GoOrder, t, es).applied
  {
    RunInvariant(GoOrder, t, es);
    RunFromAppend(GoOrder, t, Opening(t), es, fs);
    GapWaitFrom(t, Run(GoOrder, t, es), fs);
  }

  lemma {:induction false} GapWaitFrom(t: Terms, s: State, fs: seq<Event>)
    requires ValidTerms(t) && Inv(GoOrder, t, s) && !s.ended && GapWaiting(t, s)
    ensures var s' := RunFrom(GoOrder, t, s, fs); s'.charged == s.charged && s'.applied == s.applied
    decreases |fs|
  {
    if fs != [] {
      var s' := Step(GoOrder, t, s, fs[0]);
      StepKeepsInv(GoOrder, t, s, fs[0]);
      if fs[0].Offer? { ChargeMeans(GoOrder, t, s.server, fs[0].chunk); }
      if fs[0].TakeCredit? && s.applied < |s.issued| { CreditAcceptance(GoOrder, t, s); }
      if s'.ended {
        HistoryGrows(GoOrder, t, s', fs[1..]);
      } else {
        GapWaitFrom(t, s', fs[1..]);
      }
    }
  }

  /** Accepted chunks cover increasing, disjoint ranges below 2^64, contiguous and consecutively numbered unless
      truncated. */
  lemma ChunksInOrder(o: Order, t: Terms, es: seq<Event>, i: nat, j: nat)
    requires ValidTerms(t)
    ensures var s := Run(o, t, es);
      !s.ended && i < j < |s.charged| ==>
        var a, b := s.charged[i].chunk, s.charged[j].chunk;
        && a.offset < a.offset + a.size <= b.offset < b.offset + b.size < U64_LIMIT
        && (j == i + 1 && !b.truncated ==> b.offset == a.offset + a.size && b.sequence == a.sequence + 1)
  {
    RunInvariant(o, t, es);
    var s := Run(o, t, es);
    if !s.ended && i < j < |s.charged| {
      assert ChunkWell(t, s, i) && ChunkWell(t, s, j);
      if i + 1 < j { EndStrict(t, s, i + 1, j); }
    }
  }

  // ---- The two orders really differ ------------------------------------------------------

  const SMALL_TERMS := Terms("s", "t", 10, 0, 10, false)

  /** A full window, then a truncated chunk past a gap, then the client replenishing what it consumed. */
  const GAP_SCRIPT: seq<Event> := [
    Offer(Chunk("s", "t", 1, 0, 10, false, false, [], 0)),
    TakeChunk,
    Offer(Chunk("s", "t", 2, 20, 5, false, true, [], 0)),
    Issue(Credit("s", "t", 5, 10)),
    TakeCredit,
    Offer(Chunk("s", "t", 2, 20, 5, false, true, [], 0))]

  /** One more event of a script. */
  lemma Follow(o: Order, t: Terms, es: seq<Event>, n: nat, s: State, s': State)
    requires n < |es| && Run(o, t, es[..n]) == s && Step(o, t, s, es[n]) == s'
    ensures Run(o, t, es[..n + 1]) == s'
  {
    assert es[..n + 1] == es[..n] + [es[n]];
    RunFromAppend(o, t, Opening(t), es[..n], [es[n]]);
    assert RunFrom(o, t, s, [es[n]]) == RunFrom(o, t, s', [es[n]][1..]) == s';
  }

  /** The first four events of the script; what the two servers hold differs only in the offset. */
  function AfterIssue(o: Order): State {
    var c1, c2 := GAP_SCRIPT[0].chunk, GAP_SCRIPT[2].chunk;
    State(Ledger(0, if o.GoOrder? then 20 else 10, 1), Ledger(5, 10, 1),
          [Sent(c1, 0)], 1, [Issued(GAP_SCRIPT[3].credit, 1)], 0, Some(c2), false)
  }

  lemma RunToIssue(o: Order)
    ensures Run(o, SMALL_TERMS, GAP_SCRIPT[..4]) == AfterIssue(o)
  {
    var t := SMALL_TERMS;
    var c1, c2 := GAP_SCRIPT[0].chunk, GAP_SCRIPT[2].chunk;
    assert ValidChunk(c1) && ValidChunk(c2);
    var s4 := AfterIssue(o);
    var s3 := s4.(client := Ledger(0, 10, 1), issued := []);
    var s2 := s3.(server := Ledger(0, 10, 1), waiting := None);
    var s1 := s2.(client := OpeningLedger(t), consumed := 0);
    assert GAP_SCRIPT[..0] == [];
    Follow(o, t, GAP_SCRIPT, 0, Opening(t), s1);
    Follow(o, t, GAP_SCRIPT, 1, s1, s2);
    Follow(o, t, GAP_SCRIPT, 2, s2, s3);
    Follow(o, t, GAP_SCRIPT, 3, s3, s4);
  }

  /** Nothing crossed, yet the Go server ends the connection where the TypeScript server goes on. */
  lemma GapScriptSeparatesOrders()
    ensures var s := Run(GoOrder, SMALL_TERMS, GAP_SCRIPT[..4]);
      !s.ended && GapWaiting(SMALL_TERMS, s) && |s.issued| == 1 && s.issued[0].consumed == |s.charged|
    ensures Run(GoOrder, SMALL_TERMS, GAP_SCRIPT[..5]).ended
    ensures var s := Run(TypeScriptOrder, SMALL_TERMS, GAP_SCRIPT[..6]); !s.ended && |s.charged| == 2
  {
    var t := SMALL_TERMS;
    var c2 := GAP_SCRIPT[2].chunk;
    RunToIssue(GoOrder);
    RunToIssue(TypeScriptOrder);
    var g4, s4 := AfterIssue(GoOrder), AfterIssue(TypeScriptOrder);
    Follow(GoOrder, t, GAP_SCRIPT, 4, g4, g4.(ended := true));
    var s5 := s4.(server := Ledger(5, 10, 1), applied := 1);
    Follow(TypeScriptOrder, t, GAP_SCRIPT, 4, s4, s5);
    assert ValidChunk(c2);
    var s6 := s5.(server := Ledger(0, 25, 2), charged := s5.charged + [Sent(c2, 1)], waiting := None);
    Follow(TypeScriptOrder, t, GAP_SCRIPT, 5, s5, s6);
  }
}
