/**
 What the credit protocol lets through, stated over the histories and the
 negotiated terms alone: a server charges a chunk, holds it back or ends the
 connection, and a client issues a credit, exactly under these conditions.  When
 nothing is in flight whatever is charged or issued then also arrives.
 */
module TerminalProgress {
  import opened Base
  import opened TerminalFlow
  import opened TerminalCredit

  /** The balance after everything the server has charged and applied. */
  function ServerBalance(t: Terms, s: State): int
    requires s.applied <= |s.issued|
  {
    t.window + Granted(s.issued, s.applied) - Bytes(s.charged, |s.charged|)
  }

  /** The balance after everything the client has consumed and issued. */
  function ClientBalance(t: Terms, s: State): int
    requires s.consumed <= |s.charged|
  {
    t.window + Granted(s.issued, |s.issued|) - Bytes(s.charged, s.consumed)
  }

  /** The chunk is valid on its own, fits the terms and is addressed to this stream. */
  ghost predicate Suits(t: Terms, c: Chunk) {
    && ValidChunk(c) && c.session == t.session && c.stream == t.stream
    && c.size <= t.maximumChunk && (c.replayed ==> t.replayAllowed)
  }

  /** It starts where the charged history ends and is numbered one past the last, or is marked truncated and skips. */
  predicate Continues(t: Terms, s: State, c: Chunk) {
    var n := |s.charged|;
    && (c.offset == End(t, s.charged, n) || (c.truncated && c.offset > End(t, s.charged, n)))
    && (n == 0 || c.truncated || c.sequence == s.charged[n - 1].chunk.sequence + 1)
  }

  ghost predicate Chargeable(t: Terms, s: State, c: Chunk)
    requires s.applied <= |s.issued|
  {
    && Suits(t, c) && Continues(t, s, c)
    && c.size <= ServerBalance(t, s) && c.creditRemaining == ServerBalance(t, s) - c.size
  }

  /** What a server holds back for credit: the Go server what it could otherwise charge, the TypeScript server anything
      that could ever fit. */
  ghost predicate HeldBack(o: Order, t: Terms, s: State, c: Chunk)
    requires s.applied <= |s.issued|
  {
    && c.size > ServerBalance(t, s)
    && (if o.GoOrder? then Suits(t, c) && Continues(t, s, c)
        else ValidChunk(c) && c.size <= t.maximumChunk && c.size <= t.window)
  }

  predicate Charges(s: State, s': State, c: Chunk) {
    s'.charged == s.charged + [Sent(c, s.applied)] && s'.waiting == None && !s'.ended
  }

  lemma LastNumbered(o: Order, t: Terms, s: State)
    requires Live(o, t, s)
    ensures s.server.sequence == LastSequence(s.charged, |s.charged|)
    ensures |s.charged| > 0 ==> s.charged[|s.charged| - 1].chunk.sequence != 0
  {
    if |s.charged| > 0 { assert ChunkWell(t, s, |s.charged| - 1); }
  }

  lemma BalanceWithinWindow(o: Order, t: Terms, s: State)
    requires Live(o, t, s)
    ensures 0 <= s.server.remaining == ServerBalance(t, s) <= t.window
  {
    BytesMonotone(s.charged, s.consumed, |s.charged|);
    GrantedStrict(t, s, s.applied, |s.issued|);
  }

  /** The three outcomes of offering a chunk to a server that holds none back. */
  lemma OfferIsExact(o: Order, t: Terms, es: seq<Event>, c: Chunk)
    requires ValidTerms(t) && !Run(o, t, es).ended && Run(o, t, es).waiting.None?
    ensures var s, s' := Run(o, t, es), Step(o, t, Run(o, t, es), Offer(c));
      && s.applied <= |s.issued|
      && (Charges(s, s', c) <==> Chargeable(t, s, c))
      && (s'.waiting == Some(c) && !s'.ended <==> HeldBack(o, t, s, c))
      && (s'.ended <==> !Chargeable(t, s, c) && !HeldBack(o, t, s, c))
  {
    RunInvariant(o, t, es);
    hide Run;
    var s := Run(o, t, es);
    LastNumbered(o, t, s);
    BalanceWithinWindow(o, t, s);
    assert |s.charged + [Sent(c, s.applied)]| == |s.charged| + 1;
    hide ValidRedactions, ChargedWell, IssuedWell, Uncrossed, Granted, Bytes;
  }

  /** Which refusal a chunk meets: its size first, its place in the stream last, anything else is an invalid
      argument. */
  lemma RefusalCodes(t: Terms, l: Ledger, c: Chunk)
    ensures var go, ts, client := GoCharge(t, l, c), TypeScriptCharge(t, l, c), ClientConsume(t, l, c);
      var placed := OffsetFollows(l.throughOffset, c) && SequenceFollows(l.sequence, c);
      && (go.Refused? ==>
            go.code == (if ValidChunk(c) && Addressed(t, c) && c.size > t.maximumChunk then MessageTooLarge
                        else if Suits(t, c) && !placed then SequenceConflict else InvalidArgument))
      && (ts.Refused? ==>
            ts.code == (if ValidChunk(c) && c.size > t.maximumChunk then MessageTooLarge
                        else if ValidChunk(c) && c.size > t.window then ResourceExhausted
                        else if Suits(t, c) && !placed then SequenceConflict else InvalidArgument))
      && (client.Err? ==>
            client.code == (if ValidChunk(c) && c.size > t.maximumChunk then MessageTooLarge
                            else if Suits(t, c) && !placed then SequenceConflict else InvalidArgument))
  {
    hide ValidRedactions;
  }

  /** A refusal leaves the ledger alone, except that a chunk wrong in nothing but the balance it echoes has been charged
      by then; holding a chunk back moves the offset in the Go order alone. */
  lemma RefusalLeaves(t: Terms, l: Ledger, c: Chunk)
    requires l.remaining <= t.window
    ensures var go, ts := GoCharge(t, l, c), TypeScriptCharge(t, l, c);
      var placed := OffsetFollows(l.throughOffset, c) && SequenceFollows(l.sequence, c);
      var spent := Suits(t, c) && placed && c.size <= l.remaining;
      && (go.Refused? || ts.Refused? ==>
            if spent then
              && go == Refused(go.after, InvalidArgument) && ts == go
              && go.after == Ledger(l.remaining - c.size, c.offset + c.size, c.sequence)
            else (go.Refused? ==> go.after == l) && (ts.Refused? ==> ts.after == l))
      && (go.Blocked? ==> go.after == l.(throughOffset := c.offset)) && (ts.Blocked? ==> ts.after == l)
  {
    hide ValidRedactions;
  }

  /** A chunk held back is charged when it is tried again exactly once the balance covers it, given nothing else is
      wrong. */
  lemma RetryIsExact(o: Order, t: Terms, es: seq<Event>, c: Chunk)
    requires ValidTerms(t) && !Run(o, t, es).ended && Run(o, t, es).waiting == Some(c)
    ensures var s, s' := Run(o, t, es), Step(o, t, Run(o, t, es), Offer(c));
      s.applied <= |s.issued| && (Charges(s, s', c) <==> Chargeable(t, s, c))
  {
    RunInvariant(o, t, es);
    hide Run;
    var s := Run(o, t, es);
    LastNumbered(o, t, s);
    BalanceWithinWindow(o, t, s);
    assert |s.charged + [Sent(c, s.applied)]| == |s.charged| + 1;
    hide ValidRedactions, ChargedWell, IssuedWell, Uncrossed, Granted, Bytes;
  }

  /** The credit grants something, is addressed to this stream, echoes the offset consumed and fits the window. */
  predicate Issuable(t: Terms, s: State, k: Credit)
    requires s.consumed <= |s.charged|
  {
    && 0 < k.bytes && k.session == t.session && k.stream == t.stream
    && k.throughOffset == End(t, s.charged, s.consumed) && k.bytes <= t.window - ClientBalance(t, s)
  }

  lemma IssueIsExact(o: Order, t: Terms, es: seq<Event>, k: Credit)
    requires ValidTerms(t) && !Run(o, t, es).ended
    ensures var s, s' := Run(o, t, es), Step(o, t, Run(o, t, es), Issue(k));
      && s.consumed <= |s.charged| && !s'.ended
      && (s'.issued == s.issued + [Issued(k, s.consumed)] <==> Issuable(t, s, k))
      && (s' == s <==> !Issuable(t, s, k))
  {
    RunInvariant(o, t, es);
    hide Run;
    var s, s' := Run(o, t, es), Step(o, t, Run(o, t, es), Issue(k));
    hide ChargedWell, IssuedWell, Uncrossed;
    assert s'.issued == s.issued + [Issued(k, s.consumed)] ==> |s'.issued| != |s.issued|;
  }

  // ---- With nothing in flight ------------------------------------------------------------

  predicate Quiet(s: State) {
    !s.ended && s.consumed == |s.charged| && s.applied == |s.issued| && s.waiting.None?
  }

  /** Then every chargeable chunk is charged and consumed, in both orders. */
  lemma ChunkArrives(o: Order, t: Terms, es: seq<Event>, c: Chunk)
    requires ValidTerms(t) && Quiet(Run(o, t, es)) && Chargeable(t, Run(o, t, es), c)
    ensures var s := Run(o, t, es);
      var s' := Run(o, t, es + [Offer(c), TakeChunk]);
      && !s'.ended && s'.charged == s.charged + [Sent(c, s.applied)] && s'.consumed == |s.charged| + 1
      && s'.issued == s.issued && s'.applied == s.applied && Quiet(s')
  {
    var s, s1 := Run(o, t, es), Run(o, t, es + [Offer(c)]);
    OneMore(o, t, es, Offer(c));
    OfferIsExact(o, t, es, c);
    ChunkAcceptedIff(o, t, es + [Offer(c)]);
    OneMore(o, t, es + [Offer(c)], TakeChunk);
    assert es + [Offer(c)] + [TakeChunk] == es + [Offer(c), TakeChunk];
    hide Run, ServerCharge, ClientConsume;
  }

  /** And every issuable credit, up to the whole free window, is issued and applied. */
  lemma CreditArrives(o: Order, t: Terms, es: seq<Event>, k: Credit)
    requires ValidTerms(t) && Quiet(Run(o, t, es)) && Issuable(t, Run(o, t, es), k)
    ensures var s := Run(o, t, es);
      var s' := Run(o, t, es + [Issue(k), TakeCredit]);
      && !s'.ended && s'.issued == s.issued + [Issued(k, s.consumed)] && s'.applied == |s.issued| + 1
      && s'.charged == s.charged && s'.consumed == s.consumed && Quiet(s')
  {
    var s, s1 := Run(o, t, es), Run(o, t, es + [Issue(k)]);
    OneMore(o, t, es, Issue(k));
    IssueIsExact(o, t, es, k);
    CreditAcceptedIff(o, t, es + [Issue(k)]);
    OneMore(o, t, es + [Issue(k)], TakeCredit);
    assert es + [Issue(k)] + [TakeCredit] == es + [Issue(k), TakeCredit];
    hide Run, ApplyCredit;
  }

  /** Both ends of a quiet stream have the same balance, so a chunk of any size up to it can follow. */
  lemma QuietBalances(t: Terms, s: State)
    requires Quiet(s)
    ensures ClientBalance(t, s) == ServerBalance(t, s)
  {
  }

  lemma OneMore(o: Order, t: Terms, es: seq<Event>, e: Event)
    ensures Run(o, t, es + [e]) == Step(o, t, Run(o, t, es), e)
  {
    hide Step;
    RunFromAppend(o, t, Opening(t), es, [e]);
    assert [e][1..] == [];
  }
}
