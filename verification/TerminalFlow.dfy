/**
 The two ends of a terminal subscription.  Each end keeps a ledger of the
 flow-control window, the byte offset reached and the last sequence number; the
 critical sections of `terminalFlow` and `clientTerminalFlow` are functions from
 a ledger to the next one, and the two classes below perform them in place.
 */
module TerminalFlow {
  import opened Base

  const MAX_CHUNK_BYTES: int := 262144
  const MAX_WINDOW_BYTES: int := 8388608
  const MAX_REDACTIONS: int := 1024

  datatype Redaction = Redaction(start: u64, end: u64)

  /** `size` is the length of the decoded data. */
  datatype Chunk = Chunk(
    session: string, stream: string, sequence: u64, offset: u64, size: u64,
    replayed: bool, truncated: bool, redactions: seq<Redaction>, creditRemaining: u64)

  datatype Credit = Credit(session: string, stream: string, bytes: u64, throughOffset: u64)

  /** Redacted ranges lie inside the chunk, are non-empty, ordered and disjoint. */
  ghost predicate ValidRedactions(c: Chunk, n: nat)
    requires n <= |c.redactions|
  {
    && (forall i :: 0 <= i < n ==> c.offset <= c.redactions[i].start < c.redactions[i].end <= c.offset + c.size)
    && (forall i, j :: 0 <= i < j < n ==> c.redactions[i].end <= c.redactions[j].start)
  }

  ghost predicate ValidChunk(c: Chunk) {
    && c.sequence != 0
    && 0 < c.size <= MAX_CHUNK_BYTES
    && c.creditRemaining <= MAX_WINDOW_BYTES
    && c.offset + c.size < U64_LIMIT
    && |c.redactions| <= MAX_REDACTIONS
    && ValidRedactions(c, |c.redactions|)
  }

  /** The validator adds with wrap-around and compares; what it accepts is exactly the unwrapped meaning. */
  method ValidateChunk(c: Chunk) returns (ok: bool)
    ensures ok <==> ValidChunk(c)
  {
    hide WrapAdd;
    if c.sequence == 0 || c.size == 0 || c.size > MAX_CHUNK_BYTES || c.creditRemaining > MAX_WINDOW_BYTES {
      return false;
    }
    var chunkEnd := WrapAdd(c.offset, c.size);
    if chunkEnd < c.offset || |c.redactions| > MAX_REDACTIONS {
      return false;
    }
    var previousEnd := c.offset;
    for i := 0 to |c.redactions|
      invariant chunkEnd == c.offset + c.size
      invariant ValidRedactions(c, i)
      invariant previousEnd == if i == 0 then c.offset else c.redactions[i - 1].end
      invariant forall k :: 0 <= k < i ==> c.redactions[k].end <= previousEnd
    {
      var r := c.redactions[i];
      if r.start < c.offset || r.end <= r.start || r.end > chunkEnd || r.start < previousEnd {
        assert !ValidRedactions(c, |c.redactions|) by {
          if i > 0 && r.start < previousEnd {
            assert c.redactions[i - 1].end > c.redactions[i].start;
          }
        }
        return false;
      }
      previousEnd := r.end;
    }
    return true;
  }

  /** The negotiated facts about a subscription that no step changes. */
  datatype Terms = Terms(
    session: string, stream: string, window: u64, afterOffset: u64, maximumChunk: u64, replayAllowed: bool)

  ghost predicate ValidTerms(t: Terms) {
    0 < t.window <= MAX_WINDOW_BYTES
  }

  datatype Ledger = Ledger(remaining: u64, throughOffset: u64, sequence: u64)

  function OpeningLedger(t: Terms): Ledger {
    Ledger(t.window, t.afterOffset, 0)
  }

  ghost predicate Addressed(t: Terms, c: Chunk) {
    c.session == t.session && c.stream == t.stream
  }

  /** The chunk starts where the ledger stands, or is marked truncated and starts later. */
  predicate OffsetFollows(through: u64, c: Chunk) {
    c.offset == through || (c.truncated && c.offset > through)
  }

  /** The increment wraps, so after 2^64-1 only a truncated chunk can follow. */
  predicate SequenceFollows(sequence: u64, c: Chunk) {
    sequence == 0 || c.sequence == WrapAdd(sequence, 1) || c.truncated
  }

  /** Which end of a wait a server checks the offset at. */
  datatype Order = GoOrder | TypeScriptOrder

  datatype Charge =
    | Charged(after: Ledger)
    | Blocked(after: Ledger)
    | Refused(after: Ledger, code: ErrorCode)

  /** One pass of the Go server's loop: the offset moves before the window is consulted. */
  ghost function GoCharge(t: Terms, l: Ledger, c: Chunk): Charge {
    if !Addressed(t, c) then Refused(l, InvalidArgument)
    else if !ValidChunk(c) then Refused(l, InvalidArgument)
    else if c.size > t.maximumChunk then Refused(l, MessageTooLarge)
    else if c.replayed && !t.replayAllowed then Refused(l, InvalidArgument)
    else if !OffsetFollows(l.throughOffset, c) then Refused(l, SequenceConflict)
    else
      var moved := l.(throughOffset := c.offset);
      if !SequenceFollows(l.sequence, c) then Refused(moved, SequenceConflict)
      else if c.size <= l.remaining then
        var after := Ledger(l.remaining - c.size, c.offset + c.size, c.sequence);
        if c.creditRemaining == after.remaining then Charged(after) else Refused(after, InvalidArgument)
      else Blocked(moved)
  }

  /** One pass of the TypeScript server: it waits first and looks at the offset after. */
  ghost function TypeScriptCharge(t: Terms, l: Ledger, c: Chunk): Charge {
    if !ValidChunk(c) then Refused(l, InvalidArgument)
    else if c.size > t.maximumChunk then Refused(l, MessageTooLarge)
    else if c.size > t.window then Refused(l, ResourceExhausted)
    else if c.size > l.remaining then Blocked(l)
    else if !Addressed(t, c) || (c.replayed && !t.replayAllowed) then Refused(l, InvalidArgument)
    else if !OffsetFollows(l.throughOffset, c) then Refused(l, SequenceConflict)
    else if !SequenceFollows(l.sequence, c) then Refused(l.(throughOffset := c.offset), SequenceConflict)
    else
      var after := Ledger(l.remaining - c.size, c.offset + c.size, c.sequence);
      if c.creditRemaining == after.remaining then Charged(after) else Refused(after, InvalidArgument)
  }

  ghost function ServerCharge(o: Order, t: Terms, l: Ledger, c: Chunk): Charge {
    if o.GoOrder? then GoCharge(t, l, c) else TypeScriptCharge(t, l, c)
  }

  /** What the client refuses before it looks at the flow. */
  ghost function Screen(t: Terms, c: Chunk): Option<ErrorCode> {
    if !ValidChunk(c) then Some(InvalidArgument)
    else if c.size > t.maximumChunk then Some(MessageTooLarge)
    else if (c.replayed && !t.replayAllowed) || !Addressed(t, c) then Some(InvalidArgument)
    else None
  }

  /** The client takes a chunk only when its balance equals the one the server echoed. */
  ghost function ClientConsume(t: Terms, l: Ledger, c: Chunk): Result<Ledger> {
    if !ValidChunk(c) then Err(InvalidArgument)
    else if c.size > t.maximumChunk then Err(MessageTooLarge)
    else if c.replayed && !t.replayAllowed then Err(InvalidArgument)
    else if !Addressed(t, c) then Err(InvalidArgument)
    else if !OffsetFollows(l.throughOffset, c) then Err(SequenceConflict)
    else if !SequenceFollows(l.sequence, c) then Err(SequenceConflict)
    else if c.size > l.remaining then Err(InvalidArgument)
    else if c.creditRemaining != l.remaining - c.size then Err(InvalidArgument)
    else Ok(Ledger(l.remaining - c.size, c.offset + c.size, c.sequence))
  }

  ghost predicate ValidCredit(k: Credit) {
    0 < k.bytes <= MAX_WINDOW_BYTES
  }

  /** Both ends apply a credit by the same test, in machine arithmetic. */
  ghost function ApplyCredit(t: Terms, l: Ledger, k: Credit): Result<Ledger> {
    if !ValidCredit(k) || k.session != t.session || k.stream != t.stream then Err(InvalidArgument)
    else if k.throughOffset != l.throughOffset || k.bytes > WrapSub(t.window, l.remaining) then Err(InvalidArgument)
    else Ok(l.(remaining := WrapAdd(l.remaining, k.bytes)))
  }

  /** The server's end, updated in place; one call of TryConsume is one hold of the mutex. */
  class ServerFlow {
    const terms: Terms
    var remaining: u64
    var throughOffset: u64
    var sequence: u64

    constructor (terms: Terms)
      requires ValidTerms(terms)
      ensures this.terms == terms && Now() == OpeningLedger(terms) && Valid()
    {
      this.terms := terms;
      remaining, throughOffset, sequence := terms.window, terms.afterOffset, 0;
    }

    function Now(): Ledger reads this {
      Ledger(remaining, throughOffset, sequence)
    }

    ghost predicate Valid() reads this {
      ValidTerms(terms) && remaining <= terms.window
    }

    method TryConsume(chunk: Chunk) returns (outcome: Charge)
      requires Valid()
      modifies this
      ensures Valid()
      ensures outcome == GoCharge(terms, old(Now()), chunk)
      ensures Now() == outcome.after
    {
      if chunk.session != terms.session || chunk.stream != terms.stream {
        return Refused(Now(), InvalidArgument);
      }
      var ok := ValidateChunk(chunk);
      if !ok {
        return Refused(Now(), InvalidArgument);
      }
      if chunk.size > terms.maximumChunk {
        return Refused(Now(), MessageTooLarge);
      }
      if chunk.replayed && !terms.replayAllowed {
        return Refused(Now(), InvalidArgument);
      }
      if chunk.offset != throughOffset {
        if !chunk.truncated || chunk.offset < throughOffset {
          return Refused(Now(), SequenceConflict);
        }
        throughOffset := chunk.offset;
      }
      if sequence != 0 && chunk.sequence != WrapAdd(sequence, 1) && !chunk.truncated {
        return Refused(Now(), SequenceConflict);
      }
      if chunk.size <= remaining {
        remaining := remaining - chunk.size;
        throughOffset := WrapAdd(throughOffset, chunk.size);
        sequence := chunk.sequence;
        if chunk.creditRemaining != remaining {
          return Refused(Now(), InvalidArgument);
        }
        return Charged(Now());
      }
      return Blocked(Now());
    }

    method AddCredit(credit: Credit) returns (ok: bool)
      requires Valid()
      modifies this`remaining
      ensures Valid()
      ensures ok <==> ApplyCredit(terms, old(Now()), credit).Ok?
      ensures Now() == if ok then ApplyCredit(terms, old(Now()), credit).value else old(Now())
    {
      if credit.bytes == 0 || credit.bytes > MAX_WINDOW_BYTES || credit.session != terms.session
          || credit.stream != terms.stream {
        return false;
      }
      if credit.throughOffset != throughOffset || credit.bytes > WrapSub(terms.window, remaining) {
        return false;
      }
      remaining := WrapAdd(remaining, credit.bytes);
      return true;
    }
  }

  /** The TypeScript server's end; one call of TryConsume is what runs between two waits. */
  class TerminalLedger {
    const terms: Terms
    var remaining: u64
    var throughOffset: u64
    var sequence: u64

    constructor (terms: Terms)
      requires ValidTerms(terms)
      ensures this.terms == terms && Now() == OpeningLedger(terms) && Valid()
    {
      this.terms := terms;
      remaining, throughOffset, sequence := terms.window, terms.afterOffset, 0;
    }

    function Now(): Ledger reads this {
      Ledger(remaining, throughOffset, sequence)
    }

    ghost predicate Valid() reads this {
      ValidTerms(terms) && remaining <= terms.window
    }

    method TryConsume(chunk: Chunk) returns (outcome: Charge)
      requires Valid()
      modifies this
      ensures Valid()
      ensures outcome == TypeScriptCharge(terms, old(Now()), chunk)
      ensures Now() == outcome.after
    {
      var ok := ValidateChunk(chunk);
      if !ok { return Refused(Now(), InvalidArgument); }
      if chunk.size > terms.maximumChunk { return Refused(Now(), MessageTooLarge); }
      if chunk.size > terms.window { return Refused(Now(), ResourceExhausted); }
      if chunk.size > remaining { return Blocked(Now()); }
      if chunk.session != terms.session || chunk.stream != terms.stream || (chunk.replayed && !terms.replayAllowed) {
        return Refused(Now(), InvalidArgument);
      }
      if chunk.offset != throughOffset {
        if !chunk.truncated || chunk.offset < throughOffset { return Refused(Now(), SequenceConflict); }
        throughOffset := chunk.offset;
      }
      if sequence != 0 && chunk.sequence != WrapAdd(sequence, 1) && !chunk.truncated {
        return Refused(Now(), SequenceConflict);
      }
      remaining := remaining - chunk.size;
      throughOffset := WrapAdd(throughOffset, chunk.size);
      sequence := chunk.sequence;
      if chunk.creditRemaining != remaining { return Refused(Now(), InvalidArgument); }
      return Charged(Now());
    }

    method ApplyTerminalCredit(credit: Credit) returns (ok: bool)
      requires Valid()
      modifies this`remaining
      ensures Valid()
      ensures ok <==> ApplyCredit(terms, old(Now()), credit).Ok?
      ensures Now() == if ok then ApplyCredit(terms, old(Now()), credit).value else old(Now())
    {
      if credit.bytes == 0 || credit.bytes > MAX_WINDOW_BYTES || credit.session != terms.session
          || credit.stream != terms.stream {
        return false;
      }
      if credit.throughOffset != throughOffset || credit.bytes > WrapSub(terms.window, remaining) { return false; }
      remaining := WrapAdd(remaining, credit.bytes);
      return true;
    }
  }

  /** The client's end, updated in place. */
  class ClientFlow {
    const terms: Terms
    var remaining: u64
    var throughOffset: u64
    var sequence: u64
    var closed: bool

    constructor (terms: Terms)
      requires ValidTerms(terms)
      ensures this.terms == terms && Now() == OpeningLedger(terms) && !closed && Valid()
    {
      this.terms := terms;
      remaining, throughOffset, sequence, closed := terms.window, terms.afterOffset, 0, false;
    }

    function Now(): Ledger reads this {
      Ledger(remaining, throughOffset, sequence)
    }

    ghost predicate Valid() reads this {
      ValidTerms(terms) && remaining <= terms.window
    }

    /** `active` is whether the client still indexes this flow. */
    method Consume(chunk: Chunk, active: bool) returns (result: Option<ErrorCode>)
      requires Valid()
      modifies this`remaining, this`throughOffset, this`sequence
      ensures Valid()
      ensures closed || !active ==>
        && Now() == old(Now())
        && result == (if Screen(terms, chunk).Some? then Screen(terms, chunk) else Some(Conflict))
      ensures !closed && active ==>
        match ClientConsume(terms, old(Now()), chunk)
        case Ok(after) => result == None && Now() == after
        case Err(code) => result == Some(code) && Now() == old(Now())
    {
      var ok := ValidateChunk(chunk);
      if !ok { return Some(InvalidArgument); }
      if chunk.size > terms.maximumChunk { return Some(MessageTooLarge); }
      if chunk.replayed && !terms.replayAllowed { return Some(InvalidArgument); }
      if chunk.session != terms.session || chunk.stream != terms.stream { return Some(InvalidArgument); }
      if closed || !active { return Some(Conflict); }
      var nextOffset := throughOffset;
      if chunk.offset != nextOffset {
        if !chunk.truncated || chunk.offset < nextOffset { return Some(SequenceConflict); }
        nextOffset := chunk.offset;
      }
      if sequence != 0 && chunk.sequence != WrapAdd(sequence, 1) && !chunk.truncated { return Some(SequenceConflict); }
      if chunk.size > remaining { return Some(InvalidArgument); }
      var nextRemaining := remaining - chunk.size;
      if chunk.creditRemaining != nextRemaining { return Some(InvalidArgument); }
      remaining := nextRemaining;
      throughOffset := WrapAdd(nextOffset, chunk.size);
      sequence := chunk.sequence;
      return None;
    }

    /** `written` is whether the transport took the frame; the balance grows only if it did. */
    method SendCredit(credit: Credit, active: bool, written: bool) returns (sent: bool)
      requires Valid()
      modifies this`remaining
      ensures Valid()
      ensures sent <==> !closed && active && written && ApplyCredit(terms, old(Now()), credit).Ok?
      ensures Now() == if sent then ApplyCredit(terms, old(Now()), credit).value else old(Now())
    {
      if credit.bytes == 0 || credit.bytes > MAX_WINDOW_BYTES || credit.session != terms.session
          || credit.stream != terms.stream {
        return false;
      }
      if closed || !active { return false; }
      if credit.throughOffset != throughOffset || credit.bytes > WrapSub(terms.window, remaining) { return false; }
      if !written { return false; }
      remaining := WrapAdd(remaining, credit.bytes);
      return true;
    }
  }
}
