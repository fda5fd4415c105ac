/**
 The server's idempotency ledger: one record per reserved mutation, reached
 through two maps (by scoped idempotency key and by command ID), and a byte
 budget that is charged in full before dispatch and shrunk at finalization.
 A record is named by its position in `records`, which plays the part of its
 address; each function from a ledger to a ledger is one hold of the mutex.
 */
module MutationLedger {
  import opened Base

  datatype Status = Pending | Succeeded | Failed | Unknown

  datatype Record = Record(
    digest: string, idempotencyID: string, commandID: string, connectionID: string,
    status: Status, result: string, failure: Option<ErrorCode>, reservedBytes: u64, finalized: bool)

  datatype Limits = Limits(maxEntries: nat, maxBytes: u64)

  datatype Ledger = Ledger(
    records: seq<Record>, idempotency: map<string, nat>, commands: map<string, nat>, bytes: u64)

  /** The keys a mutation is recorded under, and the connection it is scoped to ("" for none). */
  datatype Identity = Identity(idempotencyID: string, commandID: string, connectionID: string)

  datatype Reservation =
    | Join(record: nat)       // an equal command is recorded: wait for it
    | Reserve(record: nat)    // a new record, owned by the caller
    | Reject(code: ErrorCode)

  datatype Outcome = Outcome(status: Status, result: string, failure: Option<ErrorCode>)

  const EMPTY: Ledger := Ledger([], map[], map[], 0)

  // ---- The critical sections -------------------------------------------------------------

  function Decide(m: Limits, l: Ledger, digest: string, id: Identity, maximumBytes: u64): Reservation {
    if id.idempotencyID in l.idempotency then
      var prior := l.idempotency[id.idempotencyID];
      if prior < |l.records| && l.records[prior].digest == digest then Join(prior) else Reject(Conflict)
    else if id.commandID in l.commands then Reject(Conflict)
    else if |l.idempotency| >= m.maxEntries then Reject(ResourceExhausted)
    else if maximumBytes > WrapSub(m.maxBytes, l.bytes) then Reject(ResourceExhausted)
    else Reserve(|l.records|)
  }

  function Blank(digest: string, id: Identity, maximumBytes: u64): Record {
    Record(digest, id.idempotencyID, id.commandID, id.connectionID, Pending, "", None, maximumBytes, false)
  }

  function Enter(l: Ledger, digest: string, id: Identity, maximumBytes: u64): Ledger {
    var r := |l.records|;
    Ledger(l.records + [Blank(digest, id, maximumBytes)], l.idempotency[id.idempotencyID := r],
           l.commands[id.commandID := r], WrapAdd(l.bytes, maximumBytes))
  }

  /** Reached through the idempotency map. */
  predicate Keyed(l: Ledger, r: nat) {
    r < |l.records| && l.records[r].idempotencyID in l.idempotency && l.idempotency[l.records[r].idempotencyID] == r
  }

  /** Reached through the command map. */
  predicate Commanded(l: Ledger, r: nat) {
    r < |l.records| && l.records[r].commandID in l.commands && l.commands[l.records[r].commandID] == r
  }

  /** Removes a record from the maps that still hold it and returns what it reserves. */
  function Unlink(l: Ledger, r: nat): Ledger
    requires r < |l.records|
  {
    var x := l.records[r];
    Ledger(l.records[r := x.(reservedBytes := 0)],
           if Keyed(l, r) then l.idempotency - {x.idempotencyID} else l.idempotency,
           if Commanded(l, r) then l.commands - {x.commandID} else l.commands,
           if x.reservedBytes <= l.bytes then l.bytes - x.reservedBytes else l.bytes)
  }

  predicate Within(l: Ledger, order: seq<nat>) {
    forall i :: 0 <= i < |order| ==> order[i] < |l.records|
  }

  function UnlinkAll(l: Ledger, order: seq<nat>): (l': Ledger)
    requires Within(l, order)
    ensures |l'.records| == |l.records|
    decreases |order|
  {
    if order == [] then l
    else Unlink(UnlinkAll(l, order[..|order| - 1]), order[|order| - 1])
  }

  function Retention(o: Outcome): u64 {
    if o.status.Succeeded? then |o.result| % U64_LIMIT else 0
  }

  function Settle(l: Ledger, r: nat, o: Outcome): Ledger
    requires r < |l.records|
  {
    var x := l.records[r];
    l.(records := l.records[r := x.(status := o.status, result := o.result,
                                    failure := if o.failure.Some? then o.failure else x.failure,
                                    reservedBytes := Retention(o), finalized := true)],
       bytes := if Retention(o) <= x.reservedBytes then WrapSub(l.bytes, x.reservedBytes - Retention(o)) else l.bytes)
  }

  /** Only the first finalization of a record has an effect. */
  function Finalize(l: Ledger, r: nat, o: Outcome, remove: bool): (l': Ledger)
    requires r < |l.records|
    ensures |l'.records| == |l.records|
  {
    if l.records[r].finalized then l
    else if remove then Unlink(Settle(l, r, o), r)
    else Settle(l, r, o)
  }

  // ---- The invariant ---------------------------------------------------------------------

  function Total(records: seq<Record>): nat {
    if records == [] then 0 else Total(records[..|records| - 1]) + records[|records| - 1].reservedBytes
  }

  /** Bytes reserved by those of the first n records that the maps still hold. */
  function RetainedTotal(l: Ledger, n: nat): nat
    requires n <= |l.records|
  {
    if n == 0 then 0
    else RetainedTotal(l, n - 1) + (if Keyed(l, n - 1) then l.records[n - 1].reservedBytes else 0)
  }

  ghost predicate Indexes(l: Ledger) {
    && (forall k :: k in l.idempotency ==>
          l.idempotency[k] < |l.records| && l.records[l.idempotency[k]].idempotencyID == k)
    && (forall k :: k in l.commands ==> l.commands[k] < |l.records| && l.records[l.commands[k]].commandID == k)
    && (forall r :: 0 <= r < |l.records| ==> (Keyed(l, r) <==> Commanded(l, r)))
  }

  ghost predicate RecordWell(l: Ledger, r: nat)
    requires r < |l.records|
  {
    var x := l.records[r];
    && (x.finalized <==> !x.status.Pending?)
    && (x.status.Failed? ==> x.failure.Some?)
    && (!Keyed(l, r) ==> x.finalized && x.reservedBytes == 0)
  }

  ghost predicate Inv(m: Limits, l: Ledger) {
    && Indexes(l)
    && (forall r :: 0 <= r < |l.records| ==> RecordWell(l, r))
    && l.bytes == Total(l.records) <= m.maxBytes
    && |l.idempotency| <= m.maxEntries
  }

  // ---- Accounting ------------------------------------------------------------------------

  lemma {:induction false} TotalUpdate(records: seq<Record>, r: nat, x: Record)
    requires r < |records|
    ensures Total(records[r := x]) == Total(records) - records[r].reservedBytes + x.reservedBytes
    ensures records[r].reservedBytes <= Total(records)
  {
    var n := |records| - 1;
    if r == n {
      assert records[r := x][..n] == records[..n];
    } else {
      TotalUpdate(records[..n], r, x);
      assert records[r := x][..n] == records[..n][r := x];
    }
  }

  /** The budget in use is exactly what the retained records reserve. */
  lemma BytesAreRetained(m: Limits, l: Ledger)
    requires Inv(m, l)
    ensures l.bytes == RetainedTotal(l, |l.records|) <= m.maxBytes
  {
    RetainedIsTotal(m, l, |l.records|);
    assert l.records[..|l.records|] == l.records;
  }

  lemma {:induction false} RetainedIsTotal(m: Limits, l: Ledger, n: nat)
    requires Inv(m, l) && n <= |l.records|
    ensures RetainedTotal(l, n) == Total(l.records[..n])
  {
    if n > 0 {
      RetainedIsTotal(m, l, n - 1);
      assert l.records[..n][..n - 1] == l.records[..n - 1];
      assert RecordWell(l, n - 1);
    }
  }

  /** The two maps reach the same records, one entry each. */
  lemma MapsAgree(m: Limits, l: Ledger)
    requires Inv(m, l)
    ensures l.idempotency.Values == l.commands.Values
    ensures |l.idempotency| == |l.commands| <= m.maxEntries
    ensures forall r :: r in l.idempotency.Values <==> Keyed(l, r)
  {
    forall r ensures r in l.idempotency.Values <==> Keyed(l, r) {
      if r in l.idempotency.Values { var k :| k in l.idempotency && l.idempotency[k] == r; }
    }
    forall r ensures r in l.commands.Values <==> Commanded(l, r) {
      if r in l.commands.Values { var k :| k in l.commands && l.commands[k] == r; }
    }
    assert forall r :: r in l.idempotency.Values <==> r in l.commands.Values;
    Injective(l.idempotency);
    Injective(l.commands);
  }

  lemma {:induction false} Injective(m: map<string, nat>)
    requires forall j, k :: j in m && k in m && m[j] == m[k] ==> j == k
    ensures |m| == |m.Values|
    decreases |m.Keys|
  {
    if m.Keys == {} {
      assert m.Values == {};
    } else {
      var k :| k in m.Keys;
      var rest := m - {k};
      assert rest.Keys == m.Keys - {k};
      WithoutKey(m, k);
      Injective(rest);
    }
  }

  lemma WithoutKey(m: map<string, nat>, k: string)
    requires k in m && forall j :: j in m && m[j] == m[k] ==> j == k
    ensures m.Values == (m - {k}).Values + {m[k]} && m[k] !in (m - {k}).Values
  {
    var rest := m - {k};
    forall v | v in m.Values && v != m[k] ensures v in rest.Values {
      var j :| j in m && m[j] == v;
      assert j in rest && rest[j] == v;
    }
    forall v | v in rest.Values ensures v in m.Values && v != m[k] {
      var j :| j in rest && rest[j] == v;
      assert j in m && m[j] == v;
    }
  }

  lemma InRange(m: Limits, l: Ledger, k: string)
    requires Inv(m, l)
    ensures k in l.idempotency ==> l.idempotency[k] < |l.records|
  {
  }

  // ---- Every critical section keeps the invariant ----------------------------------------

  lemma EnterKeepsInv(m: Limits, l: Ledger, digest: string, id: Identity, maximumBytes: u64)
    requires Inv(m, l) && Decide(m, l, digest, id, maximumBytes).Reserve?
    ensures var l' := Enter(l, digest, id, maximumBytes);
      && Inv(m, l') && Keyed(l', |l.records|) && l'.bytes == l.bytes + maximumBytes
      && (forall r :: 0 <= r < |l.records| ==> l'.records[r] == l.records[r] && (Keyed(l', r) <==> Keyed(l, r)))
  {
    DecideMeans(m, l, digest, id, maximumBytes);
    EnterKeepsIndexes(l, digest, id, maximumBytes);
    EnterCharges(l, digest, id, maximumBytes);
    hide Total, Keyed, RecordWell, Indexes, Decide, Enter;
  }

  lemma DecideMeans(m: Limits, l: Ledger, digest: string, id: Identity, maximumBytes: u64)
    requires Inv(m, l) && Decide(m, l, digest, id, maximumBytes).Reserve?
    ensures id.idempotencyID !in l.idempotency && id.commandID !in l.commands
    ensures |l.idempotency| < m.maxEntries && l.bytes + maximumBytes <= m.maxBytes
  {
    hide Total, Indexes, RecordWell;
  }

  lemma EnterCharges(l: Ledger, digest: string, id: Identity, maximumBytes: u64)
    requires l.bytes == Total(l.records) && l.bytes + maximumBytes < U64_LIMIT && id.idempotencyID !in l.idempotency
    ensures var l' := Enter(l, digest, id, maximumBytes);
      l'.bytes == Total(l'.records) == l.bytes + maximumBytes && |l'.idempotency| == |l.idempotency| + 1
  {
    TotalAppend(l.records, Blank(digest, id, maximumBytes));
    var grown := l.idempotency[id.idempotencyID := |l.records|];
    assert grown.Keys == l.idempotency.Keys + {id.idempotencyID};
    hide Total;
  }

  lemma EnterKeepsIndexes(l: Ledger, digest: string, id: Identity, maximumBytes: u64)
    requires Indexes(l) && id.idempotencyID !in l.idempotency && id.commandID !in l.commands
    requires forall r :: 0 <= r < |l.records| ==> RecordWell(l, r)
    ensures var l' := Enter(l, digest, id, maximumBytes);
      && Indexes(l') && Keyed(l', |l.records|)
      && (forall r :: 0 <= r < |l.records| ==> l'.records[r] == l.records[r] && (Keyed(l', r) <==> Keyed(l, r)))
      && (forall r :: 0 <= r < |l'.records| ==> RecordWell(l', r))
  {
    var l' := Enter(l, digest, id, maximumBytes);
    var n := |l.records|;
    assert l'.records[n] == Blank(digest, id, maximumBytes);
    forall r | 0 <= r < n
      ensures l'.records[r] == l.records[r] && (Keyed(l', r) <==> Keyed(l, r))
          && (Commanded(l', r) <==> Commanded(l, r))
    {
    }
    forall r | 0 <= r < |l'.records| ensures RecordWell(l', r) && (Keyed(l', r) <==> Commanded(l', r)) {
      if r < n { assert RecordWell(l, r) && (Keyed(l, r) <==> Commanded(l, r)); }
    }
  }

  lemma TotalAppend(records: seq<Record>, x: Record)
    ensures Total(records + [x]) == Total(records) + x.reservedBytes
  {
    assert (records + [x])[..|records|] == records;
  }

  /** A finalized record can be unlinked, in whichever maps still hold it. */
  lemma UnlinkKeepsInv(m: Limits, l: Ledger, r: nat)
    requires Inv(m, l) && r < |l.records| && l.records[r].finalized
    ensures var l' := Unlink(l, r);
      && Inv(m, l') && !Keyed(l', r) && l'.records[r].finalized
      && l.records[r].reservedBytes <= l.bytes
      && (forall q :: 0 <= q < |l.records| && q != r ==>
            l'.records[q] == l.records[q] && (Keyed(l', q) <==> Keyed(l, q)))
  {
    var x := l.records[r];
    TotalUpdate(l.records, r, x.(reservedBytes := 0));
    UnlinkKeepsIndexes(l, r);
    hide Total, Indexes, RecordWell, Commanded;
    assert Unlink(l, r).idempotency.Keys <= l.idempotency.Keys;
    Fewer(Unlink(l, r).idempotency.Keys, l.idempotency.Keys);
  }

  lemma {:induction false} Fewer(a: set<string>, b: set<string>)
    requires a <= b
    ensures |a| <= |b|
  {
    assert b == a + (b - a);
  }

  lemma UnlinkKeepsIndexes(l: Ledger, r: nat)
    requires Indexes(l) && r < |l.records| && l.records[r].finalized
    requires forall q :: 0 <= q < |l.records| ==> RecordWell(l, q)
    ensures var l' := Unlink(l, r);
      && Indexes(l') && !Keyed(l', r)
      && (forall q :: 0 <= q < |l.records| ==> RecordWell(l', q))
      && (forall q :: 0 <= q < |l.records| && q != r ==>
            l'.records[q] == l.records[q] && (Keyed(l', q) <==> Keyed(l, q)))
  {
    var l' := Unlink(l, r);
    assert Keyed(l, r) <==> Commanded(l, r);
    assert RecordWell(l, r);
    forall q | 0 <= q < |l.records| && q != r
      ensures RecordWell(l', q) && (Keyed(l', q) <==> Keyed(l, q)) && (Commanded(l', q) <==> Commanded(l, q))
    {
      assert RecordWell(l, q);
    }
  }

  /** What a finalization retains fits in what the record reserved, and a failure names its error. */
  predicate Fits(l: Ledger, r: nat, o: Outcome)
    requires r < |l.records|
  {
    && !o.status.Pending? && (o.status.Succeeded? ==> |o.result| <= l.records[r].reservedBytes)
    && (o.status.Failed? ==> o.failure.Some?)
  }

  lemma SettleKeepsInv(m: Limits, l: Ledger, r: nat, o: Outcome)
    requires Inv(m, l) && r < |l.records| && !l.records[r].finalized && Fits(l, r, o)
    ensures var l' := Settle(l, r, o);
      && Inv(m, l') && l'.bytes == l.bytes - l.records[r].reservedBytes + Retention(o)
      && (forall q :: 0 <= q < |l.records| ==> (Keyed(l', q) <==> Keyed(l, q)))
  {
    hide Total;
    var l' := Settle(l, r, o);
    TotalUpdate(l.records, r, l'.records[r]);
    forall q | 0 <= q < |l.records|
      ensures RecordWell(l', q) && (Keyed(l', q) <==> Commanded(l', q)) && (Keyed(l', q) <==> Keyed(l, q))
    {
      assert RecordWell(l, q) && (Keyed(l, q) <==> Commanded(l, q));
    }
  }

  lemma FinalizeKeepsInv(m: Limits, l: Ledger, r: nat, o: Outcome, remove: bool)
    requires Inv(m, l) && r < |l.records| && (!l.records[r].finalized ==> Fits(l, r, o))
    ensures var l' := Finalize(l, r, o, remove);
      && Inv(m, l') && l'.records[r].finalized
      && (l.records[r].finalized ==> l' == l)
      && (!l.records[r].finalized ==>
            && l'.records[r].status == o.status && l'.records[r].result == o.result
            && (o.failure.Some? ==> l'.records[r].failure == o.failure) && (remove ==> !Keyed(l', r)))
      && (!remove ==> (Keyed(l', r) <==> Keyed(l, r)))
      && (forall q :: 0 <= q < |l.records| && q != r ==>
            l'.records[q] == l.records[q] && (Keyed(l', q) <==> Keyed(l, q)))
  {
    hide Total;
    if !l.records[r].finalized {
      SettleKeepsInv(m, l, r, o);
      if remove { UnlinkKeepsInv(m, Settle(l, r, o), r); }
    }
  }

  lemma {:induction false} UnlinkAllKeepsInv(m: Limits, l: Ledger, order: seq<nat>)
    requires Inv(m, l) && forall i :: 0 <= i < |order| ==> order[i] < |l.records| && l.records[order[i]].finalized
    ensures var l' := UnlinkAll(l, order);
      && Inv(m, l')
      && (forall r :: 0 <= r < |l.records| ==>
            l'.records[r] == l.records[r] || (r in order && l'.records[r] == l.records[r].(reservedBytes := 0)))
      && (forall r :: 0 <= r < |l.records| && r !in order ==> (Keyed(l', r) <==> Keyed(l, r)))
      && (forall r :: 0 <= r < |l.records| && r in order ==> !Keyed(l', r))
    decreases |order|
  {
    if order != [] {
      var n := |order| - 1;
      var before := UnlinkAll(l, order[..n]);
      UnlinkAllKeepsInv(m, l, order[..n]);
      assert before.records[order[n]].finalized;
      UnlinkKeepsInv(m, before, order[n]);
      assert order == order[..n] + [order[n]];
    }
  }

  // ---- Release of a connection -----------------------------------------------------------

  /** Every retained record scoped to a connection, once each, in the order some iteration met them. */
  ghost predicate Collects(l: Ledger, connectionID: string, order: seq<nat>) {
    && (forall i :: 0 <= i < |order| ==> Keyed(l, order[i]) && l.records[order[i]].connectionID == connectionID)
    && (forall i, j :: 0 <= i < j < |order| ==> order[i] != order[j])
    && (forall r :: 0 <= r < |l.records| && Keyed(l, r) && l.records[r].connectionID == connectionID ==> r in order)
  }

  // ---- The ledger, updated in place ------------------------------------------------------

  datatype Report = Report(status: Status, result: string, failure: Option<ErrorCode>)

  class Server {
    const limits: Limits
    var records: seq<Record>
    var idempotency: map<string, nat>
    var commands: map<string, nat>
    var idempotencyBytes: u64

    constructor (limits: Limits)
      ensures this.limits == limits && Now() == EMPTY && Valid()
    {
      this.limits := limits;
      records, idempotency, commands, idempotencyBytes := [], map[], map[], 0;
    }

    function Now(): Ledger reads this {
      Ledger(records, idempotency, commands, idempotencyBytes)
    }

    ghost predicate Valid() reads this {
      Inv(limits, Now())
    }

    method TryReserve(digest: string, id: Identity, maximumBytes: u64) returns (r: Reservation)
      requires Valid()
      modifies this
      ensures Valid()
      ensures r == Decide(limits, old(Now()), digest, id, maximumBytes)
      ensures Now() == if r.Reserve? then Enter(old(Now()), digest, id, maximumBytes) else old(Now())
    {
      hide Inv;
      InRange(limits, Now(), id.idempotencyID);
      if id.idempotencyID in idempotency {
        var prior := idempotency[id.idempotencyID];
        if records[prior].digest != digest { return Reject(Conflict); }
        return Join(prior);
      }
      if id.commandID in commands { return Reject(Conflict); }
      if |idempotency| >= limits.maxEntries { return Reject(ResourceExhausted); }
      if maximumBytes > WrapSub(limits.maxBytes, idempotencyBytes) { return Reject(ResourceExhausted); }
      EnterKeepsInv(limits, Now(), digest, id, maximumBytes);
      r := Reserve(|records|);
      records := records + [Record(digest, id.idempotencyID, id.commandID, id.connectionID, Pending, "", None,
            maximumBytes, false)];
      idempotency := idempotency[id.idempotencyID := |records| - 1];
      commands := commands[id.commandID := |records| - 1];
      idempotencyBytes := WrapAdd(idempotencyBytes, maximumBytes);
    }

    method Remove(r: nat)
      requires r < |records|
      modifies this
      ensures Now() == Unlink(old(Now()), r)
    {
      var x := records[r];
      if x.idempotencyID in idempotency && idempotency[x.idempotencyID] == r {
        idempotency := idempotency - {x.idempotencyID};
      }
      if x.commandID in commands && commands[x.commandID] == r {
        commands := commands - {x.commandID};
      }
      if x.reservedBytes <= idempotencyBytes {
        idempotencyBytes := idempotencyBytes - x.reservedBytes;
      }
      records := records[r := x.(reservedBytes := 0)];
    }

    method FinalizeMutation(r: nat, o: Outcome, remove: bool)
      requires Valid() && r < |records|
      modifies this
      ensures Now() == Finalize(old(Now()), r, o, remove)
      ensures old(records[r].finalized || Fits(Now(), r, o)) ==> Valid()
    {
      hide Total, Inv;
      if records[r].finalized { return; }
      if Fits(Now(), r, o) { FinalizeKeepsInv(limits, Now(), r, o, remove); }
      var x := records[r];
      var retained: u64 := 0;
      if o.status.Succeeded? { retained := |o.result| % U64_LIMIT; }
      if retained <= x.reservedBytes {
        idempotencyBytes := WrapSub(idempotencyBytes, x.reservedBytes - retained);
      }
      var failure := x.failure;
      if o.failure.Some? { failure := o.failure; }
      records := records[r := x.(status := o.status, result := o.result, failure := failure,
            reservedBytes := retained, finalized := true)];
      if remove { Remove(r); }
    }

    /** The first critical section of a release: what the connection still holds. */
    method Collect(connectionID: string) returns (order: seq<nat>)
      requires Valid()
      ensures Collects(Now(), connectionID, order)
    {
      hide Total, Commanded;
      order := [];
      var rest := idempotency.Keys;
      while rest != {}
        invariant rest <= idempotency.Keys
        invariant forall i :: 0 <= i < |order| ==>
            Keyed(Now(), order[i]) && records[order[i]].connectionID == connectionID
                                                   && records[order[i]].idempotencyID !in rest
        invariant forall i, j :: 0 <= i < j < |order| ==> order[i] != order[j]
        invariant forall k :: k in idempotency && k !in rest && records[idempotency[k]].connectionID == connectionID
                    ==> idempotency[k] in order
        decreases |rest|
      {
        var k :| k in rest;
        var r := idempotency[k];
        if records[r].connectionID == connectionID { order := order + [r]; }
        rest := rest - {k};
      }
    }

    /** The last critical section of a release. */
    method DeleteCollected(order: seq<nat>)
      requires Valid() && forall i :: 0 <= i < |order| ==> order[i] < |records| && records[order[i]].finalized
      modifies this
      ensures Valid() && Now() == UnlinkAll(old(Now()), order)
    {
      UnlinkAllKeepsInv(limits, Now(), order);
      for i := 0 to |order|
        invariant Now() == UnlinkAll(old(Now()), order[..i])
      {
        assert order[..i + 1][..i] == order[..i];
        Remove(order[i]);
      }
      assert order[..|order|] == order;
    }

    method CommandResult(commandID: string) returns (r: Result<Report>)
      requires Valid()
      ensures r.Ok? <==> commandID in commands
      ensures r.Err? ==> r.code == Unavailable
      ensures r.Ok? ==>
        var q := commands[commandID];
        && Keyed(Now(), q) && records[q].commandID == commandID && r.value.status == records[q].status
        && r.value.result == (if records[q].status.Succeeded? then records[q].result else "")
        && r.value.failure == (if records[q].status.Failed? then records[q].failure else None)
        && (records[q].status.Failed? ==> r.value.failure.Some?)
    {
      if commandID !in commands { return Err(Unavailable); }
      var q := commands[commandID];
      assert Commanded(Now(), q) && RecordWell(Now(), q);
      if !records[q].finalized { return Ok(Report(Pending, "", None)); }
      match records[q].status
      case Failed => r := Ok(Report(Failed, "", records[q].failure));
      case Succeeded => r := Ok(Report(Succeeded, records[q].result, None));
      case Unknown => r := Ok(Report(Unknown, "", None));
      case Pending => r := Ok(Report(Pending, "", None));
    }
  }
}
