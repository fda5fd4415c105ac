# Verified model of the provider protocol SDK

The provider SDK speaks JSON-RPC 2.0 over newline-delimited frames, in Go and in
TypeScript. This project models its state machines and hand-written text processing
in Dafny and proves what they promise over every run and every input.

`dafny verify dfyconfig.toml` checks everything.

| module | what it models |
|---|---|
| `TerminalFlow`, `TerminalCredit`, `TerminalOrder`, `TerminalProgress` | the two ledgers of a terminal subscription, joined by a chunk channel and a credit channel |
| `MutationLedger`, `MutationIdentity`, `MutationRuns`, `CallOutcomes`, `CancelledCalls`, `MutationScript`, `LateReservations` | idempotency records, their byte budget, and the server's whole lifetime: connections, calls, flush, commit, rollback, release |
| `EventTracker`, `EventJournal` | the event sequence tracker and the control-plane journal on top of it |
| `StrictJson`, `JsonGrammar`, `JsonTransport`, `JsonScanner`, `JsonCompact` | the strict parser and the grammar of RFC 8259 it is measured against, the lenient scanner that cuts out the command's raw bytes, and the compactor |
| `Framing` | both frame readers and the frame writer |
| `Subscriptions`, `ClientAttach`, `FrameWriters`, `WriteOrder`, `LostWrites` | subscription slots, shared attach flows, and write admission over a bounded queue |
| `VerificationSubject`, `Verification` | canonical subjects and the projection of evidence to a tier |
| `AuthorityWalk` | the walks that refuse gateway-owned fields |
| `Base` | 64-bit arithmetic, error codes |

Objects that the source updates in place are classes; each of their methods is proved
equal to a function of the old state, and the theorems are about that function.
Concurrency is a state machine: one event is one hold of a mutex or one turn of the
event loop, events come in any order, and cancellation, deadlines, transport failures and
handler results are events or parameters of events. A Go pointer is an index into a sequence.

## Findings

Properties one would expect that the code does not have, each with the exact condition
under which it does:

- A truncated chunk that waits for credit has already moved the Go server's offset, so the
  server then refuses every credit a conforming client can send: no further chunk is ever
  charged (`TerminalCredit.GapWaitIsFatal`). The TypeScript server waits first and carries on;
  one script shows both (`TerminalCredit.GapScriptSeparatesOrders`). A credit is accepted exactly
  when nothing crossed it and no such chunk waits (`TerminalCredit.CreditAcceptedIff`).
- The TypeScript frame reader's error code, unlike its frames, can depend on fragmentation,
  exactly when a line is too long and a carriage return lies beyond the limit
  (`Framing.FragmentationIrrelevant`, `Framing.EitherCodeIsReached`). The Go and the TypeScript reader
  yield the same frames of every stream and refuse the same streams; their codes differ exactly when
  the TypeScript reader meets a carriage return in a line that is too long before it has counted past
  the limit (`Framing.ReadersAgree`, `Framing.CodesDiffer`).
- After sequence 2^64-1 the tracker's increment wraps and every late arrival counts as a gap
  (`EventTracker.GapExactly`, `EventTracker.GapWrapsAtLimit`).
- The encode check before a mutation commits stands a 256-character ID in for the real one. For
  every result it covers exactly the request IDs that take at most 256 bytes once JSON-escaped
  (`MutationRuns.EncodeCheckCovers`). The wire accepts IDs that take more
  (`MutationRuns.EncodeCheckMisses`); a result that passes the check but not the real limit is
  rolled back to an unknown outcome although its handler succeeded
  (`MutationScript.UncoveredIsRolledBack`).
- When a stream's `write` throws synchronously, the TypeScript writer forgets the active job
  before it fails the rest. In every run a waiting frame is neither queued nor active exactly if
  the stream threw on it, when it was handed on or when an earlier write completed, and its abort
  listener has not run since (`LostWrites.LossIsExact`). Without a signal it then never settles and
  its admission is never returned (`LostWrites.LostForever`); two events reach the case
  (`LostWrites.LossIsReached`).
- A released connection can leave a record behind: an attach call that reserves after the release
  has collected. After the release a record of that connection is retained exactly if it was
  reserved after the collection and its call was not refused admission
  (`LateReservations.ReleaseMissesLateRecords`); it then stays for the life of the server
  (`LateReservations.LateRecordStays`), and the case is reached by a call that never ran a handler
  (`LateReservations.LateRecordIsReached`).

## Model

| member | source | states |
|---|---|---|
| `TerminalFlow.ValidateChunk` | protocol/runtime.go:387-425 | accepts exactly the chunks whose range ends below 2^64 and whose redactions lie inside it, non-empty, ordered and disjoint, although it adds with wrap-around |
| `TerminalFlow.ServerFlow.TryConsume` | provider/subscription.go:329-375 | one pass of the Go server's wait loop: refused, held back or charged, with the offset moved before the window is consulted |
| `TerminalFlow.ServerFlow.AddCredit` | provider/subscription.go:377-390 | a credit is applied exactly when it echoes the offset and fits the window; otherwise nothing changes |
| `TerminalFlow.TerminalLedger.TryConsume` | sdk/typescript/src/server.ts:1035-1076 | one pass of the TypeScript server, which waits before it looks at the offset |
| `TerminalFlow.TerminalLedger.ApplyTerminalCredit` | sdk/typescript/src/server.ts:1131-1151 | the TypeScript server applies a credit by the same test as the Go server |
| `TerminalFlow.ClientFlow.Consume` | provider/client.go:1211-1245 | the client takes a chunk exactly when offset, sequence, window and echoed balance fit; a refused one changes nothing, and a closed or inactive flow answers conflict once the chunk itself passes |
| `TerminalFlow.ClientFlow.SendCredit` | provider/client.go:526-547 | the client's balance grows exactly when the credit fits and its frame was written |
| `TerminalCredit.RunInvariant` | provider/subscription.go:329-390 | every interleaving keeps both ledgers tied to the histories of chunks and credits |
| `TerminalCredit.Conservation` | provider/subscription.go:356-386 | client balance = server balance + chunk bytes in flight + credit bytes in flight, at most the window, in both server orders |
| `TerminalCredit.WindowChecksNeverRefuse` | provider/client.go:1234-1241 | neither end's window check ever refuses a conforming peer and neither subtraction underflows |
| `TerminalCredit.ChunkAcceptedIff` | provider/client.go:1224-1243 | the client accepts the next chunk iff every credit it has issued had reached the server when that chunk was charged |
| `TerminalCredit.CreditAcceptedIff` | provider/subscription.go:377-390 | the server accepts the next credit iff every chunk charged by now had been consumed when it was issued and, in the Go order, no truncated chunk waits past a gap |
| `TerminalCredit.AcceptedNeverCross` | provider/client.go:539-545 | no consumed chunk ever crossed an issued credit, nor an applied credit a charged chunk |
| `TerminalCredit.CrossingIsFatal` | provider/client.go:1237-1241 | once a chunk and a credit are in flight together no continuation accepts both |
| `TerminalCredit.QuiescentAgreement` | sdk/typescript/src/server.ts:1054-1075 | with both channels empty balances and sequences agree, and offsets agree iff no truncated chunk waits past a gap in the Go order |
| `TerminalCredit.GapWaitIsFatal` | provider/subscription.go:343-375 | in the Go order a truncated chunk waiting past a gap is never charged, nor is any later one, nor any credit applied |
| `TerminalCredit.GapScriptSeparatesOrders` | sdk/typescript/src/server.ts:1045-1064 | one script without any crossing ends the Go connection and is served by the TypeScript order |
| `TerminalCredit.ChunksInOrder` | provider/subscription.go:343-366 | charged chunks cover increasing disjoint ranges below 2^64, contiguous and consecutive unless truncated |
| `TerminalOrder.AcceptedInOrder` | provider/client.go:1224-1243 | against any peer, what either end lets through starts where the last chunk ended, or later if marked truncated, and is numbered consecutively unless truncated |
| `TerminalOrder.RangesIncrease` | protocol/runtime.go:397-424 | against any peer, the ranges let through are disjoint and increasing and no offset wraps |
| `TerminalProgress.OfferIsExact` | provider/subscription.go:329-375 | over every run of either order: a chunk offered is charged iff it suits the terms, continues the charged history, fits the balance and echoes what is left of it; held back iff only the balance is missing; and ends the connection otherwise |
| `TerminalProgress.RetryIsExact` | provider/subscription.go:356-373 | a chunk held back is charged on a later pass iff it then satisfies the same condition |
| `TerminalProgress.RefusalCodes` | provider/client.go:1211-1241 | which code each end refuses a chunk with: size first, place in the stream last, anything else an invalid argument |
| `TerminalProgress.RefusalLeaves` | provider/subscription.go:343-368 | a refusal leaves the ledger alone except that a chunk wrong only in the balance it echoes has been charged; holding back moves the offset in the Go order alone |
| `TerminalProgress.IssueIsExact` | provider/client.go:526-547 | over every run: a credit of any size is issued iff it is addressed here, echoes the offset consumed and fits the free window, the whole of it included |
| `TerminalProgress.ChunkArrives` | provider/subscription.go:329-375 | with nothing in flight every chargeable chunk is charged and then consumed, in both orders, and nothing is in flight again |
| `TerminalProgress.CreditArrives` | provider/subscription.go:377-390 | with nothing in flight every issuable credit is issued and then applied, in both orders |
| `MutationLedger.Server.TryReserve` | provider/server.go:778-828 | joins an equal command, reports a conflict or exhaustion in the source's order, or enters one record in both maps and charges its maximum |
| `MutationLedger.Server.FinalizeMutation` | provider/server.go:926-958 | only the first finalization of a record has an effect; it stores the outcome, shrinks the reservation and removes the record if told to |
| `MutationLedger.Server.Collect` | provider/server.go:101-108 | finds every retained record of a connection once, in whatever order the map is iterated |
| `MutationLedger.Server.DeleteCollected` | provider/server.go:113-127 | unlinks the collected records from the maps that still hold them and returns their bytes |
| `MutationLedger.Server.CommandResult` | provider/server.go:960-987 | reports exactly the recorded outcome of a retained command, unavailable otherwise |
| `MutationLedger.BytesAreRetained` | provider/server.go:813-828 | the budget in use is the sum over the records the maps hold, within the limit |
| `MutationLedger.MapsAgree` | provider/server.go:817-828 | the two maps reach the same records with one entry each, within the entry limit |
| `MutationLedger.EnterKeepsInv` | provider/server.go:809-828 | a reservation keeps the indexes and the accounting exact and cannot overflow |
| `MutationLedger.FinalizeKeepsInv` | provider/server.go:926-958 | so does a finalization whose retained bytes fit the reservation; other records are untouched |
| `MutationLedger.UnlinkAllKeepsInv` | provider/server.go:113-127 | so does deleting finalized records, and only those leave the maps |
| `MutationIdentity.NamesAreExact` | provider/server.go:918-924 | two mutations share a joined key iff capability, key and, for attach, connection agree; scopes name one connection |
| `MutationIdentity.NameInjective` | provider/server.go:94-99 | connection names are distinct, non-empty and free of NUL |
| `MutationRuns.RunInvariant` | provider/server.go:778-958 | every sequence of events keeps ledger, owners, calls and releases consistent |
| `MutationRuns.DispatchedOncePerKey` | provider/server.go:778-853 | over the server's lifetime a handler runs at most once per capability and key, and for attach at most once per connection and key |
| `MutationRuns.DispatchedOncePerCommand` | provider/server.go:805-828 | outside attach a handler runs at most once per command ID |
| `MutationRuns.OutcomesAreTruthful` | provider/server.go:854-915 | a record has one owner; succeeded only after that owner's response was flushed with exactly the recorded bytes, failed only if the handler did not run or itself failed, and an ended owner leaves a final record |
| `MutationRuns.OutcomesAreFinal` | provider/server.go:926-958 | no later event changes a final status, result or error |
| `MutationRuns.RetriesReturnTheFlushedResult` | provider/server.go:781-804 | a retry answered with a result gets the bytes the first call flushed, for the same capability, key and digest |
| `MutationRuns.OwnersAreAnsweredTruthfully` | provider/server.go:854-915 | over every run: an ended owner was answered with exactly what its record says, the code of a failed one included, unless a release had made it unknown first, which happens to attach calls alone |
| `MutationRuns.RetriesShareTheOutcome` | provider/server.go:781-804 | over every run: a retry that was woken got exactly its owner's outcome, the same bytes, the same code or outcome_unknown |
| `MutationRuns.ReservationIsExact` | provider/server.go:778-828 | over every run, in terms of the retained records alone: an equal command is joined, another digest or a taken command ID conflicts, full limits exhaust, anything else is reserved |
| `CallOutcomes.EndingsAreExact` | provider/server.go:843-915 | over every run: a call ends iff it is refused before its handler, its handler fails, a result is lost or the response was flushed; it is then answered and recorded as failed with that code, as unknown or as succeeded with those bytes, and only a refused admission unlinks the record |
| `CallOutcomes.BeginIsExact` | provider/server.go:778-828 | a call that begins waits for the record it joins, is answered with the code it is rejected with, or owns a new pending record under its own names |
| `CallOutcomes.WaitIsExact` | provider/server.go:786-804 | over every run: a waiting call is answered once the record is final, or with the code of its own context, and touches no record |
| `CallOutcomes.LateWriteIsExact` | provider/server.go:330-360 | over every run: a queued response may be flushed at any time, also after its call gave up, and no outcome changes |
| `CancelledCalls.CancelledNeverSucceeds` | provider/server.go:843-872 | over every run: a call not past its last check when its connection is cancelled never runs a handler, and one whose result was not taken yet never flushes a response nor leaves a succeeded record |
| `MutationRuns.AccountingIsExact` | provider/server.go:101-127 | in every reachable state the budget is the sum over retained records, both limits hold and both maps hold the same records |
| `MutationRuns.BudgetGuardsAlwaysPass` | provider/server.go:936-943 | whenever a call finalizes, the retained bytes fit the reservation and the reservation fits the budget, so the guards never decide |
| `MutationRuns.ReleaseTakesItsOwn` | provider/server.go:101-127 | a release removes exactly the records it collected, all final and scoped to that connection |
| `MutationRuns.NextMeans` | provider/handler.go:620-645 | each action of a call keeps its history consistent; a finalization is true to it and fits the reservation |
| `MutationRuns.PassesAlone` | provider/server.go:843-849 | a call that passes the last context check on a live connection is the only one of its name ever to do so |
| `MutationScript.FittingCallSucceeds` | provider/server.go:778-915 | for every command, result and limits they fit, some run dispatches it, flushes it and records exactly its bytes |
| `MutationScript.RecordOutlivesConnection` | provider/server.go:101-127 | releasing the connection leaves that record in place |
| `MutationScript.RetryIsAnswered` | provider/server.go:781-804 | a retry from another connection is then answered with those bytes and runs nothing |
| `MutationRuns.EncodeCheckCovers` | provider/server.go:874-884 | for every result, the stand-in ID covers every limit exactly if the request ID encodes in 256 bytes; otherwise one limit it misses is named |
| `MutationRuns.EncodeCheckMisses` | provider/jsonrpc.go:140-150 | some IDs the wire accepts are covered for no result |
| `MutationScript.UncoveredIsRolledBack` | provider/server.go:330-360 | whenever the check passes and the real response does not fit, some run has the handler succeed, nothing queued, and both answer and record unknown |
| `LateReservations.ReleaseMissesLateRecords` | provider/server.go:101-127 | in every run, after a release a record of the connection is retained iff it was reserved after the collection and its call was not refused admission |
| `LateReservations.LateRecordStays` | provider/server.go:101-127 | such a record of an ended call is retained in every continuation |
| `LateReservations.LateRecordIsReached` | provider/server.go:829-866 | a run in which a call that never ran a handler leaves such a record |
| `EventTracker.SequenceTracker.Observe` | protocol/event.go:234-284 | the in-place update equals the tracker's step function |
| `EventTracker.ObserveMeans` | protocol/event.go:234-284 | in terms of the recorded set alone: duplicate iff recorded, conflict iff it clashes with a recorded cursor, otherwise recorded |
| `EventTracker.SeenMeans` | protocol/event.go:268-273 | a taken sequence number is always another event's, so the second duplicate branch is never taken |
| `EventTracker.ReachableConsistent` | protocol/event.go:234-284 | the two indexes are mutually inverse, `highest` is the maximum seen, and only delivered cursors are recorded |
| `EventTracker.RefusedRecordsNothing` | protocol/event.go:234-284 | a refused or repeated cursor leaves the tracker as it was |
| `EventTracker.GapExactly` | protocol/event.go:274-284 | below 2^64-1 a gap is reported iff a number between the highest and the new one is missing; at 2^64-1 always |
| `EventTracker.GapWrapsAtLimit` | protocol/event.go:274-284 | in every stream, after an event at 2^64-1 any other event is accepted as a gap |
| `EventTracker.ConflictFreeDelivery` | protocol/event.go:234-284 | conflict-free deliveries never fail, and an answer is a duplicate exactly for a repeat |
| `EventTracker.RecordedDetermines` | protocol/event.go:216-232 | a consistent tracker is determined by the set it records |
| `EventTracker.DeliveryOrderIrrelevant` | protocol/event.go:234-284 | any two deliveries of one conflict-free set, in any order and with any repeats, end in the same tracker |
| `EventJournal.ControlPlane.IngestOne` | mock/controlplane.go:93-107 | commits the next number exactly for an answer that is not a duplicate |
| `EventJournal.ControlPlane.Ingest` | mock/controlplane.go:59-111 | answers every delivery as the tracker does, with the number its event has in the journal or 0; it stops exactly at the first delivery that does not decode or that the tracker refuses, with that code, and the deliveries before it stay committed |
| `EventJournal.AnswerAt` | mock/controlplane.go:80-98 | the answer to a delivery depends on the deliveries before it alone |
| `EventJournal.JournalNumbering` | mock/controlplane.go:97-107 | the journal is numbered 1, 2, 3, ... and holds each recorded cursor once |
| `EventJournal.OneRecordPerCursor` | mock/controlplane.go:59-111 | conflict-free deliveries in any order leave exactly one record per cursor |
| `StrictJson.StrictJSONParser.ParseDocument` | sdk/typescript/src/types.ts:887-893 | the position-advancing parser equals the grammar function on every text |
| `StrictJson.StrictJSONParser.Value` | sdk/typescript/src/types.ts:895-921 | one value: accepted iff the grammar accepts, at the same end position |
| `StrictJson.StrictJSONParser.Object` | sdk/typescript/src/types.ts:923-960 | one object, duplicate keys refused |
| `StrictJson.StrictJSONParser.Array` | sdk/typescript/src/types.ts:962-974 | one array |
| `StrictJson.StrictJSONParser.String` | sdk/typescript/src/types.ts:976-984 | one string, ended by the first quote no backslash covers |
| `JsonGrammar.ParserIsComplete` | sdk/typescript/src/types.ts:887-989 | every text of a syntax tree of RFC 8259, with any white space around its tokens, distinct keys and decodable tokens, parses to the meaning of that tree |
| `JsonGrammar.ParserIsExact` | sdk/typescript/src/types.ts:883-989 | and, when the built-in decoder accepts no primitive but the names and numbers of that standard, nothing else parses: a text is accepted with a value iff some tree has that text and meaning |
| `JsonTransport.ValueTransport` | sdk/typescript/src/types.ts:895-921 | a value parses to the same result wherever its text stands, if a primitive is ended there too |
| `JsonScanner.ScanJSONString` | sdk/typescript/src/server.ts:1609-1624 | the loop with its escape flag equals the scan function |
| `JsonScanner.ScanJSONValue` | sdk/typescript/src/server.ts:1575-1584 | likewise for a value of any kind |
| `JsonScanner.ScanJSONContainer` | sdk/typescript/src/server.ts:1586-1607 | likewise for an object or array |
| `JsonScanner.ExtractSingleParameter` | sdk/typescript/src/server.ts:1531-1573 | the extraction loop equals its function, including every refusal |
| `JsonScanner.StringsAgree` | sdk/typescript/src/server.ts:1609-1624 | scanner and parser end every string at the same place |
| `JsonScanner.ValuesAgree` | sdk/typescript/src/server.ts:1575-1607 | wherever the strict parser accepts a value the lenient scanner ends it at the same position |
| `JsonScanner.ExtractIsParameter` | sdk/typescript/src/server.ts:1531-1573 | for every accepted request the extracted bytes are the source slice of `params[0]` and parse to that value |
| `JsonScanner.ExtractIsExact` | sdk/typescript/src/server.ts:1531-1573 | on every text the strict parser accepts the extraction succeeds iff it is an object whose `params` is an array of one entry |
| `JsonCompact.CompactJSON` | sdk/typescript/src/types.ts:1496-1516 | the loop with its two flags equals the compaction function |
| `JsonCompact.CompactIdempotent` | sdk/typescript/src/types.ts:1496-1516 | compacting twice is compacting once, on every string |
| `JsonCompact.NoOuterSpaceIsFixed` | sdk/typescript/src/types.ts:1496-1516 | a string is left alone iff it has no white space outside strings |
| `JsonCompact.CompactPreservesMeaning` | sdk/typescript/src/types.ts:1496-1516 | every accepted text compacts to an accepted text of the same value without white space outside strings, as section 2 of RFC 8259 allows |
| `Framing.ReadFrames` | sdk/typescript/src/stdio.ts:27-68 | the accumulating loop equals the fragment reader function |
| `Framing.FragmentationIrrelevant` | sdk/typescript/src/stdio.ts:27-68 | frames and acceptance depend on the concatenated bytes alone, and the error code is one the bytes permit |
| `Framing.EitherCodeIsReached` | sdk/typescript/src/stdio.ts:255-263 | where the bytes permit two codes, some fragmentation gives each |
| `Framing.ReadFrame` | provider/jsonrpc.go:486-523 | the Go reader returns the first line whatever its buffer size, with the same limit and errors |
| `Framing.ReadersAgree` | provider/jsonrpc.go:486-523 | on every stream both readers yield the same frames and refuse the same line, the Go reader as too large iff it is longer than the limit |
| `Framing.CodesDiffer` | sdk/typescript/src/stdio.ts:27-68 | however the stream is cut the two readers' codes differ iff the offending line is too long, holds a carriage return and the TypeScript reader answered invalid_argument |
| `Framing.FramesAreTheGoodLines` | provider/jsonrpc.go:486-523 | the frames are the good lines up to the offending one and nothing of the stream is skipped |
| `Framing.WriteFrame` | provider/jsonrpc.go:525-550 | succeeds exactly for a framable envelope on a writer that takes it in any portions, and then the whole envelope and one line feed arrived; an unframable one is refused with its code and writes nothing; a broken writer got a prefix |
| `Framing.RoundTrip` | provider/jsonrpc.go:486-550 | reading back any list of written envelopes gives that list |
| `Framing.RoundTripFragments` | sdk/typescript/src/stdio.ts:27-68 | so does the TypeScript reader, whatever the fragmentation |
| `Subscriptions.Connection.BeginSubscription` | provider/subscription.go:45-95 | takes a slot and the stream's entry, or reports exhaustion before conflict |
| `Subscriptions.Connection.Prepare` | provider/subscription.go:157-181 | registers a valid unused ID, or cleans the admission up and says why |
| `Subscriptions.Connection.Cleanup` | provider/subscription.go:97-116 | removes the admission's entries once, guarded by identity |
| `Subscriptions.Connection.ReleaseSubscription` | provider/subscription.go:297-303 | gives the slot back |
| `Subscriptions.Connection.FindCredit` | provider/subscription.go:314-327 | finds the one admission a credit applies to, refuses otherwise |
| `Subscriptions.SlotsAreExact` | provider/subscription.go:287-303 | the counter is the number of admissions not yet released, at most the limit |
| `Subscriptions.SlotReturnedOnce` | provider/subscription.go:97-116 | a slot is returned exactly once and the guard against a negative count never decides |
| `Subscriptions.OneLivePerStream` | provider/subscription.go:77-94 | at most one live admission per session and stream |
| `Subscriptions.ConflictIsExact` | provider/subscription.go:77-94 | a stream is refused as taken exactly when that session and stream, not another pair with the same joined key, has a live admission |
| `Subscriptions.AdmissionIsExact` | provider/subscription.go:45-95 | over every run: a subscription is admitted iff the connection is not closing, fewer admissions than the limit hold a slot and no live one has its stream |
| `Subscriptions.CreditFindsItsStream` | provider/subscription.go:314-327 | a credit matches at most one admission, namely the acknowledged live one of its stream |
| `Subscriptions.TakenIDIsExact` | provider/subscription.go:163-170 | a subscription ID is refused as taken exactly when a live admission holds it |
| `Subscriptions.PrepareIsExact` | provider/subscription.go:157-181 | over every run: an acknowledgement gets its ID iff the ID is not empty and no live admission holds it; otherwise the admission is cleaned up at once |
| `Subscriptions.CleanupTakesItsOwn` | provider/subscription.go:97-116 | in every run, a cleanup takes exactly the admission's own entries out of both indexes and changes nothing else of others |
| `Subscriptions.CleanedUpLeavesNothing` | provider/subscription.go:97-116 | in every later state no entry names the admission and returning its slot changes the counter alone |
| `Subscriptions.CleanedUpForGood` | provider/subscription.go:97-116 | what is cleaned up stays so in every continuation |
| `Subscriptions.RollbackRestores` | provider/server.go:352-360 | with nothing in between, undoing an admission whose acknowledgement cannot be sent restores slot and indexes to what they were |
| `FrameWriters.ServerFrameWriter.Acquire` | sdk/typescript/src/server.ts:223-249 | admits, queues or refuses a write |
| `FrameWriters.ServerFrameWriter.DrainWaiters` | sdk/typescript/src/server.ts:261-281 | hands free admissions to waiters in order, skipping aborted ones |
| `FrameWriters.ServerFrameWriter.Release` | sdk/typescript/src/server.ts:251-259 | returns an admission and drains |
| `FrameWriters.ServerFrameWriter.CloseOuter` | sdk/typescript/src/server.ts:283-294 | refuses every waiter once |
| `FrameWriters.ServerFrameWriter.WriteFrame` | sdk/typescript/src/stdio.ts:157-182 | queues an admitted frame and pumps, or rejects it at once with the code of the first check that fails |
| `FrameWriters.ServerFrameWriter.PumpQueue` | sdk/typescript/src/stdio.ts:212-236 | starts the first job that is not aborted |
| `FrameWriters.ServerFrameWriter.FailInner` | sdk/typescript/src/stdio.ts:238-242 | closes, settles the queue and the active job |
| `FrameWriters.RunInvariant` | sdk/typescript/src/server.ts:176-307 | every sequence of turns keeps both layers consistent |
| `FrameWriters.LoadWithinAdmissions` | sdk/typescript/src/server.ts:223-259 | while the inner writer is open queued plus active jobs are at most the admissions, which are at most the limit |
| `FrameWriters.NeverExhausted` | sdk/typescript/src/stdio.ts:168-170 | an admitted frame is never refused for want of room |
| `FrameWriters.SettledAtMostOnce` | sdk/typescript/src/stdio.ts:244-251 | neither promise of a write is answered twice |
| `FrameWriters.NothingWaitsIdly` | sdk/typescript/src/server.ts:261-281 | no waiter is forgotten, none waits while an admission is free, no job while the stream is idle |
| `WriteOrder.FramesInOrder` | sdk/typescript/src/stdio.ts:157-236 | over every run: started tasks are a subsequence of the accepted ones, the queue holds accepted tasks in acceptance order behind them, and while the writer is open a task passed over was aborted |
| `WriteOrder.AdmissionsInOrder` | sdk/typescript/src/server.ts:223-281 | over every run: when an event admits a task, no task that arrived earlier is still waiting |
| `WriteOrder.ArrivalIsExact` | sdk/typescript/src/server.ts:223-249 | over every run: an arriving write is refused iff the server writer is closed or its signal fired, else admitted iff fewer tasks than the limit hold an admission, else left to wait |
| `WriteOrder.HandOnIsExact` | sdk/typescript/src/stdio.ts:157-182 | over every run: a frame handed on is rejected iff the writer is closed, its signal fired or the frame is at fault, with the code of the first of these, never for want of room; otherwise it is queued last or written at once |
| `WriteOrder.ShutdownAnswersAll` | sdk/typescript/src/stdio.ts:184-242 | over every run: closing answers every waiter and queued write, failing the active one as well; only writes the stream threw on before stay unanswered |
| `WriteOrder.AbortIsExact` | sdk/typescript/src/stdio.ts:195-210 | over every run: an abort takes out and answers the waiter or queued write it belongs to, on the active write closes both layers and answers all, and otherwise changes nothing |
| `FrameWriters.ServerFrameWriter.Callback` | sdk/typescript/src/stdio.ts:224-231 | settles the active write and pumps |
| `FrameWriters.ServerFrameWriter.HearAbort` | sdk/typescript/src/stdio.ts:195-210 | an aborted waiter or queued job is answered and taken out; aborting the active write fails both layers |
| `LostWrites.LossIsExact` | sdk/typescript/src/stdio.ts:212-242 | in every run, a waiting task is neither queued nor active iff the stream threw on it and its abort listener has not run since |
| `LostWrites.StepOrphans` | sdk/typescript/src/stdio.ts:212-242 | an event makes a task unreachable iff the stream throws on that very task, on either route; only its own listener makes it reachable again |
| `LostWrites.NoThrowNoLoss` | sdk/typescript/src/stdio.ts:157-236 | while the stream never throws every waiting task is queued or active |
| `LostWrites.LossIsReached` | sdk/typescript/src/stdio.ts:224-235 | a run of two events in which a task is lost |
| `LostWrites.LostForever` | sdk/typescript/src/stdio.ts:238-242 | an unreachable task without a signal is never answered and its admission never returned |
| `ClientAttach.Client.ReserveAttachedTerminalFlow` | provider/client.go:1043-1077 | joins the flow of an equal command or makes one, within the limit |
| `ClientAttach.Client.ReserveTerminalFlow` | provider/client.go:1025-1041 | a plain subscription never shares a flow |
| `ClientAttach.Client.CompleteAttachedTerminalFlow` | provider/client.go:1105-1132 | counts a call out, remembers its outcome and decides whether it removes the flow |
| `ClientAttach.Client.BindSubscription` | provider/client.go:1089-1103 | a success binds the flow to its ID, or turns into the conflict or argument error that the flow's state calls for |
| `ClientAttach.Client.MarkRetiring` | provider/client.go:1164-1168 | the first section of a retirement marks the flow as long as it is indexed, after which no attach joins it |
| `ClientAttach.Client.CloseRetired` | provider/client.go:1169-1169 | the second closes it, after which it takes no chunk and no binding |
| `ClientAttach.Client.DeleteRetired` | provider/client.go:1170-1174 | the third unindexes it if it is still the one indexed |
| `ClientAttach.RetirementTakesItsOwn` | provider/client.go:1159-1175 | whatever happened since it began, a retirement unindexes that flow and no other |
| `ClientAttach.PendingIsExact` | provider/client.go:1105-1132 | the count is the number of attach calls between reserve and complete, so its guard never decides |
| `ClientAttach.RemovedOnlyWhenAllFailed` | provider/client.go:1114-1130 | a failing attach removes a flow only if every call ever made on it has failed with a known outcome |
| `ClientAttach.AbandonedFlowIsRemoved` | provider/client.go:1123-1130 | and a flow whose calls have all failed that way is being removed |
| `ClientAttach.OneFlowPerStream` | provider/client.go:1058-1076 | at most one indexed flow per stream and at most the limit in all |
| `ClientAttach.FinishIsExact` | provider/client.go:1105-1132 | over every run: a completing attach removes its flow iff the flow is indexed and this call and every other ever made on it failed with a code other than cancelled, deadline_exceeded, unavailable and outcome_unknown |
| `ClientAttach.RemovalShutsOut` | provider/client.go:1059-1068 | once a removal has begun, no continuation makes another call on that flow |
| `ClientAttach.UnindexedIsClosed` | provider/client.go:1159-1175 | over every run: a flow no longer indexed is closed and takes no binding |
| `ClientAttach.CallsShareTheFlow` | provider/client.go:1043-1103 | over every run: all calls on a flow carry the digest of the call that made it, and those that succeeded were answered with one subscription ID |
| `ClientAttach.AttachIsExact` | provider/client.go:1043-1077 | over every run: an attach joins the indexed flow of its stream iff it is not retiring and has the same digest, conflicts with it otherwise, and gets a new flow iff there is none and there is room |
| `ClientAttach.BindIsExact` | provider/client.go:1089-1103 | over every run: a successful answer is taken iff it names a subscription, the flow is open and no earlier success named another |
| `VerificationSubject.CanonicalFormsAgree` | protocol/verification.go:496-503 | canonical forms are equal iff the subjects hold the same entries equally often |
| `VerificationSubject.EqualSubject` | protocol/verification.go:505-522 | compares subjects up to the order of their lists, both ways |
| `VerificationSubject.SortedUnique` | protocol/custody.go:338-342 | a list has one sorted permutation, so the sorting algorithm cannot be observed |
| `VerificationSubject.BelowIsLexicographic` | protocol/verification.go:496-503 | the order of the lists is the lexicographic one |
| `Verification.VerificationApplies` | protocol/verification.go:423-460 | a candidate counts iff it passes the checks of its tier, the guard's last; only then is the guard changed |
| `Verification.EvaluateVerification` | protocol/verification.go:407-421 | the loop with its stateful guard equals the fold over the list |
| `Verification.TierIsExact` | protocol/verification.go:407-421 | live iff some candidate passes every live check under the guard as it stood before; contract-tested iff none does and some candidate passes the common checks |
| `Verification.PermutedTier` | protocol/verification.go:412-419 | permuting the evidence never changes the tier |
| `Verification.TierIgnoresOrder` | protocol/verification.go:412-419 | nor does repeating it |
| `Verification.ContractEvidenceIsFirst` | protocol/verification.go:407-421 | a contract-tested projection names the first candidate in list order that passes the common checks |
| `Verification.UnusableIsAbsent` | protocol/verification.go:423-460 | evidence that is malformed, failed, revoked, superseded, expired, about another subject or run, or not signed for its purpose counts for as much as if it were not in the list |
| `Verification.UsableIsCounted` | protocol/verification.go:423-460 | any other evidence lifts the tier to contract-tested at least, or to live if the guard has its nonce unbound or bound to it |
| `Verification.ReevaluationIsStable` | protocol/verification.go:388-393 | evaluating the same list again under the guard it left gives the same projection and binds nothing more |
| `Verification.LiveEvidenceIsBound` | protocol/verification.go:388-393 | a live projection names the evidence its nonce is bound to |
| `Verification.OneEvidencePerNonce` | protocol/verification.go:388-393 | over any sequence of evaluations all live evidence accepted for a nonce has one ID |
| `Verification.SignedFormIsExact` | protocol/verification.go:329-340 | two documents have one signed form iff they differ in list order and in the value of their own signature alone |
| `AuthorityWalk.RejectReservedContent` | protocol/validate.go:227-256 | the explicit-stack walk terminates and refuses exactly what the recursive search finds, whatever the order of members |
| `AuthorityWalk.ValidateExtensionAuthority` | provider/handler.go:578-600 | refuses exactly the values with a reserved key at some path |
| `AuthorityWalk.SearchIsExact` | sdk/typescript/src/types.ts:1016-1022 | the recursive search finds exactly the trees with a reserved key at some path outside the root allowance |

## Left out

- Process launch, stdio, sockets, pipes, heartbeats and command-line programs: transport plumbing.
- The schema generator, the OpenRPC and Ajv validation and the catalogue of request and result types: tables of easy members.
- Field validators built on regular expressions: parameters of the model; kept are only the facts used, such as that a key or a session ID holds no NUL.
- SHA-256, Ed25519, base64, UTF-8 decoding and the built-in JSON number and string decoders: parameters, assumed deterministic; `JsonGrammar.ParserIsExact` further assumes that the number decoder accepts only what RFC 8259 allows.
- Wall-clock deadlines, timers and drain timeouts: events that may happen at any time.
- The dispatch switch and the codec tables: one step that runs an arbitrary handler, with its failures before, in and after the handler told apart.
- Progress of the credit protocol once messages cross: the code ends the connection, so detection is proved, not progress.
- The TypeScript server's own copy of the mutation ledger: the Go ledger is modelled.
- TypeScript numbers: modelled as unsigned 64-bit integers where the Go code has them; the safe-integer bound is not modelled.
- Positions in text count Unicode scalar values; the original counts UTF-16 code units, and none of the characters the scanners look at is split by them.
- Identity of connections after 2^64 of them, and journal numbers after 2^64 records: the counters are unbounded.
- The negotiation in `provider.initialize`, request cancellation by ID and the conformance runner.
- A replay guard that refuses an unbound nonce for reasons of its own: the guard here admits one, as its documentation asks; with a guard that refuses at will the tier depends on the order.
- AuthorityWalk.ValidateExtensionAuthority: shares the loop of `AuthorityWalk.RejectReservedContent` with an empty allowance, where the source has a second loop of the same shape.
