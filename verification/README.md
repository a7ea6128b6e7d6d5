# VGuardrail, verified

A Dafny model of the parts of VGuardrail where state, concurrency or encoding make mistakes easy,
with proofs about every run and every input. `dafny verify dfyconfig.toml` checks all of it.

## What is modelled

**Audit upload (agent).** `EventTable` is the `audit_events` table and the effect of each statement
the queue issues on it; `EventQueue.Queue` is the queue actor, whose transactions are snapshots
restored when a statement throws. `UploadProtocol` interleaves any number of `runUploadOnce`
workers with enqueues, store faults at every call and process crashes; every `await` is a step
boundary. `UploadTheorems` states what every run guarantees, `AgentCore.Agent` shows that the code
of `runUploadOnce`, with faults anywhere, is a run of that protocol, and `Drain` proves when repeated
runs empty the queue. `Decimal` settles when the text order of `created_at` is time order.
`DecisionLog` is the rolling decision log.

**Connector (SDK, editor, browser host).** `Framing` is the length-prefixed framing, proved once for
both byte orders. `BridgeTransport` is the request/reply transport as a state machine over its
event handlers, with the handlers themselves in `XpcBridge`. `Retry` and `Deadline` are the
resilience wrappers, `Enforcement` the client and the two enforcement points, down to the reply on
the wire that let a prompt through. `CanonicalJson` is canonical JSON with JavaScript's own property
rules. `PasteDebouncer` is the passive paste scanner of the editor.

**Encodings and reports.** `Csv` is the dashboard's CSV writer against an RFC 4180 reader, `UuidV7`
the id generator, `AuditStore` the bounded audit store, its pages and the dashboard's export loop,
`ProcArgs` the reader of a process's argument buffer.

The clock, jitter, fresh ids, store faults, the network, `JSON.parse` and lower-casing are
parameters. Event ids and request ids are UUIDs and are taken never to repeat.

## Where the code does less than one might expect

Each of these is proved as an if-and-only-if, and a lemma gives an input or a run where the
expectation fails.

- `created_at` is text, so claims are oldest-first exactly when the text of all ready timestamps sorts
  as the numbers do; 1000 is claimed before 999.
- A row stranded `inflight` by a crash or a lost commit is never claimed again, so the queue drains
  exactly when there is none.
- The decision log is the newest 500 of everything logged exactly when no call replaces a logged row
  by one older than a row already dropped.
- `canonicalJSON` keeps a value's meaning exactly when no object in it has a `__proto__` property.
- Its key order is dictionary order exactly when array-index keys sort alike as text and as numbers
  and no other key sorts before one; keys 9 and 10 do not.
- `scan` is documented to retry only failures that were clearly not sent
  (`connector-sdk/src/client/connector-client.ts:111-114`), but a request already written settles with
  that very error exactly when the transport is closed under it or a reply carries its code, and it is
  then tried again.
- A CSV of one column whose last field is empty loses its last record to a reader.
- The page offset wraps in 64 bits, so a huge page number can show rows of another page.
- An empty first argument is taken for padding when a command line is read.

## Model

| member | source | states |
|---|---|---|
| UploadTheorems.NoEventInTwoUploads | agent/Sources/VGAgentCore/AgentCore.swift:121-158 | in every state of every interleaving, the unmarked parts of two workers' batches are disjoint and inflight: no event is in two uploads at once |
| UploadTheorems.LedgerOfEveryRun | agent/Sources/VGEventQueue/EventQueue.swift:94-118 | in every run each event is sent at most as often as claimed, claimed at most max(1, maxAttempts) times and acknowledged at most once; its claims equal the attempts column plus one while inflight or uploaded; it is dead exactly at the cap, only acknowledged events are uploaded or purged, and no dead event was acknowledged |
| UploadTheorems.ClaimedIsWhatWasEnqueued | agent/Sources/VGEventQueue/EventQueue.swift:31-71 | as long as an event is stored, what a claim hands to the client is its id, type, decimal timestamp, payload and signature as enqueued |
| UploadTheorems.FinishedForever | agent/Sources/VGEventQueue/EventQueue.swift:50-140 | an uploaded, purged or dead event stays so for the rest of any run: never claimed, sent, acknowledged or rescheduled again; a dead row never changes |
| UploadTheorems.OverForever | agent/Sources/VGAgentCore/AgentCore.swift:134-143 | once an upload of it was seen to succeed, or it died, an event is never claimed, sent or rescheduled again, even when marking it was lost and its row stays inflight |
| UploadTheorems.Conservation | agent/Sources/VGEventQueue/EventQueue.swift:120-140 | events ever enqueued = owing + dead + uploaded + purged, in every state of every run, and purged ones were acknowledged |
| UploadTheorems.BackoffOfEveryRun | agent/Sources/VGEventQueue/EventQueue.swift:103-117 | in every run each retry of an event, the first included, is due exactly base x 2^min(k,16) after the clock of its failure; no failure precedes the retry then waiting; the event is never claimed before its last retry is due, nor for a base that is not negative before any; for a positive base due times strictly increase whatever the clock does |
| UploadTheorems.ClaimsAreCounted | agent/Sources/VGEventQueue/EventQueue.swift:72-74 | the events handed out by all batches of a run, counted with repetition, are exactly what the per-event ledger adds up to |
| UploadTheorems.ClaimsAreBounded | agent/Sources/VGAgentCore/AgentCore.swift:121-158 | a run claims at most (events enqueued) x (attempt cap) events over all its batches |
| UploadProtocol.StepKeeps | agent/Sources/VGAgentCore/AgentCore.swift:121-158 | every step of a worker, an enqueue, a store fault and a crash keep the protocol invariant |
| UploadProtocol.RunKeeps | agent/Sources/VGAgentCore/AgentCore.swift:121-158 | the invariant holds in every state of every run from the empty store |
| AgentCore.Agent.RunUploadOnce | agent/Sources/VGAgentCore/AgentCore.swift:121-158 | nothing happens exactly when no batch was claimed; it succeeds exactly when the client returned; it crashes exactly when the client threw and marking some claimed event, whose mark is not lost, would overflow Int64, and then stops there; otherwise a thrown upload leaves exactly the events whose marks are not lost failed once more and the rest inflight, and a returned one leaves the batch marked and purged as far as those calls were not lost; all of it is an enabled sequence of this worker's own protocol steps with exactly one upload call |
| AgentCore.Agent.FinishSuccess | agent/Sources/VGAgentCore/AgentCore.swift:134-143 | the table after the success branch for every combination of lost calls; only this worker's own steps, and no second upload call |
| AgentCore.Agent.FinishFailure | agent/Sources/VGAgentCore/AgentCore.swift:144-157 | it traps exactly when some mark that is not lost overflows, at the first such; otherwise exactly the marks that are not lost are made, each to the row markFailed gives; only this worker's own steps, and no second upload call |
| Drain.RunMakesProgress | agent/Sources/VGAgentCore/AgentCore.swift:121-158 | a completed run uses up at least one remaining attempt per event claimed, on success and on failure, and neither creates nor frees an inflight row |
| Drain.SafeArithmeticNeverTraps | agent/Sources/VGEventQueue/EventQueue.swift:111-112 | on every reachable table no claimed event overflows when base x 65536 and its sum with the clock fit Int64, so a thrown upload never traps |
| Drain.QueueDrainsIff | agent/Sources/VGEventQueue/EventQueue.swift:50-118 | after as many timely runs as attempts remain (at most events x cap), nothing is owing if and only if no row was stranded inflight at the start |
| Drain.StrandedStay | agent/Sources/VGEventQueue/EventQueue.swift:56-57 | stranded inflight rows are exactly the same after any number of completed runs |
| Drain.CrashStrands | agent/Sources/VGEventQueue/EventQueue.swift:72-74 | for every event and every configuration that claims anything there is a run, with a crash after the claim, that leaves it inflight with no worker |
| Drain.LostMarkStrands | agent/Sources/VGAgentCore/AgentCore.swift:134-136 | and one without a crash, in which a successful upload could not be marked |
| Drain.ReachableIsCounted | agent/Sources/VGEventQueue/EventQueue.swift:103-118 | every table any run reaches satisfies what the drain theorem asks of the first table |
| EventQueue.Queue.constructor | agent/Sources/VGEventQueue/Schema.swift:36-47 | a new store has no rows |
| EventQueue.Queue.Enqueue | agent/Sources/VGEventQueue/EventQueue.swift:31-46 | succeeds exactly when the store works and the id is new, adding one pending row stamped with the decimal text of the time; otherwise changes nothing |
| EventQueue.Queue.SelectReady | agent/Sources/VGEventQueue/EventQueue.swift:52-62 | as many distinct ready rows as LIMIT allows, in text order of created_at, and none left behind that sorts before one taken |
| EventTable.SelectionSize | agent/Sources/VGEventQueue/EventQueue.swift:59 | a claim takes at most LIMIT rows, and fewer only when every ready row was taken |
| EventQueue.Queue.ClaimBatch | agent/Sources/VGEventQueue/EventQueue.swift:50-77 | all of the selection becomes inflight and is returned with its stored columns; it fails exactly when one of its statements throws, and then leaves the table as it was |
| EventQueue.Queue.MarkUploadedIds | agent/Sources/VGEventQueue/EventQueue.swift:80-89 | every listed row becomes uploaded with its error cleared, every other row and unknown ids are left alone; it fails exactly when one of its statements throws, and then changes nothing |
| EventQueue.Queue.MarkFailedId | agent/Sources/VGEventQueue/EventQueue.swift:94-118 | the attempt counted and the error stored; dead without a retry at the cap, else failed and due base x 2^min(attempts,16) later; unknown exactly for a missing row, a trap exactly on Int64 overflow, the table untouched in both |
| EventQueue.Queue.QueueDepth | agent/Sources/VGEventQueue/EventQueue.swift:121-126 | the depth is what remains of the table without its dead and uploaded rows |
| EventQueue.Queue.PurgeUploaded | agent/Sources/VGEventQueue/EventQueue.swift:138-140 | removes the uploaded rows only, reports how many, and keeps the owing and dead sets |
| EventTable.TableSize | agent/Sources/VGEventQueue/EventQueue.swift:121-134 | the table splits by status: size = owing + dead + uploaded |
| EventTable.ClaimIsOldestFirstIff | agent/Sources/VGEventQueue/EventQueue.swift:52-60 | every possible claim of every size takes the oldest ready rows, oldest first, if and only if the text of every two ready timestamps sorts as the numbers do |
| EventTable.ClaimIsOldestFirst | agent/Sources/VGEventQueue/EventQueue.swift:52-60 | pair by pair: a row left behind, or placed later in the batch, is older than a claimed one only where the text of the two timestamps does not sort as the numbers; never when they have one width |
| EventTable.SameWidthClaimsOldestFirst | agent/Sources/VGEventQueue/EventQueue.swift:58 | among ready timestamps of one width every claim is oldest-first |
| EventTable.NewerRowCanBeClaimedFirst | agent/Sources/VGEventQueue/EventQueue.swift:41-59 | of rows stamped 999 and 1000 a batch of one takes the newer |
| EventTable.NeverTrapsIff | agent/Sources/VGEventQueue/EventQueue.swift:111-112 | the backoff arithmetic stays within Int64 at every attempt number if and only if it does at exponent 16 |
| EventTable.DelayDoublesThenSaturates | agent/Sources/VGEventQueue/EventQueue.swift:111-112 | the wait doubles with each failure up to the sixteenth and is 65536 x base from then on |
| Decimal.TextOrderIsTimeOrderIff | agent/Sources/VGEventQueue/EventQueue.swift:41-58 | for every pair of integers a < b, String(a) sorts before String(b) if and only if a is at most b cut to a's digits (mirrored for negatives) |
| Decimal.PrintReadsBack | agent/Sources/VGEventQueue/EventQueue.swift:41 | the text of a timestamp reads back as the timestamp |
| Decimal.SameWidthSortsAsNumber | agent/Sources/VGEventQueue/EventQueue.swift:41 | timestamps of equally many digits meet that condition |
| Decimal.WidthChangeBreaksOrder | agent/Sources/VGEventQueue/EventQueue.swift:58 | 999 and 1000 do not, and sort the wrong way round |
| DecisionLog.LogStepIff | agent/Sources/VGEventQueue/EventQueue.swift:212-238 | a call keeps the log equal to a newest part of everything logged if and only if it does not replace a logged row by one older than a dropped row |
| DecisionLog.IncrementalIsGlobalIff | agent/Sources/VGEventQueue/EventQueue.swift:212-238 | over a whole run the log is always the newest part of all calls if and only if no call is backdated in that sense |
| DecisionLog.DistinctIdsKeepNewest | agent/Sources/VGEventQueue/EventQueue.swift:212-238 | with distinct request ids, in any timestamp order, the log holds min(500, calls) rows and no dropped row is newer than a kept one |
| DecisionLog.BackdatedCallLosesNewest | agent/Sources/VGEventQueue/EventQueue.swift:212-238 | after 501 calls, replacing any logged row by one stamped 0 breaks it |
| DecisionLog.RollingLog.LogDecision | agent/Sources/VGEventQueue/EventQueue.swift:212-238 | insert-or-replace then trim, in one transaction: a newest 500 of the old log with the new row, or no change |
| DecisionLog.RollingLog.RecentDecisions | agent/Sources/VGEventQueue/EventQueue.swift:240-256 | as many rows as the limit allows, newest first, none left out that is newer than one returned |
| Framing.BridgeWire | connector-sdk/src/protocol/envelope.ts:41-88 | for every body up to 8388608 bytes the frame is its length as four big-endian bytes and then the body, longer bodies are refused, and a buffer of that form decodes to the body's value and what follows, or throws if the body does not parse |
| Framing.ChromeWire | browser-connectors/chrome/native-host/src/framing.ts:22-60 | the same with little-endian bytes up to 1048576 |
| Framing.HeaderOnWire | connector-sdk/src/protocol/envelope.ts:73-78 | a header over the cap throws and keeps the buffer, one whose body is not there yet waits |
| Framing.Encode | connector-sdk/src/protocol/envelope.ts:41-49 | in any dialect a frame exists exactly for bodies within the cap and carries its length and the body |
| Framing.HeaderRoundTrip | connector-sdk/src/protocol/envelope.ts:46-47 | a written length reads back, in both byte orders, whatever follows |
| Framing.ChunkIndependence | connector-sdk/src/protocol/envelope.ts:66-88 | any two ways of cutting the same bytes into pushes throw for the same reason or yield the same frames and keep the same bytes |
| Framing.FramingRoundTrip | connector-sdk/src/protocol/envelope.ts:41-88 | encoded frames, cut anywhere, come out as exactly the values in order, leaving an empty buffer |
| Framing.ShippedDialectsRoundTrip | browser-connectors/chrome/native-host/src/framing.ts:22-60 | the same for the big-endian 8 MiB bridge and the little-endian 1 MiB Chrome dialect |
| Framing.LeftoverIsBounded | browser-connectors/chrome/native-host/src/framing.ts:32-37 | a push that does not throw keeps less than one full frame, which yields nothing if read again |
| Framing.OverlongHeaderIsPermanent | browser-connectors/chrome/native-host/src/framing.ts:46-49 | after an over-long header every later push throws as well and keeps all bytes |
| Framing.Decoder.Push | connector-sdk/src/protocol/envelope.ts:69-88 | the loop decodes the old buffer followed by the chunk: same frames, same error, same bytes kept |
| BridgeTransport.RunKeeps | connector-sdk/src/transport/xpc-bridge-transport.ts:97-197 | in every run pending, listening and unsettled requests coincide, nothing is pending without a helper, and the replies are those of the bytes received |
| BridgeTransport.ResolvedByOwnFirstReply | connector-sdk/src/transport/xpc-bridge-transport.ts:163-185 | a request resolves only by the first well-formed reply with its own id after it was issued, with that reply's result |
| BridgeTransport.RequestGetsItsReply | connector-sdk/src/transport/xpc-bridge-transport.ts:148-185 | over every run: a pending request whose first reply arrives in a chunk that decodes is settled for good by it, resolved with the result property of an ok envelope, or rejected with the error of a failure envelope's code |
| BridgeTransport.FailuresByStep | connector-sdk/src/transport/xpc-bridge-transport.ts:107-197 | without a reply a pending request fails as a transport error by a write error, abort, helper error or exit, as invalid by a corrupt stream, as not connected by a close |
| BridgeTransport.RequestAtOnce | connector-sdk/src/transport/xpc-bridge-transport.ts:97-115 | a request is written exactly when the helper is live, the frame fits and it was not aborted; otherwise it fails at once for the first of these reasons |
| Errors.FromWireIsTable | connector-sdk/src/resilience/errors.ts:131-149 | the six wire codes give their errors and every other code a remote error |
| BridgeTransport.NothingHangs | connector-sdk/src/transport/xpc-bridge-transport.ts:139-197 | right after a close, exit, helper error or corrupt chunk, and whenever no helper is attached, every request issued so far is settled |
| BridgeTransport.SettledForever | connector-sdk/src/transport/xpc-bridge-transport.ts:106-136 | how a request settled never changes, whatever arrives later |
| BridgeTransport.OnlyWriteErrorsComeLate | connector-sdk/src/transport/xpc-bridge-transport.ts:106-196 | in every run only the write callback ever tries to settle a request that has settled: no reply, abort, exit, error or close does |
| BridgeTransport.ReplySettles | connector-sdk/src/transport/xpc-bridge-transport.ts:173-184 | a well-formed reply to a pending request settles that request with that reply and touches no other |
| BridgeTransport.WrittenButNotConnectedIff | connector-sdk/src/transport/xpc-bridge-transport.ts:139-185 | over every run, a request that was written and has settled since ends as never connected if and only if the step that settled it was a close, or the reply that settled it carries that code |
| BridgeTransport.WrittenThenClosed | connector-sdk/src/transport/xpc-bridge-transport.ts:97-146 | connect, request, close is such a run |
| BridgeTransport.NothingResolvesAfterOverlong | connector-sdk/src/transport/xpc-bridge-transport.ts:47-161 | after a chunk with an over-long header no reply is dispatched and no request resolves for the rest of the run, reconnects included |
| BridgeTransport.RepliesDependOnBytesOnly | connector-sdk/src/transport/xpc-bridge-transport.ts:148-161 | two runs that read the same bytes without corruption dispatched the same replies |
| BridgeTransport.XpcBridge.StartRequest | connector-sdk/src/transport/xpc-bridge-transport.ts:97-137 | the new state of a request in its four cases, and the frame written exactly when it was sent |
| BridgeTransport.XpcBridge.OnStdoutChunk | connector-sdk/src/transport/xpc-bridge-transport.ts:148-161 | the whole new state: every decoded frame dispatched in order, or everything failed and closed on corruption |
| BridgeTransport.XpcBridge.DispatchFrame | connector-sdk/src/transport/xpc-bridge-transport.ts:163-185 | malformed and unknown replies change no request; a known id is settled and forgotten |
| BridgeTransport.XpcBridge.FailAllPending | connector-sdk/src/transport/xpc-bridge-transport.ts:192-197 | every pending request is rejected and nothing stays pending |
| BridgeTransport.XpcBridge.CloseNow | connector-sdk/src/transport/xpc-bridge-transport.ts:139-146 | close drops the helper and rejects everything pending as not connected |
| BridgeTransport.XpcBridge.OnExit | connector-sdk/src/transport/xpc-bridge-transport.ts:187-190 | exit drops the helper and rejects everything pending as a transport failure |
| BridgeTransport.XpcBridge.OnWriteError | connector-sdk/src/transport/xpc-bridge-transport.ts:129-135 | a failed write settles its request unless it already settled |
| BridgeTransport.XpcBridge.OnAbort | connector-sdk/src/transport/xpc-bridge-transport.ts:107-116 | an abort settles a listening request and does nothing to others |
| Retry.RetryIsFirstDecisive | connector-sdk/src/resilience/retry.ts:56-79 | the result is that of the first attempt that is not a retryable failure, among max(1, maxAttempts); without one, exhaustion carrying the last error |
| Retry.RetriedIff | connector-sdk/src/resilience/retry.ts:66-77 | an attempt is followed by another if and only if it failed retryably and attempts remain |
| Retry.DelayIsBounded | connector-sdk/src/resilience/retry.ts:36-49 | each wait is jitter x min(base x 2^attempt, maxDelay) rounded down, so in [0, that minimum) for any jitter in [0, 1) |
| Retry.GrownDoubles | connector-sdk/src/resilience/retry.ts:47 | the schedule starts at base and doubles with every attempt |
| Retry.WithRetry | connector-sdk/src/resilience/retry.ts:56-79 | the loop yields that result, every attempt but the last failed retryably, and it slept at most maxDelay per retry |
| Deadline.RunTimed | connector-sdk/src/resilience/timeout.ts:14-45 | the race driven beside any run of the transport: its winner is the value or the very error the request had settled with when the deadline elapsed, else the timeout, else none yet; and a success is the first reply to the request's own id |
| Deadline.Race.OnTimer | connector-sdk/src/resilience/timeout.ts:26-33 | the deadline wins even when aborting settles the operation on the spot |
| Deadline.SuccessIsOwnReply | connector-sdk/src/resilience/timeout.ts:7-12 | in every transport run the result of a timed call is a success only with the first reply to its own id |
| Deadline.DeadlineIsFinal | connector-sdk/src/resilience/timeout.ts:7-12 | once the deadline aborted a pending call its result is the timeout and no later event resolves its request |
| Enforcement.Client.Connect | connector-sdk/src/client/connector-client.ts:80-99 | without a session it succeeds if and only if connecting did not throw and the first hello attempt that is neither a transport failure nor not connected got an object with proto 1, schema vguardrail.event/v1 and a string agent; any other reply is a version mismatch and leaves no session |
| Enforcement.HandshakeIff | connector-sdk/src/protocol/version.ts:37-65 | the same of the handshake |
| Enforcement.AnsweredIff | connector-sdk/src/client/connector-client.ts:116-133 | the engine answered exactly when there is such a session and a submit attempt got a reply that decodes, every attempt before it having ended as not connected |
| Enforcement.Client.Scan | connector-sdk/src/client/connector-client.ts:116-133 | it returns a decision if and only if the engine answered this scan with it, never a fallback, and throws exactly the error of the first step that failed |
| Enforcement.Client.SafeScan | connector-sdk/src/client/connector-client.ts:141-163 | a real decision if and only if the engine answered with it; a fallback, carrying the fallback action, if and only if the scan failed with a timeout, a transport failure, not connected, exhausted retries or an unavailable engine; a throw if and only if it failed with any other error, that one |
| Enforcement.ResolveResponse | ide-connectors/vscode/src/interceptor.ts:117-161 | allowed exactly for a real answer that allows, warns at low risk, or warns at medium or unstated risk and the user proceeds; exactly one acknowledgement, equal to the verdict, for a real warning and none otherwise |
| Enforcement.Intercept | ide-connectors/vscode/src/interceptor.ts:96-115 | a prompt is allowed if and only if the engine answered this very scan with such a decision; every error blocks, a version mismatch included |
| Enforcement.HandleScan | browser-connectors/chrome/native-host/src/handlers.ts:38-68 | the host returns the engine's own decision when it answered and a block in every other case, a version mismatch included |
| Enforcement.OnlyLastWriteMatters | connector-sdk/src/client/connector-client.ts:232-235 | every attempt of a write but the last ended as not connected |
| Enforcement.WrittenScanIsRetried | connector-sdk/src/client/connector-client.ts:111-114 | a concrete run in which a submit already written is tried again, whenever more than one attempt is allowed |
| Enforcement.AllowedByOwnReply | connector-sdk/src/client/connector-client.ts:197-219 | end to end: the decision acted on is the decoded result of the first reply on the wire to the last attempt's own request id |
| CanonicalJson.MeaningPreservedIff | connector-sdk/src/models/schema.ts:35-52 | key sorting keeps a value's meaning if and only if no object in it has a `__proto__` property |
| CanonicalJson.CanonMeaning | connector-sdk/src/models/schema.ts:39-52 | what it keeps is exactly the value without its `__proto__` properties, at every depth |
| CanonicalJson.ProtoKeyIsLost | connector-sdk/src/models/schema.ts:45-48 | an object whose only key is `__proto__` has the canonical form of the empty object |
| CanonicalJson.CanonicalEqualityIff | connector-sdk/src/models/schema.ts:35-52 | two values have the same canonical tree if and only if they are the same value up to key order and `__proto__` properties |
| CanonicalJson.CanonIsIdempotent | connector-sdk/src/models/schema.ts:39-52 | canonicalizing twice changes nothing |
| CanonicalJson.DictionaryOrderIff | connector-sdk/src/models/schema.ts:35-52 | every object of the result lists its keys in dictionary order if and only if, in every object whose properties survive, index keys sort alike as text and as numbers and no other key sorts before an index key |
| CanonicalJson.DictSortedIff | connector-sdk/src/models/schema.ts:45-48 | the same for one object |
| CanonicalJson.ArrayIndexIff | connector-sdk/src/models/schema.ts:45-48 | the keys enumerated first are the plain decimal texts of the numbers up to 2^32 - 2 and nothing else |
| CanonicalJson.IndexKeysAreOutOfOrder | connector-sdk/src/models/schema.ts:45-48 | keys 9 and 10 fail the condition: 9 comes first although "10" sorts first |
| CanonicalJson.SortKeys | connector-sdk/src/models/schema.ts:39-52 | the recursive rebuild, with JavaScript's property assignment, yields the canonical tree |
| PasteDebouncer.PastesAreNeitherLostNorRepeated | ide-connectors/vscode/src/passive-scan.ts:88-131 | in every run before dispose, a document's accepted pastes are those in the texts handed to scan followed by those in its pending entry, in order; each text is its batch joined by line breaks; pending entries and live timers match one to one |
| PasteDebouncer.ChangeTakesIn | ide-connectors/vscode/src/passive-scan.ts:88-110 | in every run a change is taken in exactly when the controller is live and enabled and the document is a file or untitled of at most 262144 bytes; taken in are its texts over 200 characters, and the entry then has its context and a new timer; no other document changes |
| PasteDebouncer.NoScanAfterDispose | ide-connectors/vscode/src/passive-scan.ts:112-122 | after dispose no scan starts and no paste is taken in, for the rest of the run |
| PasteDebouncer.NoticesAreSeparated | ide-connectors/vscode/src/passive-scan.ts:134-148 | between any two engine-down notices some scan got a real engine answer |
| PasteDebouncer.EngineDownIsReported | ide-connectors/vscode/src/passive-scan.ts:124-148 | a scan that fails or falls back is reported unless that was done since the last real answer; a real answer is noted with its advice |
| PasteDebouncer.StepKeeps | ide-connectors/vscode/src/passive-scan.ts:88-148 | a change, a timer, a scan's end and dispose all keep the controller's invariant |
| PasteDebouncer.PassiveScanController.HandleChange | ide-connectors/vscode/src/passive-scan.ts:88-110 | the whole new state after a change: ignored, or merged into the document's entry behind a fresh timer that replaces the old one |
| PasteDebouncer.PassiveScanController.OnTimer | ide-connectors/vscode/src/passive-scan.ts:119-122 | the entry is removed and handed to scan exactly when there is one and the controller is live |
| PasteDebouncer.PassiveScanController.OnScanDone | ide-connectors/vscode/src/passive-scan.ts:124-148 | a failed or fallback scan reports engine-down unless already reported; a real answer lifts the mute and may advise |
| PasteDebouncer.PassiveScanController.DisposeNow | ide-connectors/vscode/src/passive-scan.ts:113-117 | every pending entry's timer is cleared and nothing stays pending |
| Csv.ToCsv | dashboard/lib/utils/csv.ts:16-27 | the loop prints the header and one record per row, missing keys as empty fields |
| Csv.ReadPrinted | dashboard/lib/utils/csv.ts:3-27 | a reader gets every printed table back, less a last record that is one empty field |
| Csv.CsvRoundTripIff | dashboard/lib/utils/csv.ts:12-27 | reading the export gives the table back, cell by cell, if and only if there are two or more columns, or one whose last record is not an empty field |
| Csv.CellsReadBack | dashboard/lib/utils/csv.ts:16-27 | a reader finds the headers first, and each row's value under each column's key, empty where the key is missing or null |
| Csv.BareIff | dashboard/lib/utils/csv.ts:3-10 | a field is written bare exactly when it has no comma, quote or line break |
| Csv.EmptyLastFieldIsLost | dashboard/lib/utils/csv.ts:12-27 | one column and one row without its key: a reader sees the header alone |
| UuidV7.Generate | agent/Sources/VGCore/UUIDv7.swift:11-51 | the sixteen bytes filled in place are time, version, random and variant fields laid out big-endian, printed as 8-4-4-4-12 hex |
| UuidV7.UuidReadsBack | agent/Sources/VGCore/UUIDv7.swift:11-51 | every id parses back to the low 48, 12 and 62 bits of its arguments with version 7 and variant 2, so to the arguments themselves when they are that narrow |
| UuidV7.UuidEqualIff | agent/Sources/VGCore/UUIDv7.swift:11-51 | two ids are equal if and only if they agree in those bits of all three arguments |
| UuidV7.UuidOrderIff | agent/Sources/VGCore/UUIDv7.swift:11-51 | ids sort as text if and only if those bits of (time, rand_a, rand_b) sort as numbers |
| AuditStore.Store.Record | backend/server/src/routes/admin_audit.rs:48-56 | the store always holds exactly the last 1000 recorded events, in order |
| AuditStore.Store.ListPage | backend/server/src/routes/admin_audit.rs:126-166 | the total is the number of matching events held; the items are the asked page of the newest-first listing if and only if the 64-bit offset does not wrap into the listing |
| AuditStore.ListedIff | backend/server/src/routes/admin_audit.rs:107-136 | what a listing shows: organisation, severity floor, category, device and decision, and the search text as a part of device, event id, reason or category in lower case |
| AuditStore.FilterConcat | backend/server/src/routes/admin_audit.rs:132-137 | filtering keeps exactly the elements that pass, in order |
| AuditStore.PageDefaults | backend/server/src/routes/admin_audit.rs:139-140 | page 1 and 25 rows by default, rows clamped to 1..100 |
| AuditStore.HugePageWrapsAround | backend/server/src/routes/admin_audit.rs:139-141 | page 2^62+1 at four rows a page shows the first page |
| AuditStore.PagesCoverListing | backend/server/src/routes/admin_audit.rs:139-145 | pages 1 to ceil(total/per) together are the whole listing, nothing missing or repeated |
| AuditStore.Export | dashboard/app/audit/page.tsx:213-240 | the loop ends for every pager with at most 1000 rows; over an unchanging listing it yields its first 1000 rows and says truncated exactly when there were more |
| AuditStore.ExportStore | dashboard/app/audit/page.tsx:213-240 | the export loop with each page fetched from an unchanging store yields exactly the matching events the store holds, newest first, and is never truncated |
| ProcArgs.CommandLine | agent/Sources/vguardiand/InventoryReporter.swift:159-188 | the index loops find exactly the arguments of the buffer's layout and join them, or report none |
| ProcArgs.CommandLineRoundTripIff | agent/Sources/vguardiand/InventoryReporter.swift:156-184 | count, path, padding, arguments and any trailing bytes read back as exactly the arguments if and only if the first is not empty |
| ProcArgs.EmptyFirstArgumentIsLost | agent/Sources/vguardiand/InventoryReporter.swift:172-184 | of an empty argument and another only the other comes out |
| ProcArgs.CutBufferGivesWholeArguments | agent/Sources/vguardiand/InventoryReporter.swift:176-184 | a buffer that ends inside an argument gives the whole arguments and drops the cut one |
| ProcArgs.NoPositiveCount | agent/Sources/vguardiand/InventoryReporter.swift:169-170 | a negative or zero count gives no arguments |
| ProcArgs.ArgsAreBounded | agent/Sources/vguardiand/InventoryReporter.swift:169-184 | whatever the buffer holds, no more arguments come out than announced and none has a NUL |
| ProcArgs.ShownIff | agent/Sources/vguardiand/InventoryReporter.swift:185-186 | nothing is shown exactly when there is no argument or a single empty one |
| ProcArgs.ShownIsSpaced | agent/Sources/vguardiand/InventoryReporter.swift:185-187 | a single argument is shown as it is, and others with one space between |

## Left out

- UploadProtocol: a ROLLBACK that itself fails (`SQLiteDatabase.swift`) is not modelled; a thrown transaction always restores the table.
- EventQueue: the device-state, upload-status and policy-cache tables, schema migration and file permissions, which are plain reads and writes.
- DecisionLog: the `ORDER BY` tie-break among equal timestamps is left free, as SQL leaves it.
- Framing: UTF-8 and JSON text; a body is bytes and turning it into a value is a parameter that may fail.
- BridgeTransport: spawning the helper is one step; stderr logging and killing the child are not modelled.
- Enforcement: overlapping `connect` calls sharing one handshake, and the `status`, `acknowledgeWarning` and `recentDecisions` calls, which use the same retry and deadline wrappers; messages shown to the user; the decision codec is a parameter.
- Retry.DelayIsBounded: reals instead of floating point, so rounding is not modelled.
- CanonicalJson: the printed JSON text and the Swift side's byte format; the model is the tree whose keys are printed in order.
- PasteDebouncer: the length of the quiet window; a live timer may fire at any time.
- AuditStore.Store.ListPage: the offset wraps as in a release build; a debug build panics instead. Lower-casing is a parameter, and the production DynamoDB path is not modelled.
- AuditStore.Export: rows are copied whole; formatting of the ten exported columns and the request that fetches a page are not modelled.
- ProcArgs.CommandLine: UTF-8 decoding and the 400-character prefix of the joined text.
- UuidV7.Generate: the clock and the random source are arguments.
- Signing, hash chains, enrolment, policy evaluation, the gRPC and HTTP services and the dashboard's other pages are not modelled.
