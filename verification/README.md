# C6: relay, runner, branch history and scheduler, modelled and proved

This project models the parts of C6 that keep state over time and proves what holds over whole
runs of them. Verify it with `dafny verify dfyconfig.toml`.

**Relay.** The cloud sends one HTTP exchange at a time over a WebSocket to a connector, which calls
the local upstream and sends the answer back in chunks. Both ends own a `RelaySessionState` and
observe every frame before acting on it.

| module | what it is |
|---|---|
| `RelayFrames` | frame types, limits, the checks that look at one frame only |
| `RelayCodec` | the binary body-frame codec |
| `RelaySession` | the session state machine: its step function, and the class that runs it in place |
| `RelayChunks` | splitting a body into numbered chunks and putting it together |
| `RelayTraces` | the session as a product of one small automaton per request; the words it accepts |
| `Connector`, `ConnectorSession` | the connector loop with its tables: one step per event, and the class |
| `CloudExchange`, `CloudSession` | the cloud's exchange and serving loops, and the class |
| `RelayProtocol` | both sides, two FIFO queues, upstream tasks, timeouts and deaths, in any order |
| `RelayProgress` | that exchanges can actually complete |
| `RelayTextCap` | exactly which exchanges can, given the connector's limit on control text |
| `RelayDeadlock` | that an exchange under way never gets stuck by itself |
| `RelayExchange` | that the cloud's steps in the composition are its exchange function |
| `RelayDeadline` | that only the connector's clock against thirty seconds decides whether the upstream is asked |
| `RelayFailures` | what failures become on the other side, and which error is given when |
| `RouteRegistry` | which session answers for which installation, under connect, replace, revoke, clean-up |

**Runner.** `ReplayWindow` is the nonce table of the authenticated socket, `RunnerRuns` the table of
active runs and the result store under interleaved calls, `RunnerFrames` the two byte loops,
`Utf8Text` the encoding of the logs.

**Git.** `GitHistory` is `commit_changes` and `merge` by any number of writers at once,
`GitProvenance` where the commits they make come from.

**Scheduler.** `Scheduler` is `evaluate` and what sequences of ticks decide.

`Common` holds a few shared types and facts.

How the models are built. Code that only computes is a function. Code that updates fields is a
class whose methods are proved to compute a step function of the old state; the theorems are about
that step function over every list of events, where an event that is not possible in the current
state changes nothing, so "every list" is every interleaving. A run is read from its last event
backwards. Each await point of the source is a boundary between steps. Clocks, base64, MAC checks,
JSON, git's object ids and the answers of the upstream are parameters or events.

## What the proofs show about the code

- The relay is safe end to end: an exchange that returned Ok was exactly one upstream call with
  exactly that request, and its answer is exactly that call's answer. The consistency checks in
  the connector loop, the missing-status error, the extra size check and the not-ready break in the
  cloud cannot fire.
- The connector refuses a control text over 64 KiB before its observer sees it
  (crates/c6-connector/src/protocol.rs:12-17), and the observer that both sides share knows no such
  limit. So the cloud may send a start with legal headers that ends the connector's session every
  time: `LegalHeadMayNeverBeAnswered`. `CanReplyIff` says exactly which exchanges can complete.
- `observe_body` stores `bytes` before it checks the sequence number for overflow, so one
  rejection is not atomic. `RejectionIsAtomic` gives the exact condition, `OverflowIsReachable` a
  session that gets there.
- The registry and the database agree in one direction only. A clean-up writes `connected_at`
  after it has released the registry lock, so a live replacement can look disconnected:
  `LiveRouteMayLookDisconnected` is a run. `StaysShownIffNoClearPending` gives the condition at
  registration under which it never does.
- A nonce can pass twice if the clock, which is read before the lock is awaited, goes backwards in
  lock order: `OutOfOrderClockReplays`. `SpentNoncePassesIff` is the exact condition for any clock.
- The runner documents idempotent replay of requests (docs/RUNNER.md). The code loads from the
  store before it looks at the active table and leaves the active table before it saves, so two
  overlapping calls can both run and the second record replaces the first:
  `OverlappingCallsRunTwice`. `RecordIsFinalIff` says exactly when a record is safe. A cancel is
  acknowledged even when the outcome is already taken: `AcknowledgedCancelMayComeTooLate`, and
  `CancelTakesEffectIff` for exactly when it counts.
- `read_frame` can answer differently for the same bytes cut differently;
  `SegmentationIndependentIff` says exactly for which streams it cannot.
- The doc comment of `commit_changes` (crates/c6-git/src/lib.rs:466-467) asks for a start revision
  unless the repository is empty. The code asks for none and makes a parentless commit, which the
  model follows: `UnrelatedHistoryCanBegin` is such a call, `UnrelatedHistoryIff` says for which
  calls it happens, and `ParentlessExactlyWhen` says the same of every interleaving.

## Model

| member | source | states |
|---|---|---|
| RelayFrames.ValidateHeaders | crates/c6-cloud-core/src/relay.rs:118-133 | the accumulating loop, stopping at its first error, finds the same error as checking the whole list front to back |
| RelayFrames.HeadersAccepted | crates/c6-cloud-core/src/relay.rs:118-133 | a header list passes exactly when it is short enough, every field passes alone and the total size is within the limit; saturation and the order of checks never matter |
| RelayFrames.LegalHeads | crates/c6-cloud-core/src/relay.rs:68-206 | the heads both observers let through: a target that stays on its origin, a deadline, at most 128 fields of at most 64 KiB, each a lower-case token that neither routes nor frames the connection with a value free of control characters; a status from 100 to 599 |
| RelayFrames.ByteLengthIsUtf8 | crates/c6-cloud-core/src/relay.rs:118-133 | lengths are counted in UTF-8 bytes |
| RelayCodec.Encode | crates/c6-cloud-core/src/relay.rs:264-281 | refuses exactly the oversized payloads; otherwise its buffer decodes back to the frame |
| RelayCodec.LayoutIsWireFormat | crates/c6-cloud-core/src/relay.rs:264-281 | the wire format itself: version 1, kind 1 or 2, the id and the sequence with their first byte weighing most, and the payload |
| RelayCodec.DecodeInvertsEncode | crates/c6-cloud-core/src/relay.rs:264-308 | decode gives back every frame within the payload limit, id and big-endian sequence included |
| RelayCodec.EncodeInvertsDecode | crates/c6-cloud-core/src/relay.rs:283-308 | every accepted byte string re-encodes to itself |
| RelayCodec.DecodeAcceptsExactlyFrames | crates/c6-cloud-core/src/relay.rs:283-308 | decode accepts exactly the encodings of frames within the limit |
| RelayCodec.DecodeRefusals | crates/c6-cloud-core/src/relay.rs:283-308 | which error refuses which bytes: size before version, version before kind |
| RelaySession.RelaySessionState.ObserveControl | crates/c6-cloud-core/src/relay.rs:389-492 | the in-place update and its error are the step of the session automaton; the invariant is kept and a rejection changes nothing |
| RelaySession.RelaySessionState.ObserveBody | crates/c6-cloud-core/src/relay.rs:494-534 | likewise for chunks, where a rejection may leave its mark on `bytes` |
| RelaySession.ObserveKeeps | crates/c6-cloud-core/src/relay.rs:389-534 | one observation keeps every bound and moves the count of retired ids by one exactly for an accepted closing frame |
| RelaySession.Conservation | crates/c6-cloud-core/src/relay.rs:389-534 | over every sequence of frames, accepted or not, seen ids equal open flows plus accepted closing frames, open flows are all seen and exist only when Ready, and all limits hold |
| RelaySession.RejectionIsAtomic | crates/c6-cloud-core/src/relay.rs:494-534 | a rejected frame changes the state exactly when it is a non-empty chunk that overflows the u32 sequence, and then only that flow's byte count |
| RelaySession.StartRefusedFor | crates/c6-cloud-core/src/relay.rs:424-441 | why a start is refused: its own fault, then a repeated id, then 32 open requests, then 4096 ids |
| RelaySession.FlowFrameRefusedFor | crates/c6-cloud-core/src/relay.rs:442-492 | why a later control frame is refused: its own fault, then an id that is not open, then the wrong point |
| RelaySession.ChunkRefusedFor | crates/c6-cloud-core/src/relay.rs:494-534 | why a chunk is refused, with the limits of 64 KiB, 16 MiB and 64 MiB |
| RelaySession.HandshakeReachesFresh | crates/c6-cloud-core/src/relay.rs:389-420 | hello and ready are accepted exactly with the right version, token class and limits, and lead to the empty Ready state |
| RelayTraces.StepIsLocal | crates/c6-cloud-core/src/relay.rs:424-534 | a frame of one request is accepted exactly when that request's own automaton moves and a start finds room; no other request is touched |
| RelayTraces.CountsAgree | crates/c6-cloud-core/src/relay.rs:427-441 | in every accepted sequence the sizes of `flows` and of the seen set are counts of the frames |
| RelayTraces.SessionIsProduct | crates/c6-cloud-core/src/relay.rs:389-534 | a frame sequence is accepted exactly when every request's projection is accepted by its own automaton and the 32-flow and 4096-id limits hold at every start; the flows map is the product of those automata |
| RelayTraces.TraceProjection | crates/c6-cloud-core/src/relay.rs:389-534 | every projection is a prefix of Start, request chunks 0..k, End, ResponseStart, response chunks 0..m, ResponseEnd, or such a prefix ended by Cancel or RequestFailed |
| RelayTraces.Spelled | crates/c6-cloud-core/src/relay.rs:427-534 | conversely the automaton of a request accepts every such word within the limits |
| RelayTraces.AcceptedLanguage | crates/c6-cloud-core/src/relay.rs:389-534 | the whole language: a frame sequence is accepted exactly when every start finds room, no handshake frame comes again, and every request's frames spell such a word |
| RelayChunks.ChunksReassemble | crates/c6-cloud/src/lib.rs:1400-1419 | the pieces of a body are non-empty, all but the last full, at most 256 or 1024 of them, and concatenate to the body, also when it is empty |
| RelayChunks.ChunkAndReassemble | crates/c6-connector/src/runtime.rs:298-313 | a fresh flow accepts the chunk frames of a body in order exactly when the body is within the limit of its direction |
| RelayChunks.FramesCarryBody | crates/c6-cloud/src/lib.rs:1400-1419 | the cast of the index to u32 never truncates, and the payloads of the frames are the body again |
| RelayChunks.OverflowIsReachable | crates/c6-cloud-core/src/relay.rs:525-532 | that one non-atomic rejection can be reached: after any legal start and 2^32 - 1 accepted empty chunks |
| Connector.ResponseAccepted | crates/c6-connector/src/runtime.rs:279-320 | the frames of a bounded response are accepted exactly when its status and headers are legal, and close the flow |
| Connector.OutcomeKeepsTables | crates/c6-connector/src/runtime.rs:202-210 | handing over an upstream result keeps the tables in agreement; the session goes on exactly when the call was cancelled, failed, or has a legal response head |
| Connector.ReactKeepsTables | crates/c6-connector/src/runtime.rs:124-211 | every event keeps the tables in agreement with the session state and never takes one of the inconsistency branches |
| Connector.ConnectorSafety | crates/c6-connector/src/runtime.rs:119-211 | in every run against an arbitrary peer: tables refine the session, outstanding upstream calls plus admitted requests stay within max_in_flight, buffered bytes within 32 times 16 MiB, and the four inconsistency branches are dead |
| ConnectorSession.ConnectorLoop.OnText | crates/c6-connector/src/runtime.rs:130-184 | one control frame updates the tables in place, sends exactly the planned replies, and cannot end in an inconsistency |
| ConnectorSession.ConnectorLoop.OnBinary | crates/c6-connector/src/runtime.rs:186-195 | one binary message is decoded, observed and buffered; undecodable bytes end the session unchanged |
| ConnectorSession.ConnectorLoop.OnFinished | crates/c6-connector/src/runtime.rs:202-210 | one upstream result leaves the tables and sends the response or the failure, or nothing if cancelled |
| ConnectorSession.ConnectorLoop.SendResponse | crates/c6-connector/src/runtime.rs:279-320 | start, chunk loop and end write exactly the frames of the response, stopping at the first one the observer rejects |
| CloudExchange.RequestPrefix | crates/c6-cloud/src/lib.rs:1388-1419 | after the start and k chunks the session has exactly one flow, at sequence k with the bytes those chunks cover |
| CloudExchange.FewChunksAccepted | crates/c6-cloud/src/lib.rs:1400-1419 | a request of more than 256 chunks is never accepted whole |
| CloudExchange.RequestWhole | crates/c6-cloud/src/lib.rs:1388-1425 | a request that was sent whole leaves exactly one flow, awaiting its response |
| CloudExchange.ReceiveCompletes | crates/c6-cloud/src/lib.rs:1426-1489 | against an arbitrary connector, the loop completes only on one well-numbered response to this request and returns the concatenation of its chunks; the missing-status error and extra size check never fire |
| CloudExchange.OkExchange | crates/c6-cloud/src/lib.rs:1380-1490 | an Ok exchange leaves the session Ready with no flow and exactly one more seen id; everything consumed besides keepalives was that one response, and everything written was the request and one pong for every ping, in order |
| CloudExchange.ServeKeepsQuiet | crates/c6-cloud/src/lib.rs:1323-1359 | one turn goes on only after an Ok exchange or a keepalive, always Ready with no flow and further along the stream; the not-ready break is unreachable |
| CloudExchange.SessionLifetime | crates/c6-cloud/src/lib.rs:1323-1359 | over every stream of one socket the Ok exchanges number the seen ids, so at most 4096, and besides keepalives what was read is exactly their responses, one after the other |
| CloudSession.CloudRelay.ExecuteExchange | crates/c6-cloud/src/lib.rs:1380-1490 | the two loops over the socket compute the modelled result, the new session state, the frames sent and the place where reading goes on |
| CloudSession.CloudRelay.ServeOne | crates/c6-cloud/src/lib.rs:1323-1359 | one turn of the serving loop, with what it reads and, between exchanges, the pong it writes |
| CloudSession.CloudRelay.ServeSession | crates/c6-cloud/src/lib.rs:1323-1359 | the loop over one socket tells its callers the modelled answers in order and then at most one error; the answers are at most 4096 and are the consecutive responses of the stream |
| RelayProtocol.ApplyKeeps | crates/c6-cloud/src/lib.rs:1380-1490 | every step of either side, of an upstream task or of a failure keeps the protocol invariant over both states, both queues and the call log |
| RelayProtocol.EndToEnd | crates/c6-cloud/src/lib.rs:1380-1490 | in every interleaving, an exchange that returned Ok was one upstream call with its method, target, headers and whole body, and returned exactly that call's response; no exchange reaches the upstream twice |
| RelayProtocol.Lockstep | crates/c6-cloud/src/lib.rs:1323-1359 | in every interleaving one queue direction is empty; until the cloud's session is over, draining the queues makes both session states equal; no frame accepted by its sender's observer is rejected by its receiver's, and a frame in flight stops the connector only when its control text is over the connector's limit |
| RelayProgress.RequestAcceptedIff | crates/c6-cloud/src/lib.rs:1388-1425 | a quiet session accepts the whole request exactly when its start is valid, its id is new and the id budget is not used up |
| RelayProgress.Completes | crates/c6-connector/src/runtime.rs:124-211 | from every waiting state with a live connector, a begun exchange whose request the observer takes and whose control frames fit the connector's limit has a run that returns exactly the response a legal upstream gives, ready for the next one, at whatever clock reading before the deadline the connector takes it |
| RelayProgress.EveryRunCanComplete | crates/c6-connector/src/runtime.rs:124-211 | the same over runs, whatever has happened since the session began, for every clock reading within thirty seconds of the beginning |
| RelayDeadline.UpstreamIsAskedIff | crates/c6-cloud/src/lib.rs:1389-1397 | in every interleaving, when the end of the request is all that is left to read, reading it hands the request to the upstream if and only if less than thirty seconds have passed since the exchange was begun; otherwise the connector answers that the deadline expired |
| RelayTextCap.CanReplyIff | crates/c6-connector/src/protocol.rs:12-17 | exactly when an exchange can complete: over every run, a begun exchange whose request the shared observer takes has a schedule that ends with a reply if and only if the texts of its start and of its end are within the connector's limit |
| RelayTextCap.LegalHeadMayNeverBeAnswered | crates/c6-connector/src/protocol.rs:12-17 | a concrete request within every limit of the protocol, one header of 65,530 letters, that the cloud's observer takes and no schedule ever answers |
| RelayDeadlock.NeverStuck | crates/c6-cloud/src/lib.rs:1380-1490 | from every reachable state of an exchange with a live connector, a run without timeout, cut or crash ends the exchange or has the connector stop by itself, and it does not stop if its control frames all fit and no upstream answer with an illegal head awaits it |
| RelayExchange.ExchangeIsExecute | crates/c6-cloud/src/lib.rs:1380-1490 | in every interleaving an exchange that comes back to waiting is the exchange function on the frames heard meanwhile: same reply, same frames written, same session |
| RelayExchange.LogIsTraffic | crates/c6-cloud/src/lib.rs:1380-1490 | those frames are what the cloud takes off one queue and puts on the other |
| RelayFailures.FailureCodes | crates/c6-connector/src/runtime.rs:322-328 | the stable code of every upstream failure and its one fixed message |
| RelayFailures.FailureReachesCaller | crates/c6-cloud/src/lib.rs:1451-1458 | what the cloud's caller is told: a timeout exactly for an upstream timeout, otherwise only that the request failed |
| RelayFailures.RequestIsServedIff | crates/c6-connector/src/runtime.rs:145-156 | a whole request goes to the upstream exactly when it was admitted and its deadline has not passed; otherwise which failure is answered |
| RelayFailures.StartIsAdmittedIff | crates/c6-connector/src/runtime.rs:133-144 | a start is turned away exactly when max_in_flight requests are pending or active |
| RelayFailures.PingIsAnswered | crates/c6-connector/src/runtime.rs:181-182 | a ping is answered with its own nonce and changes nothing |
| RelayFailures.RequestFailsFor | crates/c6-cloud/src/lib.rs:1388-1425 | why a request is not sent whole: its head, its id or the id budget first, and then a body over 16 MiB |
| RelayFailures.ExchangeEndsFor | crates/c6-cloud/src/lib.rs:1426-1489 | which error ends an exchange for which message |
| RelayFailures.BadMethodIsNotSent | crates/c6-cloud/src/lib.rs:1395-1395 | an exchange fails for its method exactly when that is none of the seven |
| RouteRegistry.RelayRegistry.RegisterIfActive | crates/c6-cloud/src/lib.rs:1609-1637 | a route comes back exactly for an active installation whose row was written, which is then shown as connected and answered for by this session; every other row and route stays; without a route nothing changed; no revoked installation has a route before or after |
| RouteRegistry.RelayRegistry.Revoke | crates/c6-cloud/src/lib.rs:873-908 | a committed revocation leaves the installation unable to register and without a route; every other row and route stays; otherwise nothing changed; no revoked installation has a route before or after |
| RouteRegistry.RelayRegistry.ClearConnected | crates/c6-cloud/src/lib.rs:1371-1377 | marks an unrevoked installation as not connected and touches nothing else |
| RouteRegistry.RelayRegistry.Release | crates/c6-cloud/src/lib.rs:1360-1370 | takes the route down only for the session that owns it, and no other route |
| RouteRegistry.RevokedHasNoRoute | crates/c6-cloud/src/lib.rs:873-908 | in every interleaving, whenever the registry lock is free no revoked installation has a route, and none reappears later |
| RouteRegistry.SecureWhenFree | crates/c6-cloud/src/lib.rs:873-908 | what the registry's methods keep holds in every interleaving whenever the lock is free |
| RouteRegistry.RevocationIsFinal | crates/c6-cloud/src/lib.rs:873-908 | no later step of any session undoes a revocation or changes a route id |
| RouteRegistry.RouteLostOnlyTo | crates/c6-cloud/src/lib.rs:1360-1377 | a session loses its route only to its own clean-up, to a newer session of the same installation or to that installation's revocation; an evicted session's clean-up leaves its replacement alone |
| RouteRegistry.ConnectedIsBacked | crates/c6-cloud/src/lib.rs:1360-1377 | with database writes succeeding, an unrevoked connected installation has a live route or a clean-up between its two steps |
| RouteRegistry.StaysShownIffNoClearPending | crates/c6-cloud/src/lib.rs:1360-1377 | the other direction exactly: a session that registers is shown as connected for as long as it owns its route, in every continuation, if and only if no clean-up of the installation is between its two steps when it registers |
| RouteRegistry.LiveRouteMayLookDisconnected | crates/c6-cloud/src/lib.rs:1360-1377 | a concrete run that ends with a live route and no connected_at |
| ReplayWindow.Authenticator.Verify | crates/c6-runner/src/lib.rs:635-682 | which verdict when: version, stamp and authenticity are settled before the nonce table is consulted, and the payload after it; an envelope that passes the nonce check is authentic, leaves its nonce behind with its own stamp, which was not live before, even if its payload then does not parse, and yields its own payload's command; no other verdict adds an entry, none drops a live one, and the table stays within 4096 |
| ReplayWindow.PassesAreAuthentic | crates/c6-runner/src/lib.rs:642-664 | in every run only envelopes of version 1, within the skew, with a sixteen-byte nonce and a genuine MAC ever reach the nonce check |
| ReplayWindow.TableIsRemembered | crates/c6-runner/src/lib.rs:665-674 | after every run the table holds exactly the passed nonces whose stamp every lock holder since was near, so nothing live is ever evicted to make room |
| ReplayWindow.TableIsBounded | crates/c6-runner/src/lib.rs:670-673 | the table never exceeds 4096 entries |
| ReplayWindow.SpentNoncePassesIff | crates/c6-runner/src/lib.rs:665-674 | for any clock: a spent nonce passes again exactly when some lock holder since read a clock outside its window and the table has room |
| ReplayWindow.SpentNonceWaitsOutWindow | crates/c6-runner/src/lib.rs:643-674 | with the clock nondecreasing in lock order that is exactly when the new attempt reads a clock past the first stamp plus 60000 |
| ReplayWindow.SharedNonceMovesOn | crates/c6-runner/src/lib.rs:643-674 | two passing envelopes that share a nonce have strictly increasing stamps, the second arriving after the first's window |
| ReplayWindow.NoEnvelopePassesTwice | crates/c6-runner/src/lib.rs:635-682 | with the clock nondecreasing in lock order no envelope passes twice |
| ReplayWindow.OutOfOrderClockReplays | crates/c6-runner/src/lib.rs:855-861 | without it one can: a run in which the clock differs by one millisecond |
| RunnerRuns.RecordIsBounded | crates/c6-runner/src/lib.rs:996-1037 | a record has both clock readings and exactly the exit code of its outcome; its status tells the outcome; each log is the longest whole-character prefix of its stream within the request's bound, marked truncated exactly when something is missing |
| RunnerRuns.RunnerService.Cancel | crates/c6-runner/src/lib.rs:888-910 | acknowledged as not yet terminal exactly when the run is active, and then every result its task could still take counts as cancelled; as already terminal exactly when it is not active but has a readable record; otherwise not found or unreadable; only the first changes anything |
| RunnerRuns.RunnerService.Execute | crates/c6-runner/src/lib.rs:912-986 | one undisturbed call leaves the active table as it was; the store gains at most the returned record, for a run id that had none; a recorded request gets its record back and a different one is refused; a new run's record reports what the backend returned, stdout and stderr apart, with both clock readings; every other failure has its own refusal |
| RunnerRuns.NewRunIsReported | crates/c6-runner/src/lib.rs:962-986 | the same of the call as a function: output, failure, timeout or cancellation, as it was |
| RunnerRuns.RepeatedCallReturnsRecord | crates/c6-runner/src/lib.rs:912-986 | undisturbed calls are idempotent: a request once answered with a record gets the same record again and changes nothing, whatever the backend would now return |
| RunnerRuns.UndisturbedCall | crates/c6-runner/src/lib.rs:912-986 | the separate steps of a call, taken back to back, do the same |
| RunnerRuns.RunOwnership | crates/c6-runner/src/lib.rs:938-976 | in every interleaving at most one task runs the backend for a run id, and the table is exactly the running tasks' ids |
| RunnerRuns.ReleaseIsOwn | crates/c6-runner/src/lib.rs:976-976 | a task's removal takes its own entry and no other |
| RunnerRuns.CancelTakesEffectIff | crates/c6-runner/src/lib.rs:888-976 | a cancel of an active run is always acknowledged as not yet terminal, and the run then ends as cancelled in every continuation if and only if no other result had been taken before |
| RunnerRuns.CancelSettlesOutcome | crates/c6-runner/src/lib.rs:888-976 | after it the outcome can only be one, in every continuation: cancelled, or the result that had been taken |
| RunnerRuns.AcknowledgedCancelMayComeTooLate | crates/c6-runner/src/lib.rs:888-976 | a concrete run: the cancel is acknowledged as not yet terminal and the run is recorded as succeeded |
| RunnerRuns.LateTaskNeverRuns | crates/c6-runner/src/lib.rs:919-937 | in any interleaving a task that had not loaded when the record was there never runs the backend |
| RunnerRuns.RecordIsFinalIff | crates/c6-runner/src/lib.rs:912-986 | a stored record survives every continuation exactly when no task with its id got past its load before |
| RunnerRuns.StoredRecordIsFinal | crates/c6-runner/src/lib.rs:912-986 | when calls for one id do not overlap, a stored record never changes |
| RunnerRuns.RecordedRunIsAnswered | crates/c6-runner/src/lib.rs:919-937 | then a repeated request gets the record back, a different one is refused, and the store stays as it was |
| RunnerRuns.OverlappingCallsRunTwice | crates/c6-runner/src/lib.rs:912-986 | overlapping calls: a concrete run in which the record of one request replaces that of another |
| RunnerFrames.ReadFrame | crates/c6-runner/src/lib.rs:1074-1102 | the buffering loop over reads of at most 4096 bytes gives the modelled answer, which the next four rows and the one on segmentation pin down |
| RunnerFrames.FrameIsAnswered | crates/c6-runner/src/lib.rs:1074-1102 | a stream whose only newline is its last byte, however it is cut, is a frame exactly when it is not empty and within 256 KiB, and is otherwise refused as empty or too large |
| RunnerFrames.UnfinishedIsAnswered | crates/c6-runner/src/lib.rs:1078-1093 | a stream without a newline is too large or truncated, by its length alone |
| RunnerFrames.ExtraBytesAreRefused | crates/c6-runner/src/lib.rs:1083-1088 | bytes after the newline in its read are refused as a second frame, unless the limit was passed before that read |
| RunnerFrames.OpenFrameStops | crates/c6-runner/src/lib.rs:1078-1081 | while a frame is open, a failed read and the end of the stream are told apart |
| RunnerFrames.AcceptedFrame | crates/c6-runner/src/lib.rs:1074-1102 | an Ok result is always the non-empty bytes before the stream's first newline, within 256 KiB |
| RunnerFrames.SegmentationIndependentIff | crates/c6-runner/src/lib.rs:1074-1102 | all segmentations of a stream give the same result exactly when no byte follows its first newline or that newline lies at least 4095 bytes past the size limit |
| RunnerFrames.SegmentationsDisagree | crates/c6-runner/src/lib.rs:1074-1102 | for every other stream, two segmentations with different results |
| Utf8Text.BoundaryIffCut | crates/c6-runner/src/lib.rs:1046-1049 | the byte test for a character boundary in UTF-8 (section 3 of RFC 3629) holds exactly between whole characters |
| RunnerFrames.CaptureLog | crates/c6-runner/src/lib.rs:1039-1055 | the backward scan never underflows, truncates exactly what is too long, and keeps the longest whole-character prefix, at most three bytes below the limit |
| RunnerFrames.FittingIsLongest | crates/c6-runner/src/lib.rs:1039-1055 | taking whole characters from the front while they fit gives the same longest prefix |
| GitHistory.Repository.ValidateChanges | crates/c6-git/src/lib.rs:643-673 | returns the first fault of the change list in the order of the checks |
| GitHistory.AcceptableIffNoFault | crates/c6-git/src/lib.rs:643-673 | no fault exactly when count, paths, sizes and total are within limits and no path repeats; the overflow check turns nothing acceptable away |
| GitHistory.FaultsAreReal | crates/c6-git/src/lib.rs:643-673 | each fault names something that is really wrong with the change list |
| GitHistory.Repository.UpdateRef | crates/c6-git/src/lib.rs:764-782 | the branch moves exactly when it is still where it was read and git does not refuse, no other branch ever moves, and a move to a descendant keeps the repository sound and only advances tips |
| GitHistory.Repository.CommitChanges | crates/c6-git/src/lib.rs:468-572 | one undisturbed call, from inputs to answer: the new commit's only parent is the old tip, or for a new branch the commit its start revision names, or none; which failure when; soundness and every history are kept, and success puts the returned commit into the branch's history |
| GitHistory.Repository.Merge | crates/c6-git/src/lib.rs:574-641 | one undisturbed call, given git's two ancestry answers: up to date, fast-forward, conflict or a commit with the old tip and then the named source as parents; which failure when; the whole of a named source branch is in the target afterwards; failures and conflicts move no branch |
| GitHistory.UnrelatedHistoryIff | crates/c6-git/src/lib.rs:466-488 | in a repository that is not empty, a call begins a history without parents, against its doc comment, exactly when its inputs are valid, the branch does not exist, no start revision is given and git does not refuse |
| GitHistory.UnrelatedHistoryCanBegin | crates/c6-git/src/lib.rs:466-488 | a concrete repository and call that do so |
| GitHistory.UndisturbedCommit | crates/c6-git/src/lib.rs:468-572 | the separate steps of a commit, taken back to back, do the same |
| GitHistory.UndisturbedMerge | crates/c6-git/src/lib.rs:574-641 | the separate steps of a merge, taken back to back, do the same |
| GitHistory.AncestryIsStable | crates/c6-git/src/lib.rs:746-762 | git's answer about two existing commits never changes as other writers add objects |
| GitHistory.NextKeepsInv | crates/c6-git/src/lib.rs:468-641 | every step keeps the commit graph closed and acyclic and moves branches only to descendants |
| GitHistory.HistoryIsKept | crates/c6-git/src/lib.rs:468-641 | every commit returned by a successful call and every source of a non-conflicting merge stays in the branch's history through all later steps of all writers |
| GitHistory.TipsOnlyAdvance | crates/c6-git/src/lib.rs:556-571 | branches never vanish and only move to descendants |
| GitHistory.TipsNeverReturn | crates/c6-git/src/lib.rs:764-782 | a tip that has been left never comes back, so the compare-and-swap cannot mistake an old tip for an unchanged branch |
| GitHistory.LaterBuildsOnEarlier | crates/c6-git/src/lib.rs:468-641 | no lost update: a commit that lands descends from everything earlier successful calls put on the branch |
| GitHistory.RefsMoveExactlyWhen | crates/c6-git/src/lib.rs:556-571 | a step changes branches exactly when it is a compare-and-swap that lands, and then only its own branch, to the commit the call returns; conflicts and failures change none |
| GitHistory.ParentlessExactlyWhen | crates/c6-git/src/lib.rs:482-488 | in every interleaving a landed commit has no parents exactly when its writer was given no start revision and read that the branch does not exist |
| GitProvenance.MergeSourceWasNamed | crates/c6-git/src/lib.rs:585-641 | in every interleaving the source of a successful merge is the commit that the call's own revision named at some step: for a branch, its tip then |
| GitProvenance.LandedParents | crates/c6-git/src/lib.rs:482-571 | in every interleaving, what lands has as parents the tip it replaces, and then the named source for a merge; on a new branch the commit its start revision named, or none if none was given |
| Scheduler.DecidesFirst | crates/c6-scheduler/src/lib.rs:189-243 | a tick decides nothing exactly when nothing occurs in its interval, otherwise the first occurrence there; skipping outranks claims, claims outrank blocking |
| Scheduler.BackwardsClockIsReported | crates/c6-scheduler/src/lib.rs:194-199 | a clock before the checkpoint, and only such a one, is reported with both readings |
| Scheduler.CheckpointsAreMonotone | crates/c6-scheduler/src/lib.rs:194-199 | checkpoints never move back, whatever ticks fail or are not committed |
| Scheduler.IntervalsPartition | crates/c6-scheduler/src/lib.rs:122-132 | the intervals of committed ticks partition the covered timeline |
| Scheduler.EnqueuedTimesIncrease | crates/c6-scheduler/src/lib.rs:201-238 | enqueued times strictly increase, so no occurrence is enqueued twice |
| Scheduler.EnqueuedExactlyWhen | crates/c6-scheduler/src/lib.rs:201-238 | an occurrence is enqueued exactly when it is the first in the interval of a committed tick free to start it |
| Scheduler.TruthfulClaimsNeverBite | crates/c6-scheduler/src/lib.rs:224-227 | if claims only name what earlier ticks enqueued, no tick finds its occurrence claimed |
| Scheduler.NothingMissedOrInvented | crates/c6-scheduler/src/lib.rs:189-243 | live, unblocked ticks with at most one occurrence per interval enqueue exactly the occurrences of the covered range |
| Scheduler.IdleTicksAreInvisible | crates/c6-scheduler/src/lib.rs:194-222 | any number of idle ticks leaves the next tick's outcome the same, exactly as long as the clock has not fallen behind their checkpoint |
| Scheduler.RetryDecidesTheSame | crates/c6-scheduler/src/lib.rs:189-243 | retrying an uncommitted due tick later, with the same inputs, decides the same occurrence in the same way |

## Left out

- JSON, base64 and WebSocket framing. Control frames are typed values on a FIFO, and whether the
  text of one is within the connector's limit is a parameter of the composition.
- Transport errors and timeouts: they end a session and are events (`Abort`, `Die`), not errors with
  their own texts. `CloudExchange` merges close, transport error and deadline into one message.
- The upstream HTTP client, header filtering and URL building: the upstream answers with any response
  whose body is within the limit, or with an error, having been called or not.
- The connector's result channel: results are handed over in any order, which includes the order of
  the channel.
- Serving more than one exchange at a time in `RelayProtocol`: the cloud never does, and never sends
  Cancel. `Connector` and `RelayTraces` do cover 32 concurrent requests and Cancel against any peer.
- The handshake as part of `RelayProtocol`: runs start where `RelaySession.HandshakeReachesFresh` ends.
- Proxying after a revocation: a handler may already hold the sender, so nothing is claimed about it.
- SQL, account roles, enrollment tokens, audit rows and the reading back of the revocation time
  between commit and route removal: that parse of a value just formatted is taken to succeed.
- Cryptography: whether a MAC is genuine is a parameter; random ids are whatever the events say.
- Execution requests are compared as wholes; their validation and the sandbox backend are parameters.
- Two saves of one run id at the same time share a temporary file name; a save is one step here.
- Inspect and Ping beside `execute` and `cancel` in the interleavings: they change nothing.
- Git's trees, blobs, the index and merge conflicts: `merge-tree` conflicts or yields a tree, and a
  commit is its parents. Pushes over smart HTTP, import and staged deletion of repositories.
- GitHistory.Repository.Merge: git's two ancestry answers are arguments, since the ancestry search is
  git's own; `RunnerRuns.RunnerService.Execute` likewise takes the backend's result.
- Name, slug, identity and message validators; the manifest; catalog publication; role ranks.
- Cron parsing, time zones and daylight saving: only the contract of `next_after`, that it is the
  least occurrence strictly after an instant.
