# Mina Vision: models and proofs

A Dafny model of the protocols and codecs behind the Android gateway of Mina Vision, and of its piano
MIDI writer. `dafny verify dfyconfig.toml` checks all of it.

Code that computes values is modelled by functions. Code that updates fields, tables or buffers is modelled
by classes and methods with the same branches and loops, each proved equal to a specification function, so
that whole runs can be reasoned about. Concurrent parts (the outbox, voice enqueueing, response
streams, the recorder) are also state machines with one step per table statement, critical section or
resource call, over which all interleavings are quantified.

| files | what they model |
|---|---|
| `ChatDao`, `SyncLoop`, `OutboxRuns`, `OutboxInterleaving` | the durable outbox: tables, drain pass, whole runs, statement-level interleavings |
| `VoiceCapture`, `VoiceEnqueue`, `VoiceDelivery` | encrypted voice notes from microphone packets to readable thread rows, across crashes |
| `ResponseAssembler`, `Ingest` | progressive answers reordered within a byte budget, under at-least-once delivery |
| `ResponseStream`, `StreamController`, `StreamRuns` | attaching and cancelling transient subscriptions, and the controller that does so |
| `History`, `HistoryWindow` | keyset pages and the bounded window of decrypted messages |
| `MonotonicUlid`, `Framing`, `PayloadCodec`, `Media`, `MediaThread`, `Utf8`, `Decimal` | identifiers, signed framings, payloads, media |
| `Recorder`, `VoiceRecorder` | the microphone, the audio focus and the sink of a voice note |
| `Midi`, `MidiTrack` | the Standard MIDI File writer and a reader for it |
| `Multiplexer`, `Telegram` | transport queues with failover, Telegram intake |

## Where the code keeps less than its documentation says

Each of these is proved as an exact condition, with a lemma that shows the failure.

- `ChatSyncLoop` says that no message is ever lost. With whole passes the outbox row and the state agree; when
  statements interleave, an ack between sending and the state write, or a retry between the failed_final write
  and the removal, strands the message (`StrandsExactlyWhen`, `TimelyRunStrandsNothing`;
  `AckStrandsFromTheStart`, `RetryStrandsFromTheStart`).
- `due.drop(relayed)` is aligned with the relayed rows exactly when no relayed row comes after a due row that
  has lost its event (`OfflineHandlesEachOnce`, `AlignedForEveryAnswerExactlyWhen`; `OrphanMisalignsPass`).
- An exhausted `MonotonicUlid` has already zeroed its bytes: the next identifier in the same millisecond goes
  backwards (`RunIncreasesExactlyWhen`; `ExhaustionGoesBackwards`).
- A capture is readable, and can be sent, exactly when all packets but the last are full, yet shorter ones are
  accepted (`ReadableExactlyWhenFull`, `SealableExactlyWhenFull`; `ShortPacketIsNeverReadable`,
  `ShortCaptureIsNeverSent`).
- `hasOlder` is sound, and stays exact unless the window evicts while the flag is false (`AcceptKeepsSlice`;
  `EvictionForgetsOlder`).
- Two overlapping `watchFrames` of one response leave a listener that nothing closes (`LostExactlyByOverlap`;
  `OverlapFromStart`), and so does a response that ends between the controller's check and its watch
  (`OrphanExactlyByLateWatch`, `OnlyLateWatchesOutlive`; `EndBetweenCheckAndWatch`).
- The focus adapter remembers one request: a start during a teardown loses its focus to it
  (`StuckExactlyByOverlap`; `FocusIsStolenFromStart`), and a fast focus loss leaves "recording" on the screen
  (`StaleExactlyWhen`; `StaleFromStart`).
- A track whose distances need more than four bytes is written but cannot be read (`BuiltTrackReadsBack`;
  `LateNoteCannotBeRead`).
- A source that repeats an update identifier can make a failing Telegram poll skip an owner update
  (`PassesUnstoredExactlyWhen`; `SharedIdentifierLosesUpdate`).

## Assumptions

- AES-GCM is an ideal seal that opens to what was sealed under the same associated data; SHA-256 is any
  function into 64 hexadecimal digits; the blind index is injective where a lemma says so. JSON objects are
  maps with an abstract printer that a stated predicate makes invertible.
- Strings are sequences of Unicode scalar values (no unpaired surrogates); UTF-8 is modelled and its
  injectivity proved. SQL text order is the order of the characters of the identifiers.
- Clocks, random bytes, link answers, file and table failures are inputs.
- Room selects are given by what they return (`DueRows`, `NewestBefore`), library sorts by the order they give.
- Voice identifiers drawn for a note are fresh and used by no other writer; nothing purges the note's rows
  before the note is complete.
- The Telegram server answers with logged updates, none twice, never skipping an earlier unconfirmed one.

## Model

| member | source | states |
|---|---|---|
| OutboxRuns.OutboxHoldsExactlyThePending | android/core/chat/src/main/kotlin/fr/mina/gateway/chat/ChatSyncLoop.kt:52-119 | after any run of sends, whole drain passes, acks, retries, purges and receptions, an outgoing event has an outbox row if and only if its state is local_pending, direct_sending, cloud_queued or waiting_for_pc |
| OutboxRuns.NeverGivesUpEarly | android/core/chat/src/main/kotlin/fr/mina/gateway/chat/ChatSyncLoop.kt:105-122 | a pass that turns a message into failed_final has at least eleven earlier handling passes behind it and comes at least 1,581,000 ms after the first |
| OutboxRuns.RunKeepsInv | android/core/chat/src/main/kotlin/fr/mina/gateway/chat/ChatSyncLoop.kt:52-119 | every run keeps both the state/outbox correspondence and, for each queued message, attempt count = number of handling passes and next attempt no earlier than the first pass plus the sum of all delays so far |
| OutboxRuns.AckKeepsPlaceExactlyWhen | android/core/chat/src/main/kotlin/fr/mina/gateway/chat/ChatRepository.kt:283-286 | `markDelivered` keeps the correspondence for a queued message if and only if the state is pc_received, completed or one of the pending ones |
| OutboxInterleaving.NothingIsLostFromTheStart | android/core/chat/src/main/kotlin/fr/mina/gateway/chat/ChatSyncLoop.kt:52-119 | with any number of passes, acks, retries, sends, purges and process deaths interleaved statement by statement: since it was last sent or retried, a message is in the outbox, or was acked, or some pass saw its event gone, or a pass gave it up (twelve handlings having ended), or its row was removed by a decision made before that retry |
| OutboxInterleaving.OvertakenExactlyWhen | android/core/chat/src/main/kotlin/fr/mina/gateway/chat/ChatSyncLoop.kt:65-110 | that last case arises exactly when the removing pass or ack had decided about an earlier queueing |
| OutboxInterleaving.LeavesOnlyBy | android/core/chat/src/main/kotlin/fr/mina/gateway/chat/ChatSyncLoop.kt:65-113 | a row leaves the outbox exactly by the removal of an ack, of a pass that has just written failed_final, or of a pass that found the event missing |
| OutboxInterleaving.StrandsExactlyWhen | android/core/chat/src/main/kotlin/fr/mina/gateway/chat/ChatSyncLoop.kt:73-113 | a message becomes pending without an outbox row if and only if the statement is outdated: a state write for a row already gone, or a removal of a row that is pending again |
| OutboxInterleaving.TimelyRunStrandsNothing | android/core/chat/src/main/kotlin/fr/mina/gateway/chat/ChatSyncLoop.kt:73-113 | over a whole run with no outdated statement for a message, the message is never stranded |
| OutboxInterleaving.AckStrandsFromTheStart | android/core/chat/src/main/kotlin/fr/mina/gateway/chat/ChatSyncLoop.kt:73-75 | such a run from the empty tables: a message acknowledged between its sending and the state write |
| OutboxInterleaving.RetryStrandsFromTheStart | android/core/chat/src/main/kotlin/fr/mina/gateway/chat/ChatSyncLoop.kt:105-119 | another: eleven refusals, the twelfth writes failed_final, and the user retries before the removal |
| OutboxInterleaving.AckDuringSendStrands | android/core/chat/src/main/kotlin/fr/mina/gateway/chat/ChatSyncLoop.kt:73-75 | the case the documentation excludes: an ack between `link.send` and the state write always leaves the message direct_sending (or cloud_queued) with nothing left to send it |
| OutboxInterleaving.RetryDuringFailureStrands | android/core/chat/src/main/kotlin/fr/mina/gateway/chat/ChatSyncLoop.kt:107-110 | a user retry between the failed_final write and the removal always succeeds and then loses its new outbox row |
| OutboxInterleaving.UndisturbedPassIsAtomic | android/core/chat/src/main/kotlin/fr/mina/gateway/chat/ChatSyncLoop.kt:52-119 | the statement-level pass, run without interference, computes exactly the atomic pass |
| SyncLoop.ChatSyncLoop.DrainOnce | android/core/chat/src/main/kotlin/fr/mina/gateway/chat/ChatSyncLoop.kt:52-82 | the loops of a pass compute the specification `Drain`: tables and number handed to a link, online and offline |
| SyncLoop.PassReturnsHandedOver | android/core/chat/src/main/kotlin/fr/mina/gateway/chat/ChatSyncLoop.kt:52-103 | what a pass returns, told from the tables before it: online the number of rows whose event exists and which the socket took; offline that of the present rows before the first one that the relay refused, or 0 without the relay |
| SyncLoop.ChatSyncLoop.RelayPending | android/core/chat/src/main/kotlin/fr/mina/gateway/chat/ChatSyncLoop.kt:88-103 | the relay loop with its skips and its stop at the first refusal computes `Relay`, and counts what was really deposited |
| SyncLoop.ChatSyncLoop.MarkRowWaiting | android/core/chat/src/main/kotlin/fr/mina/gateway/chat/ChatSyncLoop.kt:105-119 | a refused row waits with one more attempt, or, at the twelfth, fails for good and leaves the outbox |
| SyncLoop.OfflineHandlesEachOnce | android/core/chat/src/main/kotlin/fr/mina/gateway/chat/ChatSyncLoop.kt:54-61 | an offline pass handles each due row exactly once (a relayed prefix, the rest waiting) if and only if no relayed row comes after a due row that has lost its event |
| SyncLoop.AlignedForEveryAnswerExactlyWhen | android/core/chat/src/main/kotlin/fr/mina/gateway/chat/ChatSyncLoop.kt:54-61 | known before the pass: it does so whatever the relay answers if and only if the due rows without an event all come last |
| SyncLoop.AlignedOfflinePass | android/core/chat/src/main/kotlin/fr/mina/gateway/chat/ChatSyncLoop.kt:54-61 | with no relayed row after such a row, the event and the outbox row of every due row after the pass, field by field: relayed and put off, or waiting, or at the twelfth attempt failed for good |
| SyncLoop.OfflinePassOutcome | android/core/chat/src/main/kotlin/fr/mina/gateway/chat/ChatSyncLoop.kt:54-61 | aligned or not, the same for every due row of an offline pass |
| SyncLoop.OnlinePassOutcome | android/core/chat/src/main/kotlin/fr/mina/gateway/chat/ChatSyncLoop.kt:64-81 | the event and the outbox row of every due row after an online pass, field by field, whatever happens to the others: dropped without its event, sending and put off when taken, else waiting with the error or, at the twelfth attempt, failed for good |
| SyncLoop.PassIgnoresOthers | android/core/chat/src/main/kotlin/fr/mina/gateway/chat/ChatSyncLoop.kt:52-119 | a pass changes neither table for an identifier that was not due |
| SyncLoop.OrphanMisalignsPass | android/core/chat/src/main/kotlin/fr/mina/gateway/chat/ChatSyncLoop.kt:60-61 | a concrete pass in which an orphan row makes `drop` skip it and mark as failed_final a message the relay has just accepted |
| SyncLoop.BackoffIsMonotone | android/core/chat/src/main/kotlin/fr/mina/gateway/chat/ChatSyncLoop.kt:121-122 | delays are nondecreasing in the attempt count, lie in 3,000..300,000 ms, and the shifted value stays far below overflow |
| SyncLoop.BackoffDoubles | android/core/chat/src/main/kotlin/fr/mina/gateway/chat/ChatSyncLoop.kt:121-122 | three seconds at first, then twice as long each time, up to five minutes |
| SyncLoop.ElevenBackoffs | android/core/chat/src/main/kotlin/fr/mina/gateway/chat/ChatSyncLoop.kt:27-32 | the eleven delays before a twelfth attempt add up to 1,581,000 ms |
| ChatDao.Tables.EnqueueOutgoingRow | android/core/chat/src/main/kotlin/fr/mina/gateway/chat/ChatDatabase.kt:154-158 | event and outbox row in one transaction, each inserted or ignored |
| ChatDao.EnqueueOutcome | android/core/chat/src/main/kotlin/fr/mina/gateway/chat/ChatDatabase.kt:154-158 | a message handed over twice stays as it was the first time, in both tables; no other row is touched |
| ChatDao.Tables.RetryFailedOutgoingBatch | android/core/chat/src/main/kotlin/fr/mina/gateway/chat/ChatDatabase.kt:167-187 | all or nothing: the group goes back to the outbox with attempt 0 only if it is not empty and every member is an outgoing final failure |
| ChatDao.RetryOutcome | android/core/chat/src/main/kotlin/fr/mina/gateway/chat/ChatDatabase.kt:167-187 | a retry succeeds exactly for a non-empty group of outgoing final failures; each of them is then local_pending with an outbox row due at once, without attempts or error; every other row stays, and a refused retry changes nothing |
| ChatDao.Tables.MarkDelivered | android/core/chat/src/main/kotlin/fr/mina/gateway/chat/ChatRepository.kt:283-286 | state first, then the outbox row, only for pc_received and completed |
| ChatDao.AcknowledgeOutcome | android/core/chat/src/main/kotlin/fr/mina/gateway/chat/ChatRepository.kt:283-286 | the state is noted in any case, the outbox row goes exactly for pc_received and completed, no other row is touched |
| ChatDao.Tables.PurgeExpiredChunks | android/core/chat/src/main/kotlin/fr/mina/gateway/chat/ChatDatabase.kt:126-127 | exactly the stream events older than the cut are gone |
| ChatDao.PurgeOutcome | android/core/chat/src/main/kotlin/fr/mina/gateway/chat/ChatDatabase.kt:126-127 | an event goes exactly when it is a stream event dated before the cut; the outbox stays |
| ChatDao.DueRowsAreDistinct | android/core/chat/src/main/kotlin/fr/mina/gateway/chat/ChatDatabase.kt:132-133 | what the due query returns never names an event twice |
| VoiceEnqueue.RunKeepsInv | android/core/chat/src/main/kotlin/fr/mina/gateway/chat/ChatRepository.kt:152-201 | over any sequence of attempts failing before or after any write, with other writers in between: the rows of the note are a prefix of its one plan, in plan order and once each with their own payloads; the plan never changes once taken; the capture is deleted and success reported only when every planned row exists |
| VoiceEnqueue.RowsStay | android/core/chat/src/main/kotlin/fr/mina/gateway/chat/ChatRepository.kt:152-201 | no run changes or removes a row that exists |
| VoiceEnqueue.Sender.EnqueueVoice | android/core/chat/src/main/kotlin/fr/mina/gateway/chat/ChatRepository.kt:152-201 | each attempt, with a fault after any number of reads and writes or at a chunk that does not read back, is a run of that machine; success is exactly reaching the deletion; with room, readable chunks and no fault it succeeds; a full outbox or a bad plan refuses the note, by name and with nothing written |
| VoiceEnqueue.Sender.Reserve | android/core/chat/src/main/kotlin/fr/mina/gateway/chat/EncryptedAttachmentStore.kt:78-93 | a new note gets its plan on disk and then in memory; a resumed note keeps the plan it has |
| VoiceEnqueue.Sender.SendMissing | android/core/chat/src/main/kotlin/fr/mina/gateway/chat/ChatRepository.kt:177-199 | the rows found missing are written, metadata first, up to the first fault or unreadable chunk; without one, the capture is deleted |
| VoiceDelivery.VoiceNoteArrives | android/core/chat/src/main/kotlin/fr/mina/gateway/chat/ChatRepository.kt:152-201 | end to end: however many attempts failed, once one succeeds `readMediaBytes` gives back the captured PCM and its type, among any other rows and in whatever order the rows come |
| VoiceDelivery.ShortCaptureIsNeverSent | android/core/chat/src/main/kotlin/fr/mina/gateway/chat/ChatRepository.kt:183-200 | a capture with a short packet before its last: no attempt ever succeeds, and its files are never deleted |
| VoiceDelivery.SealableExactlyWhenFull | android/core/chat/src/main/kotlin/fr/mina/gateway/chat/ChatRepository.kt:183-200 | every part of a note can be sealed if and only if every packet but the last is full |
| VoiceDelivery.VoicePieceIsPiece | android/core/chat/src/main/kotlin/fr/mina/gateway/chat/ChatRepository.kt:168-198 | a readable capture is announced and cut exactly as `MediaChunker.chunk` would cut the same bytes |
| VoiceCapture.Capture.Append | android/core/chat/src/main/kotlin/fr/mina/gateway/chat/EncryptedAttachmentStore.kt:133-162 | which packets are accepted; accepted ones are appended in order; any error on an open capture discards it; the caller buffer is zeroed in every case with a valid range |
| VoiceCapture.Capture.Complete | android/core/chat/src/main/kotlin/fr/mina/gateway/chat/EncryptedAttachmentStore.kt:164-195 | which completions succeed and the layout they announce; a failed one discards |
| VoiceCapture.Capture.Discard | android/core/chat/src/main/kotlin/fr/mina/gateway/chat/EncryptedAttachmentStore.kt:197-220 | discarding empties the directory, once |
| VoiceCapture.ReadsExactlyItsOwn | android/core/chat/src/main/kotlin/fr/mina/gateway/chat/EncryptedAttachmentStore.kt:95-115 | a chunk reads back as a packet if and only if that packet was sealed for this note, epoch and index and has the announced size |
| VoiceCapture.ReadableExactlyWhenFull | android/core/chat/src/main/kotlin/fr/mina/gateway/chat/EncryptedAttachmentStore.kt:95-115 | every chunk passes its size check if and only if every packet but the last was exactly CHUNK_BYTES long |
| VoiceCapture.CaptureRoundTrip | android/core/chat/src/main/kotlin/fr/mina/gateway/chat/EncryptedAttachmentStore.kt:95-195 | then the chunks concatenate to the appended PCM and chunkCount = ceil(sizeBytes / CHUNK_BYTES) |
| VoiceCapture.ShortPacketIsNeverReadable | android/core/chat/src/main/kotlin/fr/mina/gateway/chat/EncryptedAttachmentStore.kt:133-162 | two short packets give a capture that passes the count check and whose chunk 0 can never be read |
| ResponseAssembler.ReassemblyIsOrderIndependent | android/core/chat/src/main/kotlin/fr/mina/gateway/chat/ChatResponseStreamAssembler.kt:46-95 | once a response is in progress, any order and repetition of its chunks 1..n within the byte budget, among frames of other responses, ends with the concatenation 1..n, nothing buffered |
| ResponseAssembler.FeedKeepsInv | android/core/chat/src/main/kotlin/fr/mina/gateway/chat/ChatResponseStreamAssembler.kt:28-106 | after any frames: the counters are the real UTF-8 sizes, the total is within 32 KiB, buffers only hold later chunks, the published list matches |
| ResponseAssembler.ReceiveIsSound | android/core/chat/src/main/kotlin/fr/mina/gateway/chat/ChatResponseStreamAssembler.kt:46-95 | one chunk keeps those counts, and overflow is reported only when the arriving chunk itself exceeds the budget |
| ResponseAssembler.DrainIsSound | android/core/chat/src/main/kotlin/fr/mina/gateway/chat/ChatResponseStreamAssembler.kt:66-80 | draining the reorder buffer always succeeds: its overflow exit is unreachable, and the total does not change |
| ResponseAssembler.FeedProgresses | android/core/chat/src/main/kotlin/fr/mina/gateway/chat/ChatResponseStreamAssembler.kt:46-95 | at every moment the text is the concatenation 1..nextSequence-1 and exactly the later chunks received are buffered |
| ResponseAssembler.StartedOpens | android/core/chat/src/main/kotlin/fr/mina/gateway/chat/ChatResponseStreamAssembler.kt:37-44 | a first `started` puts the response in progress, with nothing received |
| ResponseAssembler.StartedShows | android/core/chat/src/main/kotlin/fr/mina/gateway/chat/ChatResponseStreamAssembler.kt:37-44 | a first `started` shows an empty response at the end of the list; a repeated one changes nothing |
| ResponseAssembler.TerminalEnds | android/core/chat/src/main/kotlin/fr/mina/gateway/chat/ChatResponseStreamAssembler.kt:82-87 | a completed or failed frame of the same source takes the response off the list, which otherwise keeps its order; one of another source changes nothing |
| ResponseAssembler.EndedUntilStartedAgain | android/core/chat/src/main/kotlin/fr/mina/gateway/chat/ChatResponseStreamAssembler.kt:28-106 | over a run: the response is shown from its start until its terminal, and after that no frames bring it back except a new start |
| ResponseAssembler.ChunkEndsExactlyWhen | android/core/chat/src/main/kotlin/fr/mina/gateway/chat/ChatResponseStreamAssembler.kt:46-80 | a chunk ends its response if and only if it is of the right source, new, and exceeds 32,768 bytes with what is held; a chunk that is not new changes nothing |
| ResponseAssembler.AnswerIsCurrent | android/core/chat/src/main/kotlin/fr/mina/gateway/chat/ChatResponseStreamAssembler.kt:28-106 | the answer to every frame is the response as it then stands, or nothing when it does not |
| ResponseAssembler.Assembler.AcceptFrame | android/core/chat/src/main/kotlin/fr/mina/gateway/chat/ChatResponseStreamAssembler.kt:28-35 | the object computes the specification `Accept`: its map, its published list and its answer |
| ResponseAssembler.Assembler.AcceptChunkFrame | android/core/chat/src/main/kotlin/fr/mina/gateway/chat/ChatResponseStreamAssembler.kt:46-80 | the chunk branch with its drain loop computes the specification |
| Ingest.RepeatsChangeNothing | android/core/chat/src/main/kotlin/fr/mina/gateway/chat/ChatRepository.kt:269-281 | any sequence of deliveries leaves the tables and the streamed answers as only the first copy of each would |
| Ingest.FirstDeliveryStays | android/core/chat/src/main/kotlin/fr/mina/gateway/chat/ChatRepository.kt:269-281 | the row of an event is that of its first delivery at every later moment; it is shown as streaming exactly while it is part of an answer other than a completion |
| Ingest.OnlyNewAnswersAreFed | android/core/chat/src/main/kotlin/fr/mina/gateway/chat/ChatRepository.kt:269-281 | the answers change exactly by the frame of a new answer event of the assistant |
| Ingest.AnswerSurvivesRedelivery | android/core/chat/src/main/kotlin/fr/mina/gateway/chat/ChatRepository.kt:269-281 | end to end: events in any order, any number of times, give the full answer once every chunk has arrived |
| Ingest.Repository.Ingest | android/core/chat/src/main/kotlin/fr/mina/gateway/chat/ChatRepository.kt:269-281 | state chosen by frame type; the frame is fed to the assembler only when the row was really inserted |
| ResponseStream.ClosedExactlyOnce | android/core/chat/src/main/kotlin/fr/mina/gateway/chat/FirebaseResponseStream.kt:88-151 | every interleaving of watches, stops, stop-alls and error callbacks: a listener is closed at most once, only if cancelled, exactly once when both sides are done; once inactive never active again |
| ResponseStream.CancelTakesOnlyItsOwn | android/core/chat/src/main/kotlin/fr/mina/gateway/chat/FirebaseResponseStream.kt:134-139 | in every state: an error callback takes its own attempt out of the map, if it is there, and touches no other |
| ResponseStream.NoListenerIsLeaked | android/core/chat/src/main/kotlin/fr/mina/gateway/chat/FirebaseResponseStream.kt:88-151 | if watches of one response do not overlap: at rest the open listeners are exactly the attempts in the map |
| ResponseStream.StartIsSound | android/core/chat/src/main/kotlin/fr/mina/gateway/chat/FirebaseResponseStream.kt:85-86 | a new stream satisfies every invariant the runs start from |
| ResponseStream.LostExactlyByOverlap | android/core/chat/src/main/kotlin/fr/mina/gateway/chat/FirebaseResponseStream.kt:99-101 | an attempt becomes unreachable if and only if another watch of its response registers over it |
| ResponseStream.LostForGood | android/core/chat/src/main/kotlin/fr/mina/gateway/chat/FirebaseResponseStream.kt:99-101 | and then its listener is never closed |
| ResponseStream.OverlapFromStart | android/core/chat/src/main/kotlin/fr/mina/gateway/chat/FirebaseResponseStream.kt:88-120 | a run from a new stream in which that happens |
| ResponseStream.FirebaseResponseStream.OnFrame | android/core/chat/src/main/kotlin/fr/mina/gateway/chat/FirebaseResponseStream.kt:102-110 | a frame is delivered exactly when its attempt is active, it is newer than the cursor, within every limit of the decoder, and decodes to a live stream event |
| ResponseStream.FirebaseResponseStream.WatchFrames | android/core/chat/src/main/kotlin/fr/mina/gateway/chat/FirebaseResponseStream.kt:88-120 | which arguments are refused, each by its name; afterwards the attempt is attached and active, or closed once, or failed without a listener, and the previous attempt is cancelled |
| ResponseStream.FirebaseResponseStream.StopAll | android/core/chat/src/main/kotlin/fr/mina/gateway/chat/FirebaseResponseStream.kt:127-132 | every attempt in the map is cancelled and its listener closed this once; all others are untouched |
| ResponseStream.FirebaseResponseStream.CancelAttempt | android/core/chat/src/main/kotlin/fr/mina/gateway/chat/FirebaseResponseStream.kt:134-139 | an error callback cancels only its own attempt, never its replacement |
| StreamController.FirebaseResponseStreamController.AcceptTerminal | android/core/chat/src/main/kotlin/fr/mina/gateway/chat/FirebaseResponseStream.kt:222-224 | the end of the current answer to a request closes its stream; the end of an older one changes nothing |
| StreamController.FirebaseResponseStreamController.SessionResolved | android/core/chat/src/main/kotlin/fr/mina/gateway/chat/FirebaseResponseStream.kt:209-221 | a late session opens a stream exactly for this device, a response still active and well-formed arguments |
| StreamRuns.OnlyLateWatchesOutlive | android/core/chat/src/main/kotlin/fr/mina/gateway/chat/FirebaseResponseStream.kt:205-232 | every run from a new controller whose watches of one response do not overlap: at rest, a listener is open for a response that is not active if and only if it registered after the removal of its response and the stop that followed had both fallen between its check and its registration (and the response was neither restarted nor stopped since) |
| StreamRuns.OutlivesExactlyWhenLate | android/core/chat/src/main/kotlin/fr/mina/gateway/chat/FirebaseResponseStream.kt:205-232 | the same for every run, overlapping watches included, whose lost attempts are then the only other case |
| StreamRuns.OrphanExactlyByLateWatch | android/core/chat/src/main/kotlin/fr/mina/gateway/chat/FirebaseResponseStream.kt:211-224 | step by step: an attempt is left in the map for an ended response, with no stop to come, exactly by such a registration |
| StreamRuns.EndBetweenCheckAndWatch | android/core/chat/src/main/kotlin/fr/mina/gateway/chat/FirebaseResponseStream.kt:211-224 | a run from a new controller, check included, that ends at rest with such a listener |
| StreamRuns.StartIsSound | android/core/chat/src/main/kotlin/fr/mina/gateway/chat/FirebaseResponseStream.kt:203 | a new controller satisfies every invariant the runs start from |
| StreamRuns.OnlyTheLatestStartEnds | android/core/chat/src/main/kotlin/fr/mina/gateway/chat/FirebaseResponseStream.kt:205-224 | after a start, only the end of that attempt at the response counts |
| History.QueryIsSlice | android/core/chat/src/main/kotlin/fr/mina/gateway/chat/ChatDatabase.kt:68-102 | any rows meeting the SQL contract are the newest `limit` messages older than the cursor, newest first |
| History.HistoryHolds | android/core/chat/src/main/kotlin/fr/mina/gateway/chat/ChatDatabase.kt:68-102 | a thread shows exactly its rows that are no stream chunk and no answer still streaming, by date and then by identifier |
| History.ObserveThreadPage | android/core/chat/src/main/kotlin/fr/mina/gateway/chat/ChatRepository.kt:305-313 | the newest page is the last `pageSize` messages, `hasOlder` exactly when there are more; other sizes are refused |
| History.LoadOlderPage | android/core/chat/src/main/kotlin/fr/mina/gateway/chat/ChatRepository.kt:315-332 | the page before a message, with exact `hasOlder`; a cursor of another thread and a bad size are refused, each by its name |
| History.PagingIsComplete | android/core/chat/src/main/kotlin/fr/mina/gateway/chat/ChatRepository.kt:305-332 | following `hasOlder` from the newest page while newer messages arrive visits every message once, in order, and stops after exactly (n-1)/size loads |
| HistoryWindow.RunShowsHistory | android/feature/chat/src/main/kotlin/fr/mina/gateway/feature/chat/ChatHistoryWindow.kt:35-91 | over any run of new, late and older pages on a thread growing at its newest end, the window is a contiguous, duplicate-free, ordered slice of at most maxItems messages, and `hasOlder` implies an older message |
| HistoryWindow.AcceptKeepsSlice | android/feature/chat/src/main/kotlin/fr/mina/gateway/feature/chat/ChatHistoryWindow.kt:35-56 | accepting a newest page keeps the slice; an exact `hasOlder` stays exact if and only if it is not the case that a message is evicted while the flag to carry is false |
| HistoryWindow.AcceptShowsNewest | android/feature/chat/src/main/kotlin/fr/mina/gateway/feature/chat/ChatHistoryWindow.kt:35-56 | after a page that holds the newest message shown, the window is the last maxItems messages up to the newest of the page, from the lower of the two starts on, whatever `hasOlder` says; other pages change nothing; every flag |
| HistoryWindow.LoadKeepsSlice | android/feature/chat/src/main/kotlin/fr/mina/gateway/feature/chat/ChatHistoryWindow.kt:58-80 | loading an older page puts it before the messages shown, up to maxItems from its oldest on: the window is that slice of the history, starts earlier, and its `hasOlder` is exact |
| HistoryWindow.EvictionForgetsOlder | android/feature/chat/src/main/kotlin/fr/mina/gateway/feature/chat/ChatHistoryWindow.kt:48-55 | for every page size from two up to maxItems: following a thread until it exceeds the window by one drops the oldest message and still claims that there is nothing older |
| HistoryWindow.IgnoredExactlyWhen | android/feature/chat/src/main/kotlin/fr/mina/gateway/feature/chat/ChatHistoryWindow.kt:45-46 | a page is ignored exactly when the newest message shown does not lie on it |
| HistoryWindow.ChatHistoryWindow.PrependAndBound | android/feature/chat/src/main/kotlin/fr/mina/gateway/feature/chat/ChatHistoryWindow.kt:82-91 | first occurrences only, up to maxItems |
| HistoryWindow.BoundedOutcome | android/feature/chat/src/main/kotlin/fr/mina/gateway/feature/chat/ChatHistoryWindow.kt:82-91 | whatever the lists share: none is kept twice, at most maxItems, none left out while there is room, in their order |
| HistoryWindow.ChatHistoryWindow.Load | android/feature/chat/src/main/kotlin/fr/mina/gateway/feature/chat/ChatHistoryWindow.kt:58-80 | asks only when there is something older; a failing page leaves the window as it was |
| MonotonicUlid.RunIncreasesExactlyWhen | android/core/protocol/src/main/kotlin/fr/mina/gateway/protocol/MonotonicUlid.kt:27-40 | under any clock and any random bytes, times below 32^10: the identifiers issued strictly increase if and only if no exhausted generator is used again before its clock has moved on |
| MonotonicUlid.RunIncreasesUntilExhaustion | android/core/protocol/src/main/kotlin/fr/mina/gateway/protocol/MonotonicUlid.kt:27-40 | in particular they increase until the first exhaustion |
| MonotonicUlid.ExhaustionGoesBackwards | android/core/protocol/src/main/kotlin/fr/mina/gateway/protocol/MonotonicUlid.kt:42-53 | a retry in the same millisecond after exhaustion issues a smaller identifier |
| MonotonicUlid.IdOrder | android/core/protocol/src/main/kotlin/fr/mina/gateway/protocol/MonotonicUlid.kt:62-85 | two 26-character texts are ordered exactly as their (time, random) pairs |
| MonotonicUlid.CrockfordOrder | android/core/protocol/src/main/kotlin/fr/mina/gateway/protocol/MonotonicUlid.kt:62-70 | equal-length base-32 numerals are ordered lexicographically exactly as their numbers |
| MonotonicUlid.IncrementAddsOne | android/core/protocol/src/main/kotlin/fr/mina/gateway/protocol/MonotonicUlid.kt:42-53 | the increment adds one to the big-endian value, fails exactly at the maximum, and then leaves zero |
| MonotonicUlid.IncrementBigEndian | android/core/protocol/src/main/kotlin/fr/mina/gateway/protocol/MonotonicUlid.kt:42-53 | the in-place loop computes that increment |
| MonotonicUlid.EncodeTime | android/core/protocol/src/main/kotlin/fr/mina/gateway/protocol/MonotonicUlid.kt:62-70 | the character loop writes the ten-digit numeral of the time |
| MonotonicUlid.EncodeRandom | android/core/protocol/src/main/kotlin/fr/mina/gateway/protocol/MonotonicUlid.kt:72-85 | the bit-regrouping loop writes the sixteen-digit numeral of the 80-bit value |
| MonotonicUlid.DecodeTime | android/core/protocol/src/main/kotlin/fr/mina/gateway/protocol/MonotonicUlid.kt:87-95 | fails exactly on a character outside the alphabet among the first ten, and gives back the time of every identifier |
| MonotonicUlid.DigitIsIndex | android/core/protocol/src/main/kotlin/fr/mina/gateway/protocol/MonotonicUlid.kt:55-60 | the digit of a character is its index in the Crockford alphabet |
| MonotonicUlid.Ulid.NextId | android/core/protocol/src/main/kotlin/fr/mina/gateway/protocol/MonotonicUlid.kt:27-40 | the object computes the specification `Next`, errors included |
| MonotonicUlid.CallIssues | android/core/protocol/src/main/kotlin/fr/mina/gateway/protocol/MonotonicUlid.kt:27-40 | a new millisecond keeps the ten drawn bytes (cut, or filled with zeros) and issues time and bytes; an old one issues the next number at the last time until the 80 bits are used up; a negative clock is refused |
| MonotonicUlid.FreshIdentifiersTellDraws | android/core/protocol/src/main/kotlin/fr/mina/gateway/protocol/MonotonicUlid.kt:27-40 | two identifiers of new milliseconds are equal if and only if the times and all ten drawn bytes are |
| Framing.HeaderInjective | android/core/protocol/src/main/kotlin/fr/mina/gateway/protocol/ChatBinaryCodec.kt:46-59 | equal header bytes if and only if equal header fields |
| Framing.SignatureInputInjective | android/core/protocol/src/main/kotlin/fr/mina/gateway/protocol/ChatBinaryCodec.kt:65-75 | with canonical Base64 (section 3.5 of RFC 4648): equal signature inputs if and only if equal header fields, nonce, ciphertext and tag, as texts |
| Framing.EncodeHeader | android/core/protocol/src/main/kotlin/fr/mina/gateway/protocol/ChatBinaryCodec.kt:46-59 | the output buffer ends up as the specified header bytes |
| Framing.EncodeSignatureInput | android/core/protocol/src/main/kotlin/fr/mina/gateway/protocol/ChatBinaryCodec.kt:65-75 | the same for the signature input, or the decoding error |
| Framing.SignatureInWriteOrder | android/core/protocol/src/main/kotlin/fr/mina/gateway/protocol/ChatBinaryCodec.kt:65-75 | the signed bytes in order: fixed text, then header, nonce, ciphertext and tag, each after its length |
| Framing.IntegersAreBigEndian | android/core/protocol/src/main/kotlin/fr/mina/gateway/protocol/ChatBinaryCodec.kt:21-28 | numbers and lengths go out most significant byte first, in two, four and eight bytes, negative ones in two's complement |
| Framing.VersionWraps | android/core/protocol/src/main/kotlin/fr/mina/gateway/protocol/ChatBinaryCodec.kt:21-22 | without the version bound the header is not injective: 2 and 65538 write the same bytes |
| Framing.FramedInjective | android/core/protocol/src/main/kotlin/fr/mina/gateway/protocol/EnvelopeCodec.kt:62-65 | the decimal `len:text|` framing is injective on all field lists |
| Framing.FramedFormat | android/core/protocol/src/main/kotlin/fr/mina/gateway/protocol/EnvelopeCodec.kt:62-65 | each further field adds its UTF-8 size in decimal, a colon and its text, after a bar unless it is the first |
| Framing.EnvelopeFieldOrder | android/core/protocol/src/main/kotlin/fr/mina/gateway/protocol/EnvelopeCodec.kt:47-60 | which envelope field stands where |
| Framing.SigningBytesInjective | android/core/protocol/src/main/kotlin/fr/mina/gateway/protocol/EnvelopeCodec.kt:47-71 | two envelopes sign the same bytes if and only if every signed field agrees, an absent expiry counting as the empty text |
| PayloadCodec.DecodesExactlyWhatIsWritten | android/core/protocol/src/main/kotlin/fr/mina/gateway/protocol/ChatPayloadCodec.kt:45-82 | a byte string decodes to a version-2 payload if and only if it is that payload's encoding |
| PayloadCodec.EncodeV2 | android/core/protocol/src/main/kotlin/fr/mina/gateway/protocol/ChatPayloadCodec.kt:45-59 | which payloads are accepted and the bytes they become |
| PayloadCodec.Decode | android/core/protocol/src/main/kotlin/fr/mina/gateway/protocol/ChatPayloadCodec.kt:61-82 | the cursor-moving decoder computes the specified meaning, errors included |
| PayloadCodec.TextExactlyWhen | android/core/protocol/src/main/kotlin/fr/mina/gateway/protocol/ChatPayloadCodec.kt:61-82 | a payload is bare text if and only if it is empty or its first byte is not zero; otherwise it is an error unless it is a version-2 encoding |
| Media.ParseReadsWhatIsEncoded | android/core/protocol/src/main/kotlin/fr/mina/gateway/protocol/MediaChunker.kt:43-80 | sender and receiver agree: metadata passes the sender's checks if and only if the receiver reads it back unchanged |
| Media.SenderAcceptsExactlyWhen | android/core/protocol/src/main/kotlin/fr/mina/gateway/protocol/MediaChunker.kt:43-80 | which metadata the sender lets through, in numbers, and under which event type |
| Media.ReceiverAcceptsExactlyWhen | android/core/protocol/src/main/kotlin/fr/mina/gateway/protocol/MediaAssembler.kt:26-49 | of any object, whoever wrote it: it is read as this metadata if and only if it says so and lies within the same limits |
| Media.ExtraIsPutLast | android/core/protocol/src/main/kotlin/fr/mina/gateway/protocol/MediaChunker.kt:68-77 | extra metadata is added, and replaces a known entry of the same name |
| Media.MinaTypes | android/core/protocol/src/main/kotlin/fr/mina/gateway/protocol/MediaChunker.kt:18-24 | which types are accepted, as attachment or as voice note, and which one is raw PCM |
| Media.LimitsNeverReject | android/core/protocol/src/main/kotlin/fr/mina/gateway/protocol/MediaChunker.kt:96-129 | for every accepted type and length, neither the size, theoretical-size nor 4,096-chunk limit rejects |
| Media.MinaSupports | android/core/protocol/src/main/kotlin/fr/mina/gateway/protocol/ChatPayloadCodec.kt:17-33 | the real tables of types meet what every result about media assumes of them |
| Media.Chunk | android/core/protocol/src/main/kotlin/fr/mina/gateway/protocol/MediaChunker.kt:96-123 | every accepted medium is cut into its slices and announced; nothing else is accepted |
| Media.Assemble | android/core/protocol/src/main/kotlin/fr/mina/gateway/protocol/MediaAssembler.kt:55-67 | succeeds exactly when every chunk is there with its size and the digest agrees, and gives their concatenation |
| Media.JoinedSlices | android/core/protocol/src/main/kotlin/fr/mina/gateway/protocol/MediaAssembler.kt:55-67 | the slices of a medium concatenate to the medium |
| MediaThread.SentMediaReadsBack | android/core/chat/src/main/kotlin/fr/mina/gateway/chat/ChatRepository.kt:454-474 | among any other rows, in any order and with repeats, the rows of a sent medium read back as its bytes and type |
| MediaThread.SendThenRead | android/core/chat/src/main/kotlin/fr/mina/gateway/chat/ChatRepository.kt:130-140 | `sendMedia` then `readMediaBytes` gives the medium back |
| MediaThread.EachMediumReadsBack | android/core/chat/src/main/kotlin/fr/mina/gateway/chat/ChatRepository.kt:454-474 | any number of media in one thread, their rows mixed in any order: each reads back as itself |
| MediaThread.LastMetaCounts | android/core/chat/src/main/kotlin/fr/mina/gateway/chat/ChatRepository.kt:454-474 | of several metadata rows the last one counts, valid or not |
| MediaThread.LastChunkCounts | android/core/chat/src/main/kotlin/fr/mina/gateway/chat/ChatRepository.kt:454-474 | of several rows for one chunk the last one counts |
| MediaThread.UnindexedChunkIsIgnored | android/core/chat/src/main/kotlin/fr/mina/gateway/chat/ChatRepository.kt:454-474 | a chunk row without an index changes nothing |
| MediaThread.NamesItsMedium | android/core/chat/src/main/kotlin/fr/mina/gateway/chat/ChatRepository.kt:454-474 | a row belongs to the medium it names, by text or by a number that prints as it |
| MediaThread.ReadIsAnnounced | android/core/chat/src/main/kotlin/fr/mina/gateway/chat/ChatRepository.kt:454-474 | whatever is returned has the digest, size and type of a metadata row of that medium; otherwise nothing |
| MediaThread.ReadMediaBytes | android/core/chat/src/main/kotlin/fr/mina/gateway/chat/ChatRepository.kt:454-474 | the collecting loop and the assembly compute the specification `Read` |
| MediaThread.Thread.SendMedia | android/core/chat/src/main/kotlin/fr/mina/gateway/chat/ChatRepository.kt:130-140 | either every row is written, metadata first, within the outbox bound, or none is; a peer without media and a full outbox refuse by name |
| Recorder.EveryResourceOnce | android/feature/voice/src/main/kotlin/fr/mina/gateway/feature/voice/VoiceNoteRecorder.kt:91-302 | every interleaving of starts, worker, stop, cancel and focus loss: a session that is over has completed or discarded its sink exactly once, one result, its recorder released once if it had one, and the focus abandoned as often as requested; once taken, a capture receives nothing more |
| Recorder.StartIsSound | android/feature/voice/src/main/kotlin/fr/mina/gateway/feature/voice/VoiceNoteRecorder.kt:76-83 | a new recorder satisfies every invariant the runs start from |
| Recorder.AppendsOnlyWhileLive | android/feature/voice/src/main/kotlin/fr/mina/gateway/feature/voice/VoiceNoteRecorder.kt:210-221 | bytes are appended only by the worker of the session that is active |
| Recorder.StepTouchesItsOwn | android/feature/voice/src/main/kotlin/fr/mina/gateway/feature/voice/VoiceNoteRecorder.kt:91-302 | no step of a start, a worker or a teardown changes another session or ends it; only the focus given back can be another's |
| Recorder.TakeOutcome | android/feature/voice/src/main/kotlin/fr/mina/gateway/feature/voice/VoiceNoteRecorder.kt:151-156 | stop, cancel and a focus loss take exactly the active session, to complete or to discard it |
| Recorder.FocusIsFreedOnce | android/feature/voice/src/main/kotlin/fr/mina/gateway/feature/voice/VoiceNoteRecorder.kt:377-397 | if starts wait for earlier teardowns, the system gets each focus request back exactly once |
| Recorder.StuckExactlyByOverlap | android/feature/voice/src/main/kotlin/fr/mina/gateway/feature/voice/VoiceNoteRecorder.kt:377-397 | a focus request can no longer be given back if and only if another start asks while it is remembered |
| Recorder.StuckForGood | android/feature/voice/src/main/kotlin/fr/mina/gateway/feature/voice/VoiceNoteRecorder.kt:377-397 | and then it never is |
| Recorder.TeardownStealsFocus | android/feature/voice/src/main/kotlin/fr/mina/gateway/feature/voice/VoiceNoteRecorder.kt:253-257 | a start during a teardown loses its own focus to that teardown |
| Recorder.FocusIsStolenFromStart | android/feature/voice/src/main/kotlin/fr/mina/gateway/feature/voice/VoiceNoteRecorder.kt:377-397 | a run from a new recorder in which that happens |
| Recorder.StaleExactlyWhen | android/feature/voice/src/main/kotlin/fr/mina/gateway/feature/voice/VoiceNoteRecorder.kt:315-319 | the published state says "recording" for a dead session exactly when the session ended before its start announced it |
| Recorder.LossBeforeAnnouncement | android/feature/voice/src/main/kotlin/fr/mina/gateway/feature/voice/VoiceNoteRecorder.kt:138-148 | a focus loss right after activation does that |
| Recorder.StaleFromStart | android/feature/voice/src/main/kotlin/fr/mina/gateway/feature/voice/VoiceNoteRecorder.kt:138-148 | a run from a new recorder in which it does |
| VoiceRecorder.VoiceNoteRecorder.Start | android/feature/voice/src/main/kotlin/fr/mina/gateway/feature/voice/VoiceNoteRecorder.kt:91-148 | recording exactly when nothing else is active or opening, every answer is yes and the focus is lost neither before nor after the check; otherwise the session is over and its sink discarded, with the reason |
| VoiceRecorder.VoiceNoteRecorder.Stop | android/feature/voice/src/main/kotlin/fr/mina/gateway/feature/voice/VoiceNoteRecorder.kt:151 | ends the active session; its sink completes exactly when long enough, not empty and finalized |
| VoiceRecorder.VoiceNoteRecorder.Finish | android/feature/voice/src/main/kotlin/fr/mina/gateway/feature/voice/VoiceNoteRecorder.kt:228-257 | `complete` and `discard`: afterwards every resource is given back |
| VoiceRecorder.VoiceNoteRecorder.CaptureInto | android/feature/voice/src/main/kotlin/fr/mina/gateway/feature/voice/VoiceNoteRecorder.kt:187-226 | one turn of the worker goes on exactly when its session is live, fed and below its limits; if it stops a live session, that session is over, completed at a limit or discarded on a failure |
| VoiceRecorder.VoiceNoteRecorder.OnAudioFocusLoss | android/feature/voice/src/main/kotlin/fr/mina/gateway/feature/voice/VoiceNoteRecorder.kt:259-269 | a loss during opening is remembered; otherwise the active session is over and discarded |
| VoiceRecorder.VoiceNoteRecorder.Cancel | android/feature/voice/src/main/kotlin/fr/mina/gateway/feature/voice/VoiceNoteRecorder.kt:154-156 | the active session, if any, is over and discarded |
| MidiTrack.BuiltTrackReadsBack | skills-reference/pianiste-volonte-lumiere/scripts/write_piano_midi.py:101-152 | by the Standard MIDI Files 1.0 delta-time rules the built track reads back as its events in their one stable order at their absolute ticks, then one end of track one tick after the last; exactly when no distance exceeds four bytes, else it cannot be read |
| MidiTrack.TrackPlaysTheSong | skills-reference/pianiste-volonte-lumiere/scripts/write_piano_midi.py:81-152 | what a reader finds in any readable track is exactly what the song asks for: title, nearest tempo, signature, program, each note struck with its velocity and released, each pedal pressed to its value and lifted, at their ticks; in order of ticks and within one set-up, pedal, releases, strikes; then the end one tick later |
| MidiTrack.AcceptedExactlyWhen | skills-reference/pianiste-volonte-lumiere/scripts/write_piano_midi.py:81-140 | which songs pass every check, in numbers |
| MidiTrack.LongSongCannotBeRead | skills-reference/pianiste-volonte-lumiere/scripts/write_piano_midi.py:144-152 | a performance that ends later than its number of events times 0x0FFFFFFF is written and cannot be read |
| MidiTrack.LateNoteCannotBeRead | skills-reference/pianiste-volonte-lumiere/scripts/write_piano_midi.py:144-152 | a concrete one: a single accepted note that begins late |
| MidiTrack.NoKeyIsReleasedUnstruck | skills-reference/pianiste-volonte-lumiere/scripts/write_piano_midi.py:101-152 | in every prefix each pitch has at least as many note-ons as note-offs, with equality at the end |
| MidiTrack.StableSortIsUnique | skills-reference/pianiste-volonte-lumiere/scripts/write_piano_midi.py:143 | sorted by (tick, priority) with equal keys in their order: there is only one such list |
| MidiTrack.SortIsStable | skills-reference/pianiste-volonte-lumiere/scripts/write_piano_midi.py:143 | the sort keeps the order of equal keys |
| MidiTrack.BuildTrack | skills-reference/pianiste-volonte-lumiere/scripts/write_piano_midi.py:81-152 | fails exactly with the first complaint in reading order; otherwise gives the specified track |
| MidiTrack.FirstBadNoteIsNamed | skills-reference/pianiste-volonte-lumiere/scripts/write_piano_midi.py:114-127 | the complaint about the notes names the first bad one |
| MidiTrack.Render | skills-reference/pianiste-volonte-lumiere/scripts/write_piano_midi.py:144-152 | the writing loop computes delta times, messages and the end of track |
| MidiTrack.TempoFits | skills-reference/pianiste-volonte-lumiere/scripts/write_piano_midi.py:100-103 | the microseconds of a beat are the integer nearest to 60,000,000 / tempo, the even one at a tie, and fit three bytes for any accepted tempo |
| MidiTrack.DenominatorIsPower | skills-reference/pianiste-volonte-lumiere/scripts/write_piano_midi.py:96-97 | the power written for each accepted denominator is its base-2 logarithm |
| Midi.TrackReadsBack | skills-reference/pianiste-volonte-lumiere/scripts/write_piano_midi.py:144-152 | the same for any writable event list |
| Midi.VlqReadsBack | skills-reference/pianiste-volonte-lumiere/scripts/write_piano_midi.py:30-39 | a quantity reads back if and only if it is at most 0x0FFFFFFF, which is when it takes at most four bytes |
| Midi.Vlq | skills-reference/pianiste-volonte-lumiere/scripts/write_piano_midi.py:30-39 | the prepending loop computes the variable-length quantity; negative values are refused |
| Midi.MessageReadsBack | skills-reference/pianiste-volonte-lumiere/scripts/write_piano_midi.py:77-78 | a message reads back if and only if its length can be told |
| Multiplexer.RunConserves | android/core/transport/src/main/kotlin/fr/mina/gateway/transport/TransportMultiplexer.kt:28-83 | every run: queued identifiers are distinct and not delivered, capacities hold, no identifier has two receipts, and what each queue accepted is, in order, what left it (delivered, cancelled or failed) followed by what is in it |
| Multiplexer.DrainDeliversExactlyWhen | android/core/transport/src/main/kotlin/fr/mina/gateway/transport/TransportMultiplexer.kt:60-83 | a drain delivers exactly when some healthy endpoint gives a good receipt; the endpoints tried before it are unhealthy, all others unchanged |
| Multiplexer.DrainsFrom | android/core/transport/src/main/kotlin/fr/mina/gateway/transport/TransportMultiplexer.kt:62-65 | a queue is drained from exactly when its head is live and no earlier queue has a live head, so a cancelled head lets a lower queue pass |
| Multiplexer.MarkedIsNotDelivered | android/core/transport/src/main/kotlin/fr/mina/gateway/transport/TransportMultiplexer.kt:62-65 | no drain delivers an envelope that was cancelled while queued |
| Multiplexer.CanceledIsNeverDelivered | android/core/transport/src/main/kotlin/fr/mina/gateway/transport/TransportMultiplexer.kt:48-83 | an envelope cancelled while queued is delivered in no continuation, unless it is handed in anew |
| Multiplexer.CancelMarks | android/core/transport/src/main/kotlin/fr/mina/gateway/transport/TransportMultiplexer.kt:48-58 | cancelling answers whether the envelope is queued, and then it is marked |
| Multiplexer.DrainKeeps | android/core/transport/src/main/kotlin/fr/mina/gateway/transport/TransportMultiplexer.kt:60-83 | one drain keeps all of this, and a receipt it returns is a first one |
| Multiplexer.TransportMultiplexer.DrainOne | android/core/transport/src/main/kotlin/fr/mina/gateway/transport/TransportMultiplexer.kt:60-83 | the failover loop computes the specification `Drain` |
| Multiplexer.DrainOutcome | android/core/transport/src/main/kotlin/fr/mina/gateway/transport/TransportMultiplexer.kt:60-83 | queue by queue: a queue the drain comes to loses its head, the live one is the envelope tried, and it is gone whether delivered or not; the answer, the receipts and the errors |
| Multiplexer.TransportMultiplexer.EnqueueEnvelope | android/core/transport/src/main/kotlin/fr/mina/gateway/transport/TransportMultiplexer.kt:38-46 | accepted, refused as known, or backpressure |
| Multiplexer.EnqueueOutcome | android/core/transport/src/main/kotlin/fr/mina/gateway/transport/TransportMultiplexer.kt:38-46 | taken in, last in its queue, exactly when well named, neither delivered nor queued anywhere, and with room; otherwise nothing changes |
| Multiplexer.TransportMultiplexer.CancelEnvelope | android/core/transport/src/main/kotlin/fr/mina/gateway/transport/TransportMultiplexer.kt:48-58 | marks the item wherever it is queued |
| Multiplexer.CancelOutcome | android/core/transport/src/main/kotlin/fr/mina/gateway/transport/TransportMultiplexer.kt:48-58 | exactly the queued items of that name are marked, and nothing moves |
| Multiplexer.TransportMultiplexer.ConnectEndpoint | android/core/transport/src/main/kotlin/fr/mina/gateway/transport/TransportMultiplexer.kt:28-36 | which endpoints are accepted, and under which identity |
| Multiplexer.ConnectOutcome | android/core/transport/src/main/kotlin/fr/mina/gateway/transport/TransportMultiplexer.kt:28-36 | accepted exactly when verified, well named and of the device already connected, if any; then healthy |
| Multiplexer.IdentityStays | android/core/transport/src/main/kotlin/fr/mina/gateway/transport/TransportMultiplexer.kt:28-83 | once a device is connected, no run connects another |
| Telegram.IntakeLosesNothing | android/app/src/main/kotlin/fr/mina/gateway/messaging/TelegramPoller.kt:23-41 | over any run of arrivals, polls failing at any write, repeats and acks: the saved offset never decreases, every owner update below it has its row, and there is exactly one row per stored update |
| Telegram.OneRowPerUpdate | android/app/src/main/kotlin/fr/mina/gateway/messaging/storage/EncryptedMessageRepository.kt:17-29 | the keys of the rows are exactly the indexes of the stored updates, one each |
| Telegram.ProcessNeverGoesBack | android/app/src/main/kotlin/fr/mina/gateway/messaging/TelegramPoller.kt:23-41 | whatever the source returns and wherever a write fails, the offset does not decrease and no row is lost |
| Telegram.MaterialInjective | android/app/src/main/kotlin/fr/mina/gateway/messaging/storage/EncryptedMessageRepository.kt:17-29 | the deduplication material agrees if and only if update, sender, chat and body do |
| Telegram.PassesUnstoredExactlyWhen | android/app/src/main/kotlin/fr/mina/gateway/messaging/TelegramPoller.kt:23-41 | whatever a source returns: some failure makes a poll move the offset past an owner update without storing it if and only if an earlier element that the poll reaches has its identifier and is not the same message, and its row is not there already |
| Telegram.SharedIdentifierLosesUpdate | android/app/src/main/kotlin/fr/mina/gateway/messaging/TelegramPoller.kt:27-38 | two owner updates under one identifier: a failure between them moves the offset past the second |
| Telegram.TelegramPoller.PollOnce | android/app/src/main/kotlin/fr/mina/gateway/messaging/TelegramPoller.kt:23-41 | the loop computes the specification `Process` and answers the number of owner updates in the batch |
| Telegram.PollOutcome | android/app/src/main/kotlin/fr/mina/gateway/messaging/TelegramPoller.kt:23-41 | every poll, wherever a write fails: it deals with the longest part of its batch that the writes allow, up to an update without content; the offset is past the last of these, each owner update has its row, each stranger's start was reported, every new row is explained, and success means all were dealt with |
| Telegram.BatchIsStable | android/app/src/main/kotlin/fr/mina/gateway/messaging/TelegramPoller.kt:26-29 | the batch is every update from the offset on, as often as it came, those of one identifier in their order |
| Telegram.RowSaysTheUpdate | android/app/src/main/kotlin/fr/mina/gateway/messaging/storage/EncryptedMessageRepository.kt:17-29 | what the row of an update says: channel, direction, sender, text or voice, date |
| Telegram.TelegramPoller.StoreInbound | android/app/src/main/kotlin/fr/mina/gateway/messaging/storage/EncryptedMessageRepository.kt:77-104 | insert or ignore under the blind index |
| Telegram.TelegramPoller.Acknowledge | android/app/src/main/kotlin/fr/mina/gateway/messaging/storage/EncryptedMessageRepository.kt:71-75 | only waiting rows change, and their number is returned |
| Telegram.AcknowledgeOutcome | android/app/src/main/kotlin/fr/mina/gateway/messaging/storage/EncryptedMessageRepository.kt:71-75 | a row changes exactly when it waits and is named, and then only its state |

## Left out

- Media.EncodeMeta: the metadata JSON text itself; objects are maps and their printer is abstract.
- PayloadCodec.DecodesExactlyWhatIsWritten: the metadata stays bytes; the source then decodes them leniently, so two byte strings of which one is malformed UTF-8 can become the same text.
- PayloadCodec.Decode: the same lenient conversion of the metadata and of a version-1 text.
- Ingest.Repository.Ingest: decrypting and decoding a frame is an input of a delivery, with the limits that decoding guarantees.
- MediaThread.Thread.SendMedia: a vault that locks, or a table that fails, between two rows of one medium; the vault stays open here.
- VoiceEnqueue.Sender.EnqueueVoice: process death for good; no code of the repository reloads a manifest, so a note whose object is lost is never resumed, and only the safety half applies to it.
- VoiceEnqueue.Sender.SendMissing: an outbox that fills up, or a vault that locks, between two rows is one of the faults.
- ResponseStream.FirebaseResponseStream.OnFrame: Base64, UTF-8 and event decoding are one abstract function.
- ResponseStream.FirebaseResponseStream.WatchFrames: the frames that arrive meanwhile; each is one call of `OnFrame`.
- StreamController.FirebaseResponseStreamController.SessionResolved: interleaving with other callbacks, which `StreamRuns` has.
- MidiTrack.BuildTrack: floating-point rounding of beats and tempo, note names, titles as text, and JSON types; the model starts at ticks, pitches and a real tempo.
- Telegram.TelegramPoller.StoreInbound: SMS rows, outbound commands and the listing of pending rows, which share the same insert-or-ignore.
- Grouping the failed events of one medium for a retry (`failedOutgoingMediaGroup`): the retried group is an input.
- Concurrent use of `ChatHistoryWindow`: its mutex makes each operation atomic.
- `AssistantResponseStream` encoding and field validation: its limits appear as the domain of decoded frames.
- Firestore, RTDB, FCM, OkHttp, WorkManager, AudioRecord and the Android Keystore: only their contracts.
- The user interface, notifications, incoming-call and camera policies, the SMS gateway and the biometric gate: they take part in none of the protocols and formats modelled here.
