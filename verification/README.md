# Verified model of the Backupy agent and its decryption CLI

Dafny 4.11. `dafny verify dfyconfig.toml` checks everything.

Five parts of the system are modelled, each from the code's own branches, constants and
error conditions.

**The backup pipeline** (`Pipeline`, `PipelineInvariant`, `PipelineSteps`, `PipelineProgress`,
`PipelineTheorems`, `PipelineGate`, `PipelineBlame`, `Recovery`). One call of `Run` is a step
system: the dump, the gated compressor, the encryptor and the staging/upload stage, three
synchronous pipes with a write in flight and a once-only close error at each end, the four-slot
result channel and the one-slot dump-info channel. Every statement that another goroutine can
see is its own step, so a run is an arbitrary interleaving; the driver, the compressor (a zstd
error), the encryptor (a nonce that cannot be drawn), staging and upload may each fail by
themselves. Proved: some stage can always move, without a further fault, until all have exited
and `Run` has returned; every step lowers a well-founded rank; exactly which drivers can get
anything uploaded or completed; what is uploaded; and that the CLI, with its hash check, gives
back the dumped bytes.

**The chunked AEAD stream** (`Frames`, `FrameLaws`, `Streams`, `FrameStreams`, `FrameEnds`).
The format is a pair of functions, `Encode` and `Decode`; the agent's encoder and both decoders
are loops over a reader that may cut its bytes anywhere, proved against them. The cipher is a
parameter constrained by sections 7.1 and 7.2 of NIST SP 800-38D: opening inverts sealing, and
the tag adds 16 bytes.

**Message delivery** (`Delivery`, `DeliveryLedger`, `DeliveryInvariant`, `DeliverySteps`,
`DeliveryTheorems`, `DeliveryOrder`, `DeliveryFidelity`, `DeliveryCalls`, `DeliveryReplay`,
`DeliveryBounds`, `DeliveryRestart`, `DeliveryClient`, `Teardown`, `QueueKeys`). Senders, the
on-disk queue, the 64-slot channel, the writer's hand and the wire form a step system in which
connections come and go. `DeliveryClient.Client` has the client's fields; its methods are the
handshake, `Send`, `replayQueue`, `writeLoop` and the disconnect, each proved to be a run of
that system, and `RunOnce` puts a whole connection together, so all that holds of every run
holds of the fields. `DeliveryRestart` is about a new process over the queue of an earlier one,
and `Teardown` about the loops of a connection and how `runOnce` waits for them.

**The store** (`Positional`, `Bucket`, `Sealing`, `LogBuffer`, `JobQueue`, `ConfigSync`).
Buckets are visited in byte order of their keys; big-endian and decimal keys are related to
numeric order through one theory of digit strings.

**Hooks and the Redis driver** (`Rings`, `Hooks`, `RedisSnapshot`).

## Where the code and its comments differ

The model follows the code; each point below is a proved statement or visible in one.

- A dump can fail and still be uploaded: if the driver's own error is the bare value `io.EOF`
  and the gate passes, or the bare `io.ErrUnexpectedEOF` from `pg_dump` with a DEK before five
  bytes were written, the next stage takes it for a normal end. `Run` still returns an error
  (`PipelineTheorems.PartialUploadExactlyWhen`, `PipelineTheorems.FaultFreeOutcome`). The
  repository's drivers wrap their errors, so for them the guarantee holds.
- The error `Run` returns is the first to arrive on the channel, which need not be the dump's
  when it is the dump that failed. A failing driver's own error is what every fault-free run
  returns exactly when no other stage can notice the failure, which takes a bare `io.EOF`; for
  all other failing drivers some run reports another stage
  (`PipelineBlame.BlamesDumpExactlyWhen`).
- Post-hooks are registered after the pre-hook loop, so a failed pre-hook skips them, although
  the comment says they fire on every exit path.
- `HookSet.Run` replaces a missing timeout by the remaining budget, so a hook gets up to 15
  minutes and the five-minute default never applies.
- Each frame is opened on its own with no additional data; the remark that the framing defends
  against reordered frames is not established and not stated.
- `replayQueue` runs before anything reads the channel. With more than 64 envelopes to hold it
  stops until the process shuts down (`DeliveryReplay.OverloadedReplayWedges`), which a client
  that starts with an empty queue can come to (`DeliveryBounds.WedgeReached`).
- Replay goes in byte order of the keys, which is send order exactly where the
  earlier number, padded with zeros to the width of the later, is not above it: "seq-10" goes
  before "seq-9" (`QueueKeys.ReplayOrderExactlyWhen`). Numbers restart at each process start,
  so a new process can overwrite what an earlier one left: it never does exactly when nothing
  was left under a number, counting from 1 (`DeliveryRestart.RestartSafeExactlyWhen`).
- Log timestamps are keyed as unsigned, so negative ones drain after all others.
- The Redis driver reads LASTSAVE before BGSAVE; its comment lists them the other way round. A
  scheduled save that ends in between is mistaken for the requested one
  (`RedisSnapshot.BegunSinceExactlyWhen`).
- The agent holds the last persisted config's version after a restart but an empty snapshot,
  until a config arrives; and a config whose save fails is applied all the same, so store and
  snapshot part (`ConfigSync.AgreementExactlyWhen`).

## Assumptions

- Pipeline: a driver whose write fails returns an error. The HTTP client reads the whole body
  before a 2xx. The compressor is a streaming encoder whose output only grows as it reads and
  that has an inverse; it may read ahead while an earlier block is being written. Its own
  failures may come whenever it is not reading and no write of its is in flight, the encryptor's
  whenever, besides, there is output left to write: a superset of the points where they do.
- Delivery: callers leave Seq zero, reuse no correlation id and use none that starts with
  "seq-"; the queue starts empty, except in `DeliveryRestart`; marshalling, storage and acks
  succeed; fewer than 2^64 numbers are drawn.
- Log buffer: fewer than 2^64 logs are ever buffered.
- Config: the protobuf encoding of a config can be decoded.
- Redis: time does not run backwards, the server makes one save at a time, and a sleep takes at
  least the poll interval.

## Model

| member | source | states |
|---|---|---|
| PipelineProgress.SomeStep | apps/agent/internal/pipeline/runner.go:254-362 | deadlock freedom over every interleaving of stage successes and failures, the stages' own included: in every reachable state short of all stages exited and `Run` returned, some step that is no fault is enabled |
| PipelineProgress.StepDescends | apps/agent/internal/pipeline/runner.go:254-362 | every step of every stage, faults included, lowers one well-founded rank |
| PipelineProgress.NoInfiniteRun | apps/agent/internal/pipeline/runner.go:254-362 | no interleaving goes on for ever |
| PipelineProgress.Finishes | apps/agent/internal/pipeline/runner.go:254-376 | from every reachable state, whatever has failed so far, a run without further faults reaches the end |
| PipelineSteps.StepKeeps | apps/agent/internal/pipeline/runner.go:254-362 | every step of every stage, faults included, keeps the invariant that ties the bytes in each pipe, the close errors, the results sent and the staged body together |
| PipelineSteps.RunKeeps | apps/agent/internal/pipeline/runner.go:254-362 | and so does every run |
| PipelineTheorems.NoPartialUpload | apps/agent/internal/pipeline/runner.go:324-354 | unless the driver's error is one a later stage takes for a normal end, a body staged without error means exactly three nil results are already in the channel and the body is the whole framed, compressed dump; a body that is PUT is that one and comes from a driver that succeeded |
| PipelineTheorems.StagedOrigin | apps/agent/internal/pipeline/runner.go:513-531 | whatever is staged comes from a healthy or a leaky driver, and in the first case all three producers have exited cleanly |
| PipelineTheorems.ReturnValue | apps/agent/internal/pipeline/runner.go:356-380 | `Run` returns BackupCompleted exactly when all four results are nil, and then, for every driver, the object is the whole backup; otherwise it returns the first error to arrive |
| PipelineTheorems.ResultChannelNeverFull | apps/agent/internal/pipeline/runner.go:258-261 | none of the four stages ever blocks sending its result |
| PipelineTheorems.FailedStageFreesNeighbours | apps/agent/internal/pipeline/runner.go:280-322 | a stage that has reported an error, its own or another's, has closed both its neighbouring pipe ends |
| PipelineTheorems.FaultFreeOutcome | apps/agent/internal/pipeline/runner.go:254-380 | a finished run in which neither zstd, the nonce source, staging nor the upload failed by itself has uploaded; it has completed if the driver was healthy, and failed if it was leaky |
| PipelineTheorems.UploadsExactlyWhen | apps/agent/internal/pipeline/runner.go:324-354 | the drivers for which some run uploads are exactly the healthy and the leaky ones |
| PipelineTheorems.PartialUploadExactlyWhen | apps/agent/internal/pipeline/runner.go:263-299 | a failing driver can get something uploaded exactly when it fails in one of the two leaky ways |
| PipelineTheorems.CompletesExactlyWhen | apps/agent/internal/pipeline/runner.go:356-380 | a backup can complete exactly when the driver succeeds and its dump passes the smoke check |
| PipelineGate.PgDumpCompletesExactlyWhen | apps/agent/internal/pipeline/pg_dump.go:134-138 | a pg_dump backup can complete exactly when pg_dump succeeds and the first five bytes are 80, 71, 68, 77, 80 |
| PipelineGate.MysqldumpCompletesExactlyWhen | apps/agent/internal/pipeline/mysqldump.go:140-152 | a mysqldump backup can complete exactly when mysqldump succeeds and its output begins, in any letter case, with one of four banners |
| PipelineGate.BannerAloneCompletes | apps/agent/internal/pipeline/runner.go:464-471 | output of nothing but the banner, shorter than the 32 bytes peeked at, is enough |
| PipelineGate.OthersCompleteExactlyWhen | apps/agent/internal/pipeline/runner.go:453-474 | other drivers' output is not looked at |
| PipelineGate.WrongHeadNeverUploads | apps/agent/internal/pipeline/runner.go:456-471 | a successful dump with a wrong head never reaches the PUT in any run |
| PipelineBlame.BlamesDumpExactlyWhen | apps/agent/internal/pipeline/runner.go:259-261 | of a failing driver, every fault-free run returns the dump's own error exactly when it ends in a bare `io.EOF` after a dump that passes the gate |
| PipelineBlame.BlameElsewhere | apps/agent/internal/pipeline/runner.go:356-365 | for every other failing driver some fault-free run returns the error of another stage, which reported first |
| PipelineBlame.QuietStep | apps/agent/internal/pipeline/runner.go:277-299 | while a failed dump keeps its report back, the others can always move until the compressor has reported the failure |
| PipelineTheorems.GateHolds | apps/agent/internal/pipeline/runner.go:453-474 | what the gate peeks at is a prefix of the dump, so it accepts every dump whose head is good |
| PipelineInvariant.GatePassMonotone | apps/agent/internal/pipeline/runner.go:453-474 | a dump that passes the smoke check so far still passes as it grows |
| PipelineInvariant.GateLooksAtHead | apps/agent/internal/pipeline/runner.go:453-474 | once the bytes it peeks at are in, nothing that follows changes the verdict |
| Recovery.EncryptionValid | apps/agent/internal/pipeline/encrypt.go:98-141 | framing, and the plain copy without a DEK, only ever extend what they have written |
| Recovery.CliRun | apps/backupy-decrypt/internal/decrypt/decrypt.go:154-212 | exactly when each outcome arises on a file read in any fragments: cancellation at one of the loop's looks at the context, a stream error, a decompression error, a failing close, a hash in the token that is not that of exactly the bytes the stream consumed, and otherwise the decrypted bytes, decompressed unless that was to be skipped |
| Recovery.EndToEnd | apps/agent/internal/pipeline/runner.go:254-380 | every completed backup, in any interleaving, is restored to exactly the dumped bytes by the CLI given the hash of the object, or by decompression alone when there was no DEK |
| Recovery.EncryptedRestores | apps/backupy-decrypt/internal/decrypt/decrypt.go:154-212 | the CLI undoes compression and framing, and the hash it computes is that of the whole object |
| Recovery.RestoreObject | apps/backupy-decrypt/internal/decrypt/decrypt.go:205-209 | the CLI run on an object with anything behind it: with the object's own hash, or none, the dump comes back; with any other hash the outcome is a mismatch |
| Recovery.FailedDumpUploadsExactlyWhen | apps/agent/internal/pipeline/runner.go:263-299 | a failing dump can get uploaded exactly on a bare `io.EOF` after a passing gate, or on a bare `io.ErrUnexpectedEOF` of pg_dump with a DEK and fewer than five bytes |
| Recovery.TruncatedDownloadRefused | apps/backupy-decrypt/internal/decrypt/decrypt.go:188-192 | no strict prefix of an object is ever restored |
| Frames.DecodeComplete | apps/agent/internal/pipeline/encrypt.go:145-181 | decoding a sequence of good frames and the marker yields their plaintext and leaves what follows unread |
| Frames.DecodeSound | apps/agent/internal/pipeline/encrypt.go:145-181 | nothing else decodes cleanly: a clean decode exhibits the frames it consumed |
| Frames.U32RoundTrip | apps/agent/internal/pipeline/encrypt.go:115-115 | a length below 2^32 survives its big-endian header |
| Frames.ReadU32RoundTrip | apps/backupy-decrypt/internal/decrypt/decrypt.go:270-270 | every four-byte header is the header of the number read from it |
| FrameLaws.FramesForGood | apps/agent/internal/pipeline/encrypt.go:107-126 | every frame the encoder writes is accepted by both decoders, and together they hold the plaintext |
| FrameLaws.SealedChunk | apps/backupy-decrypt/internal/decrypt/decrypt.go:237-240 | a frame of at most one chunk is within the CLI's bound and fits a uint32 |
| FrameLaws.RoundTrip | apps/agent/internal/pipeline/encrypt.go:98-181 | for every plaintext, nonce choice and trailing bytes, decoding gives back exactly the plaintext and consumes exactly the encoding |
| FrameLaws.EncodedLength | apps/agent/internal/pipeline/encrypt.go:42-60 | n bytes encode to n + 32 * ceil(n / 2^20) + 4 |
| FrameLaws.DecodeAfter | apps/agent/internal/pipeline/encrypt.go:149-181 | after good frames decoding goes on with what follows as if it stood alone |
| FrameLaws.DecodePrefix | apps/backupy-decrypt/internal/decrypt/decrypt.go:252-313 | any strict prefix of any frame sequence is reported truncated after exactly the frames it holds whole |
| FrameLaws.TruncationDetected | apps/backupy-decrypt/internal/decrypt/decrypt.go:252-313 | every strict prefix of an encoded stream is refused as truncated, having emitted exactly the chunks it contains, counted by dividing its length by the frame length |
| FrameLaws.DecodersAgree | apps/backupy-decrypt/internal/decrypt/decrypt.go:240-314 | on every byte string the bounded decoder succeeds exactly when the unbounded one does and every header it passes is within the bound, and then they agree on output and bytes consumed |
| FrameLaws.FullFramesMonotone | apps/agent/internal/pipeline/encrypt.go:107-133 | frames written before the input has ended stay valid whatever follows |
| FrameLaws.FullFramesBelowEncode | apps/agent/internal/pipeline/encrypt.go:107-140 | and are a prefix of the finished encoding |
| Streams.ReadFull | apps/agent/internal/pipeline/encrypt.go:108-108 | the result of io.ReadFull depends on the pending bytes and the final error, not on how reads cut them |
| FrameStreams.Stream | apps/agent/internal/pipeline/encrypt.go:98-141 | however the reader cuts its bytes, a stream that ends normally is written as `Encode` of all of them, each chunk under the nonce drawn for it, and their count is returned; a read error is reported after everything read was framed; a nonce failure stops at the exact chunk without one; in every case a prefix of the encoding was written |
| FrameStreams.AgentDecrypt | apps/agent/internal/pipeline/encrypt.go:145-181 | the agent's decoder is `Decode` without a bound: same plaintext, same verdict, nothing read past the marker |
| FrameStreams.DecryptStream | apps/backupy-decrypt/internal/decrypt/decrypt.go:246-314 | the CLI's decoder is `Decode` with the bound: same plaintext, the exact error for each way to end, cancelled exactly when the context is done at one of its looks, and `processed` equal to the bytes consumed |
| FrameEnds.EncodingLayout | apps/agent/internal/pipeline/encrypt.go:7-15 | the encoding in bytes: four zeros for nothing, otherwise the length, most significant byte first, the nonce drawn for that chunk, the first 2^20 bytes sealed, and the encoding of the rest |
| FrameEnds.CliStops | apps/backupy-decrypt/internal/decrypt/decrypt.go:257-303 | on good frames followed by what is none, the CLI emits exactly the good frames and reports, by the next bytes: clean end, truncation, a frame too small, too large, or one that does not open |
| FrameEnds.AgentStops | apps/agent/internal/pipeline/encrypt.go:152-175 | the agent's error in each of these cases, and whether header or body was cut |
| Rings.HookRing.Write | apps/agent/internal/pipeline/hooks.go:230-269 | after a write of any size the buffer reads as the last cap bytes of what it read as before followed by the write |
| Rings.HookRing.CopyAround | apps/agent/internal/pipeline/hooks.go:258-267 | the one or two copies of a write of less than a lap put each byte where the position, taken round the end, says |
| Rings.HookRing.String | apps/agent/internal/pipeline/hooks.go:272-280 | String returns the buffer oldest byte first |
| Rings.TailBuffer.Write | apps/agent/internal/pipeline/mongodump.go:170-178 | appending and trimming keeps the last cap bytes |
| Rings.Capture | apps/agent/internal/pipeline/hooks.go:219-280 | for every capacity and every sequence of writes the circular buffer reads as the last cap bytes of everything written |
| Rings.CaptureSimply | apps/agent/internal/pipeline/mongodump.go:162-178 | and so does the simple buffer fed the same writes |
| Rings.LastAppend | apps/agent/internal/pipeline/mongodump.go:170-178 | bytes dropped early would have been dropped later anyway |
| Rings.OverwrittenReads | apps/agent/internal/pipeline/hooks.go:258-267 | wherever it lies in a full buffer, a write drops the oldest bytes and appends itself |
| Hooks.RunHook | apps/agent/internal/pipeline/hooks.go:106-174 | a hook's clamped timeout, its exit code (-1 unless the process exited), whether the deadline killed it, and the last 8192 bytes of each output stream |
| Hooks.HookSet.Run | apps/agent/internal/pipeline/hooks.go:196-213 | the outcome and timeout of a hook given the budget used, and the charge for it |
| Hooks.TimeoutBounds | apps/agent/internal/pipeline/hooks.go:106-115 | a started hook has a positive timeout of at most 15 minutes and at most what remains; asking for none asks for all of that |
| Hooks.AttemptExactly | apps/agent/internal/pipeline/hooks.go:196-213 | a hook is started exactly when less than 30 minutes are used and there is a command; its timeout is the least of what was asked for, 15 minutes and what remains |
| Hooks.BudgetHolds | apps/agent/internal/pipeline/hooks.go:196-213 | over any sequence of calls in which each hook ends within d of its timeout, the total is at most 30 minutes plus d |
| Hooks.HooksOfRun | apps/agent/internal/pipeline/runner.go:183-239 | attempt i is that of the ith hook with what those before it left of one budget, for pre- and post-hooks; pre-hooks stop after the first that is not good, all of the first sixteen post-hooks are tried, and only after the dump went ahead |
| Hooks.RunWithinBudget | apps/agent/internal/pipeline/runner.go:179-183 | pre- and post-hooks of a run together exceed the budget by at most one overrun |
| Hooks.DumpNeedsAllPreHooks | apps/agent/internal/pipeline/runner.go:189-211 | the dump starts only after each of the first sixteen pre-hooks exited with 0; otherwise the last one attempted is the only one that did not |
| Hooks.PostHooksAllAttempted | apps/agent/internal/pipeline/runner.go:213-239 | post-hook failures stop no later post-hook: there are as many attempts as hooks |
| Positional.LessIsNumeric | apps/agent/internal/state/state.go:302-315 | among digit strings of one length, byte order is numeric order |
| Positional.ValueOfDigits | apps/agent/internal/state/state.go:354-365 | a number survives being written in digits |
| Sealing.OpenSealed | apps/agent/internal/state/crypto.go:68-96 | opening a sealed value gives back the plaintext, for every nonce |
| Sealing.SealedLayout | apps/agent/internal/state/crypto.go:67-78 | a sealed value is the version byte 1, the nonce and the ciphertext |
| Sealing.OpenExactly | apps/agent/internal/state/crypto.go:82-96 | values under 29 bytes or of another version are refused, and of the others the cipher decides |
| Sealing.BigEndian64RoundTrip | apps/agent/internal/state/state.go:354-365 | `bytesToU64` inverts `u64Bytes` |
| Sealing.BigEndian64Order | apps/agent/internal/state/state.go:309-314 | eight-byte big-endian keys sort as their numbers do |
| Bucket.PutSorted | apps/agent/internal/state/state.go:190-192 | a put keeps the bucket in key order |
| Bucket.GetPut | apps/agent/internal/state/state.go:190-192 | a put changes one key |
| Bucket.PutLength | apps/agent/internal/state/state.go:179-181 | an enqueue overwrites something exactly when its key was already queued |
| Bucket.GetDelete | apps/agent/internal/state/state.go:223-227 | a delete removes one key, keeps the others and the order |
| LogBuffer.KeyOrder | apps/agent/internal/state/state.go:309-314 | log keys sort by timestamp, taken as unsigned, then by insertion |
| LogBuffer.ChronologicalExactlyWhen | apps/agent/internal/state/state.go:299-301 | which is chronological order for two logs exactly when both timestamps are negative or neither is |
| LogBuffer.DrainInTimeOrderExactlyWhen | apps/agent/internal/state/state.go:318-319 | after any operations, what the next drain of n returns is in chronological order exactly when no negative timestamp is among it beside one that is not |
| LogBuffer.PutIsInsert | apps/agent/internal/state/state.go:307-315 | a bucket put under a fresh log key is insertion behind all logs not later than it |
| LogBuffer.Store.BufferLog | apps/agent/internal/state/state.go:302-316 | a log joins the queue at its place and overwrites nothing, or nothing changes |
| LogBuffer.Store.DrainLogs | apps/agent/internal/state/state.go:320-350 | the first n logs are returned and removed, or, if one of them cannot be opened, none is |
| LogBuffer.Drive | apps/agent/internal/state/state.go:297-350 | a store driven by any operations holds what their history says, and has returned the payloads of the logs drained in it |
| LogBuffer.PriorityQueue | apps/agent/internal/state/state.go:297-350 | over any interleaving, logs drained and logs left are together exactly those buffered, each once, and the next n precede all that stay |
| JobQueue.Store.EnqueueJob | apps/agent/internal/state/state.go:179-193 | the payload can be fetched under its run id, other jobs are untouched, and the depth grows exactly if the id is new; an empty or oversized id, an oversized payload or a failing random source changes nothing |
| JobQueue.Store.DequeueJobs | apps/agent/internal/state/state.go:195-220 | the first n jobs in key order exactly when all of them can be opened, otherwise an error |
| JobQueue.Store.AckJob | apps/agent/internal/state/state.go:222-227 | that job is gone, every other stays |
| JobQueue.Drive | apps/agent/internal/state/state.go:177-227 | a store driven by any enqueues and acks holds what their history says |
| JobQueue.LastEnqueueWins | apps/agent/internal/state/state.go:177-227 | after any sequence of enqueues and acks each run id holds exactly what was last enqueued under it and not acked since |
| JobQueue.UnreadableJobBlocks | apps/agent/internal/state/state.go:204-209 | a job that cannot be opened fails every fetch that reaches it, through all operations on other ids |
| QueueKeys.NumeralUnique | apps/agent/internal/wss/client.go:217-217 | the number in a key is its one decimal numeral without leading zeros |
| QueueKeys.SeqKeyInjective | apps/agent/internal/wss/client.go:215-218 | different numbers give different "seq-N" keys |
| QueueKeys.ReplayOrderExactlyWhen | apps/agent/internal/wss/client.go:215-218 | for m sent before n, replay goes in send order exactly when m padded with zeros to the width of n is at most n |
| QueueKeys.SameWidthReplaysInOrder | apps/agent/internal/wss/client.go:215-218 | it does among numbers with the same digit count |
| QueueKeys.TenBeforeNine | apps/agent/internal/wss/client.go:215-218 | and does not in general |
| DeliveryLedger.DiskPut | apps/agent/internal/wss/client.go:211-222 | an enqueue under a free key adds exactly one envelope to the queue |
| DeliveryInvariant.NetStep | apps/agent/internal/wss/client.go:190-223 | a step creates envelopes only by sending, registering and heartbeating; all others only move them |
| DeliveryInvariant.QueueKeyFree | apps/agent/internal/wss/client.go:215-222 | an envelope on its way to the disk finds its key free |
| DeliverySteps.StepKeeps | apps/agent/internal/wss/client.go:186-317 | every step keeps the protocol invariant |
| DeliverySteps.RunKeeps | apps/agent/internal/wss/client.go:186-317 | and so does every run |
| DeliveryTheorems.Conservation | apps/agent/internal/wss/client.go:190-223 | in every reachable state each envelope is in exactly one of: with its sender, on disk, held by the live connection, written, dropped |
| DeliveryTheorems.DropBound | apps/agent/internal/wss/client.go:284-317 | each connection drops at most 65 envelopes |
| DeliveryBounds.DropBoundReached | apps/agent/internal/wss/loops.go:104-134 | and some run drops 65 with one connection |
| DeliveryTheorems.AtMostOnce | apps/agent/internal/wss/loops.go:104-134 | no envelope is written twice, and all frames on the wire, registers and heartbeats included, carry distinct non-zero numbers |
| DeliveryFidelity.WrittenAsSent | apps/agent/internal/wss/loops.go:109-127 | a frame on the wire that stems from Send carries the number and correlation id Send gave it, by whatever way it went |
| DeliveryOrder.WriterKeepsOrder | apps/agent/internal/wss/loops.go:104-134 | first in, first out in any interleaving with senders and heartbeats: wire, hand and channel together only grow at the end, by what comes into the channel |
| DeliveryOrder.LossIsTail | apps/agent/internal/wss/loops.go:126-131 | a failing write loses what comes right after all that was written |
| DeliveryReplay.ReplayTally | apps/agent/internal/wss/client.go:420-444 | in any interleaving, while a replay lasts nothing is written; moved jobs and direct sends are in the channel behind what was there, each in order; and its own steps count down a fixed number |
| DeliveryReplay.FittingReplayNeverBlocks | apps/agent/internal/wss/client.go:420-444 | in any interleaving in which jobs and direct sends fit 64 slots, the replay can always take its next step and can return once that number is used up |
| DeliveryReplay.ReplayDelivers | apps/agent/internal/wss/client.go:429-443 | every replay that returns without cancellation, in any interleaving, has every popped envelope in the channel, the unmoved ones in order, and off the disk |
| DeliveryReplay.OverloadedReplayWedges | apps/agent/internal/wss/client.go:420-444 | a replay that does not fit never returns before shutdown, every unmoved envelope stays on disk, and it is blocked exactly when the channel is full |
| DeliveryReplay.OverloadFillsUp | apps/agent/internal/wss/client.go:437-442 | its own steps bring it to that point |
| DeliveryReplay.StuckReplay | apps/agent/internal/wss/client.go:437-442 | from there nothing is moved or written until shutdown, whatever else happens |
| DeliveryBounds.OverloadReached | apps/agent/internal/wss/client.go:296-298 | an overloaded replay is reachable from an empty queue |
| DeliveryBounds.WedgeReached | apps/agent/internal/wss/client.go:296-306 | and so is a state from which nothing is ever written before shutdown |
| DeliveryReplay.FittingReplayFinishes | apps/agent/internal/wss/client.go:420-444 | a replay that fits can return with its own steps alone |
| DeliveryReplay.ReplayFinishesExactlyWhen | apps/agent/internal/wss/client.go:296-298 | a replay can end by itself exactly when what it holds fits 64 slots |
| DeliveryRestart.RestartSafeExactlyWhen | apps/agent/internal/wss/client.go:215-222 | over every run of a new process that reuses no leftover's correlation id, no enqueue finds its key taken exactly when no leftover sits under a number, counting from 1 |
| DeliveryRestart.RestartOverwrites | apps/agent/internal/wss/client.go:108-108 | a leftover under "seq-n" is replaced by the nth envelope sent while disconnected |
| DeliveryRestart.LeftoversReached | apps/agent/internal/wss/client.go:211-222 | and a process can leave one under each number up to any n |
| Teardown.NoLoopOutlives | apps/agent/internal/wss/client.go:303-316 | when `runOnce` returns, with the first error on the channel, all three loops have ended, and none ever waits to report |
| Teardown.SomeStep | apps/agent/internal/wss/client.go:308-316 | once a loop has ended or the process shuts down, some step other than traffic and failures is possible until `runOnce` returns |
| Teardown.FewStepsInAll | apps/agent/internal/wss/client.go:300-317 | traffic aside, a connection takes at most fourteen steps to its end |
| Teardown.Finishes | apps/agent/internal/wss/client.go:308-317 | so from any such moment, without further traffic or failures, `runOnce` returns |
| DeliveryCalls.SendCall | apps/agent/internal/wss/client.go:190-223 | an uninterrupted Send is a run of the protocol that ends with the envelope in the channel if there was room, and otherwise on disk under its correlation id or, without one, "seq-" and its number in decimal, a key that was free |
| DeliveryClient.Client.Connect | apps/agent/internal/wss/client.go:284-294 | the handshake draws a number, writes its frame if the write succeeds, and publishes an empty channel only if it is acked |
| DeliveryClient.Client.Disconnect | apps/agent/internal/wss/client.go:289-294 | what the channel still holds is lost, and nothing else |
| DeliveryClient.Client.Send | apps/agent/internal/wss/client.go:190-223 | where the envelope goes, under which key, its number, and that nothing else changes; the fields keep showing a reachable protocol state |
| DeliveryClient.SendAll | apps/agent/internal/wss/client.go:190-223 | of sends in a row the first that find room fill the channel in order, the others go to disk, and nothing queued is lost |
| DeliveryClient.RunOnce | apps/agent/internal/wss/client.go:239-317 | a whole connection, failing anywhere or not: every envelope is in exactly one of queue, wire and lost, no frame is written twice, at most 65 envelopes are lost; if every write succeeds none is, and what goes out is exactly the register frame, the first min(patience, 64, 100, depth) queued envelopes in key order and the sends that still found room |
| DeliveryClient.FieldsAccountForAll | apps/agent/internal/wss/client.go:190-223 | between any two calls each envelope is in exactly one of queue, channel, wire and lost, and written frames carry distinct identities and numbers |
| DeliveryClient.Client.ReplayQueue | apps/agent/internal/wss/client.go:420-444 | exactly the first min(patience, free slots, 100, depth) queued envelopes move to the channel, in key order, and leave the disk |
| DeliveryClient.Client.WriteLoop | apps/agent/internal/wss/loops.go:104-134 | what reaches the wire is the channel's content in order with missing numbers filled in, up to the first failing write, which takes one more envelope with it |
| DeliveryCalls.MoveMany | apps/agent/internal/wss/client.go:429-443 | m moves are a run of the protocol that takes m entries off the front of the queue |
| DeliveryCalls.WriteMany | apps/agent/internal/wss/loops.go:104-134 | n writes are a run of the protocol that numbers and writes the first n envelopes |
| DeliveryCalls.NumberedExactly | apps/agent/internal/wss/loops.go:113-115 | the writer numbers exactly the envelopes without a number, in order, and changes nothing else |
| ConfigSync.IndexFindsLast | apps/agent/cmd/agent/run.go:276-301 | a lookup finds exactly the ids listed, and for each the last item listed under it |
| ConfigSync.BuildIndex | apps/agent/cmd/agent/run.go:279-286 | the map built in a loop is that index |
| ConfigSync.Agent.LoadConfig | apps/agent/internal/state/state.go:152-175 | what was saved is loaded with its version; nothing saved is not found, and a record sealed otherwise is an error |
| ConfigSync.Agent.SaveConfig | apps/agent/internal/state/state.go:136-148 | the stored record opens to the encoding given, under its version; a failing random source or transaction changes neither key |
| ConfigSync.Agent.SetSnapshot | apps/agent/cmd/agent/run.go:276-287 | the snapshot is rebuilt from the config and keeps nothing of the one before |
| ConfigSync.Agent.OnRegisterAck | apps/agent/internal/wss/client.go:256-277 | the fields after a RegisterAck: a config is applied whatever its version and whether or not it could be stored, the counter only rises |
| ConfigSync.Agent.OnConfigUpdate | apps/agent/internal/wss/loops.go:59-69 | the fields after a ConfigUpdate: a config is applied whether or not it could be stored, the counter takes its version |
| ConfigSync.RunSession | apps/agent/internal/wss/client.go:242-277 | over any sequence of deliveries, saves failing or not, the fields follow the abstract state |
| ConfigSync.Agreement | apps/agent/internal/wss/client.go:256-277 | the snapshot holds the last config delivered and the store the last one saved; the counter is at least the snapshot's version, and at least the stored one if the last delivery was saved |
| ConfigSync.StoreAndSnapshotHold | apps/agent/cmd/agent/run.go:110-121 | in terms of the fields: a lookup finds exactly the last delivered config's targets and jobs, and if it was saved the bytes on disk decode to it |
| ConfigSync.AgreementExactlyWhen | apps/agent/internal/wss/client.go:264-277 | store and snapshot agree exactly when the last config delivered was saved or is the one already stored; before any delivery, exactly when nothing was stored |
| ConfigSync.VersionAheadExactlyWhen | apps/agent/internal/wss/client.go:261-263 | the counter differs from the version last delivered exactly after a RegisterAck that carried a lower one |
| RedisSnapshot.Session.WaitForSave | apps/agent/internal/pipeline/redis.go:204-226 | the first poll that fails, is cancelled, sees a newer save or is late decides the outcome, and there are at most floor(timeout / interval) + 2 polls |
| RedisSnapshot.WaitingEndsExactly | apps/agent/internal/pipeline/redis.go:204-226 | what polls that change nothing look like, and exactly when the waiting ends saved, failed, timed out or cancelled |
| RedisSnapshot.PollBoundReached | apps/agent/internal/pipeline/redis.go:204-226 | that many polls can happen |
| RedisSnapshot.Session.Dump | apps/agent/internal/pipeline/redis.go:117-161 | the result for each way to end; exactly when the RDB file is opened, and that it is opened after LASTSAVE, BGSAVE, the polls and both CONFIG GETs in that order, the last poll having exceeded the first LASTSAVE |
| RedisSnapshot.OpenedSaveIsNew | apps/agent/internal/pipeline/redis.go:123-134 | the opened file holds a save finished after the first LASTSAVE |
| RedisSnapshot.BegunSinceExactlyWhen | apps/agent/internal/pipeline/redis.go:107-134 | that save is sure to have begun after it exactly when no save was under way then |

## Left out

- AES, SHA-256, HKDF, zstd, gzip and tar: functions with the laws named above; zstd keeps at most one block in flight and writes what it has encoded in order.
- WebSocket dialing, HTTP transport, processes, Docker and the file system: outcomes of steps or parameters.
- Protobuf messages: an envelope is an identity, a number and a correlation id; a config is a version and two item lists.
- A queued payload that does not unmarshal, which `replayQueue` acks and drops: every payload in the delivery model is a valid envelope.
- The goroutines of one backup run and of one connection as objects: their interleavings are step systems over values; the calls that run uninterrupted are methods in `DeliveryClient`, `FrameStreams` and `Hooks`.
- RedisSnapshot.Session.Dump: the tar archive is one success flag and the server version lookup, which cannot fail the dump, is not modelled.
- RedisSnapshot.Session.WaitForSave: a redis-cli call cut short by the context counts as a failed call, as in the code; which of the two it was is not told apart.
- Recovery.CliRun: the goroutine that feeds the zstd decoder is not modelled; decompression is one function of the decrypted bytes, and what is in the output file after a failure is not stated.
- DeliveryClient.Client.ReplayQueue: no other sender runs during the call, and a full channel stands for the wait that only cancellation ends; every interleaving with senders is covered by `DeliveryReplay.ReplayTally` and `DeliveryReplay.ReplayDelivers` on the step system.
- DeliveryClient.Client.WriteLoop: nothing enters the channel during the call; every interleaving is covered by `DeliveryOrder.WriterKeepsOrder` on the step system.
- DeliveryClient.RunOnce: its calls run in sequence; heartbeats and concurrent sends are left to the delivery step system, the read loop and the end of all three loops to `Teardown`.
- Hooks.HookSet.Run: a hook's duration, ending and output are parameters; the environment, which no caller sets, and the mutex are not modelled.
- The registry bucket (session id, server time, heartbeat time) and the metrics it feeds.
- The per-job timeout context, job and target lookup, DEK resolution and the size, hash and version fields of BackupCompleted beyond the body they are computed from.
- The content of inbound frames other than configs: in `Teardown` the read loop only runs and ends.
- Reconnect backoff, metrics, logging, progress display, container discovery, driver argument builders and version banners.
- Token and configuration validation: straight-line checks over library parsing.
