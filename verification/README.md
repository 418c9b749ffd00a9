# Verified model of Chitanda's replay protection, framing and queues

Dafny model and proofs of the parts of Chitanda whose correctness spans several functions, goroutines or
processes. `dafny verify dfyconfig.toml` checks everything.

* **Replay admission** (`ReplayBitmap`, `NonceCache`, `DurableLog`, `BucketNames`, `Admission`,
  `AtMostOnce`, `Shadow`, `Grants`, `LeftOver`, `CrashSafety`, `Availability`, `IdleExpiry`,
  `ResponseWindow`): the bitmap window, the 10-second bucket admission, the nonce cache over its
  append-only log, idle clean-up, and the client's response window. The main results are at-most-once
  acceptance, the durability of answers and the acceptance of what is fresh and new, over every run,
  including crashes and restarts.
* **Write and read adapters** (`QueuedWriter`, `QueuedReader`, `PipeQueue`): step machines of
  `connio.Writer`, `connio.Reader` and `pipeWriteQueue` with inductive invariants over all interleavings
  (`QueuedWriterProof`, `PipeQueueProof`), and what they do for their callers (`QueuedWriterService`,
  `PipeQueueService`).
* **Stream codecs** (`RawRecord`, `RawWriter`, `RawReader`, `RawStream`, `RawDelivery`, `ChunkedCoding`,
  `ChunkedProof`): RawStream records over an ideal cipher and HTTP/1.1 chunked coding, over a network of
  bytes, deadline expiries, ends and failures in any order (`Network`, `Connection`, `Downstream`).
* **Queues** (`SenderQueue`, `BytePipe`, over `Rings`): growing rings that refine bounded queues.
* **Ledgers and checksums** (`UdpBudget`, `UdpRoutes`, `IcmpChecksum`, `EchoTokens`).

Each part has a reference definition on plain values (a set, a history, a sequence, a log) and, where the
program changes state in place, a class with the program's fields whose methods are proved to do what the
reference does; the theorems over whole runs are about the reference. Time is integer nanoseconds,
`Unix()` is floor division. Wrap-around is written out where it matters (freshness, sequence exhaustion,
the checksum accumulator, tokens).

Two promises do not hold as stated, and the model keeps the code as it is:

* A datagram can be accepted twice when a process is restarted over a compaction whose rename was not
  followed by a successful directory sync, and a machine crash then brings the older file back.
  `LeftOver.ReplayAfterLeftOver` is such a run; `CrashSafety.CrashIsSafeIff` says exactly when a crash is
  harmless, and `CrashSafety.NoDatagramTwice` covers every run whose crashes are.
* Replacing the token of an ICMPv6 packet keeps it valid exactly when the checksum field is not zero or
  both tokens add the same (`EchoTokens.Ipv6Verifies`); `EchoTokens.ZeroFieldIsNotUpdated` is a packet.

## Model

| member | source | states |
|---|---|---|
| `ReplayBitmap.ReplayWindow.Accept` | internal/frame/frame.go:212-243 | the 2048-bit modular bitmap decides exactly as the plain set of accepted numbers does: true iff the number was never accepted and is above the highest or less than 2048 below it; the set afterwards is the specification's |
| `ReplayBitmap.ReplayWindow.Mark` | internal/frame/frame.go:245-248 | sets the slot of one number and no other |
| `ReplayBitmap.ReplayWindow.ClearSlots` | internal/frame/frame.go:250-264 | the masked word loop clears the slots of the given run of numbers, across wrap-around, and those of no other number of the window |
| `ReplayBitmap.SameSlot` | internal/frame/frame.go:266-269 | two numbers less than 2048 apart share a slot only if they are equal |
| `ReplayBitmap.AcceptedStaysAccepted` | internal/frame/frame.go:206-243 | no later call forgets an accepted number in the specification |
| `ReplayBitmap.NeverAcceptedTwice` | internal/frame/frame.go:212-243 | over every sequence of calls no number is accepted twice |
| `NonceCache.ReplayCache.Open` | pkg/auth/auth.go:81-124 | opening loads exactly the live records of the file, last one per nonce winning, into map and heap; a file that an unsynced rename of an earlier process replaced stays on the disk as left over |
| `NonceCache.ReplayCache.Purge` | pkg/auth/auth.go:218-223 | with stale duplicate heap entries, popping leaves in the map exactly the entries whose expiry is after now, and the heap still covers the map |
| `NonceCache.ReplayCache.PopTop` | pkg/auth/auth.go:61-71 | removes the popped heap entry, and the map entry only if the popped expiry is the current one |
| `NonceCache.ReplayCache.Check` | pkg/auth/auth.go:191-203 | answers whether the nonce is still remembered at that instant, and purges |
| `NonceCache.ReplayCache.AcceptStart` | pkg/auth/auth.go:205-249 | the locked first half of Accept, every outcome from the fields before: duplicate iff the nonce is live, full iff not and 200,000 are, refused iff closed, failed, without its file, or a fault strikes; otherwise, whether or not a compaction is due, the cache works on, remembers the nonce for 180 s and logs it, and the caller waits for the next transaction |
| `NonceCache.StartOutcomes` | pkg/auth/auth.go:205-259 | the same of the specification, for every cache, instant and fault, with the log the caller waits for |
| `NonceCache.ReplayCache.InsertNew` | pkg/auth/auth.go:230-248 | inserts the nonce with its expiry and logs it, or fails the cache |
| `NonceCache.ReplayCache.AcceptFinish` | pkg/auth/auth.go:250-258 | true exactly for a transaction that a commit has synced while the cache works; false exactly when persistence has failed |
| `NonceCache.ReplayCache.Snapshot` | pkg/auth/auth.go:281-287 | the records a compaction writes are those of the map |
| `NonceCache.ReplayCache.Compact` | pkg/auth/auth.go:271-314 | rewriting the log, under every fault at every file operation, leaves the disk state of the specification; without a fault it succeeds and the cache works on |
| `NonceCache.ReplayCache.Commit` | pkg/auth/auth.go:126-159 | a group commit makes everything written so far durable and advances the synced number to the current one, or fails the cache for good |
| `NonceCache.LoadExact` | pkg/auth/auth.go:161-188 | the last record of a nonce, if it expires after now, is loaded with its recorded expiry |
| `NonceCache.LoadKeeps` | pkg/auth/auth.go:161-188 | a reload before the recorded expiry finds the nonce whatever else the log holds |
| `NonceCache.LoadOnlyFromLog` | pkg/auth/auth.go:161-188 | a reload invents no entry |
| `NonceCache.FailureIsFinal` | pkg/auth/auth.go:261-269 | after a persistence failure, whatever steps follow, no call is answered true, neither a new one nor one that waits |
| `NonceCache.TransactionsStayOrdered` | pkg/auth/auth.go:126-159 | syncedTx never exceeds currentTx, over every sequence of operations |
| `NonceCache.NextKeepsTransactions` | pkg/auth/auth.go:205-259 | one operation keeps syncedTx <= currentTx |
| `NonceCache.EntryStays` | pkg/auth/auth.go:205-259 | an entry stays in the cache, under any operations, until its expiry |
| `NonceCache.AdmissionsFarApart` | pkg/auth/auth.go:205-259 | under a nondecreasing clock two admissions of one nonce by one cache are at least 180 s apart |
| `NonceCache.SurvivorKeeps` | pkg/auth/auth.go:271-314 | a record that is durable in the current file and in the one this process replaced is in whichever of them survives a crash |
| `DurableLog.RenameKeeps` | pkg/auth/auth.go:300-313 | a compaction's rename keeps every promised nonce in both files until the directory is synced |
| `DurableLog.CompactionKeeps` | pkg/auth/auth.go:271-314 | a whole compaction, or one that fails at any point, keeps every promised nonce on disk |
| `DurableLog.AppendKeeps` | pkg/auth/auth.go:237-244 | appending keeps every promised nonce |
| `DurableLog.StartKeeps` | pkg/auth/auth.go:205-249 | the first half of Accept keeps every promised nonce |
| `DurableLog.CommitKeeps` | pkg/auth/auth.go:126-159 | a commit keeps every promised nonce and makes the pending ones promised |
| `DurableLog.ReloadOk` | pkg/auth/auth.go:161-188 | the log read back satisfies the invariant of the log |
| `DurableLog.CrashKeeps` | pkg/auth/auth.go:161-188 | a log read back after a crash, from any prefix of any file the disk may hold, left over or not, satisfies the invariant of the log |
| `BucketNames.NameInjective` | pkg/server/udp_replay_persistent.go:54-54 | two buckets have the same cache key only if namespace, session and bucket agree for any namespace |
| `Admission.FreshMeansNear` | pkg/server/udp_replay_persistent.go:39-42 | the wrapping 64-bit subtraction decides freshness as exact integers do, for every timestamp |
| `Admission.BucketFreshUnder70s` | pkg/server/udp_replay_persistent.go:39-44 | all datagrams of one 10 s bucket are fresh within less than 70 s |
| `Admission.UDPReplayWindow.AcceptUntilCache` | pkg/server/udp_replay_persistent.go:36-55 | AcceptAuthenticated up to its call of the cache: refuses a timestamp more than 30 s off; asks the cache iff no unexpired admission of the 10 s bucket is held; otherwise decides true iff the number was never accepted and no accepted one is 2048 or more above it, and then exactly that number joins the accepted ones |
| `Admission.UDPReplayWindow.AcceptAfterCache` | pkg/server/udp_replay_persistent.go:55-63 | the rest of AcceptAuthenticated: holds the bucket for 180 s, and decides by the bitmap in the same way |
| `Admission.UDPReplayWindow.PurgeBuckets` | pkg/server/udp_replay_persistent.go:48-52 | the loop deletes exactly the buckets whose admission has expired |
| `AtMostOnce.EventKeeps` | pkg/server/udp_replay_persistent.go:36-63 | every event (arrival, cache step, commit, fault, window opened or dropped, exit at any point also inside a compaction, crash, crash inside a compaction, restart over whatever was left) keeps the invariant that ties accepted datagrams to windows, memory and disk, unless it is a crash that takes a left-over file |
| `Shadow.ForgetfulInv` | pkg/auth/auth.go:161-188 | after a crash that brings back any file, the system that forgets the grants and acceptances the file does not back satisfies the invariant |
| `Shadow.ShadowStep` | pkg/server/udp_replay_persistent.go:36-63 | whatever happens, a left-over file taken by a crash included, the forgetful system keeps the invariant and stays equal to the real one but for what was forgotten |
| `Grants.GrantSurvivesCrash` | pkg/auth/auth.go:126-188 | over every run: a nonce for which Accept answered true is found by a reload after a crash at any point, until the second its retention ends, unless an earlier crash took a left-over file that lacked it |
| `Grants.GrantSurvivesCrashInCompaction` | pkg/auth/auth.go:271-314 | the same for a crash inside a compaction |
| `Grants.GrantSurvivesExit` | pkg/auth/auth.go:81-106 | no exit loses such an answer, not even over a rename whose directory entry was never synced |
| `Grants.GrantSurvivesEveryCrashIff` | pkg/auth/auth.go:300-313 | such an answer is found after every possible crash iff the synced part of every left-over file has its nonce |
| `Grants.CleanStanding` | pkg/auth/auth.go:126-159 | in a run in which no crash takes a left-over file these are all answers |
| `LeftOver.ReplayAfterLeftOver` | pkg/auth/auth.go:296-313 | at-most-once acceptance fails without a condition on crashes: from an empty log, ten thousand admissions, a compaction renamed but not synced, a restart, a datagram accepted, a crash that brings the older file back, and the same datagram accepted again |
| `CrashSafety.ReplayableLeads` | pkg/server/udp_replay_persistent.go:53-60 | a datagram that can still be fresh while its bucket is missing from the reloaded memory, with room for it, is accepted again by some run without a further bad crash |
| `CrashSafety.StaysShut` | pkg/server/udp_replay_persistent.go:36-63 | a datagram that a harmless crash made the system forget stays shut out under every event: its bucket is not missing while it is fresh, a window that obtains the bucket finds it stale, and no call waits for it |
| `CrashSafety.NoDatagramTwice` | pkg/server/udp_replay_persistent.go:36-63 | over every run, with any number of windows sharing one cache, any expiries, faults, exits, crashes and reloads under a nondecreasing clock, no datagram (namespace, session, timestamp, sequence) is accepted twice, if after each crash that brings back a left-over file no accepted datagram can still be fresh while its bucket is missing from the reloaded memory and there is room for it (the run is harmless) |
| `CrashSafety.CleanIsHarmless` | pkg/auth/auth.go:296-313 | runs in which no crash takes a left-over file are harmless |
| `CrashSafety.CrashIsSafeIff` | pkg/auth/auth.go:161-188 | after every harmless run and any crash, whatever file it brings back: all harmless further runs accept each datagram once iff no accepted datagram can still be fresh at an instant at which its bucket is missing from the reloaded memory and there is room for it |
| `CrashSafety.HarmlessIff` | pkg/auth/auth.go:161-188 | a run from an empty log, however many crashes it has, is harmless iff after each of its crashes that take a left-over file all harmless further runs accept each datagram once |
| `Availability.HeldBucketDecides` | pkg/server/udp_replay_persistent.go:43-63 | in any state, a window that holds the bucket accepts exactly the fresh datagrams with new numbers |
| `Availability.NewBucketIsServed` | pkg/server/udp_replay_persistent.go:53-63 | in every reachable state whose cache works, has room and does not remember the bucket, whether or not a compaction is due: a fresh datagram with a new number is accepted once its record is synced |
| `Availability.NewWindowIsEmpty` | pkg/server/udp_replay_persistent.go:32-34 | a new window refuses no number and holds no bucket |
| `IdleExpiry.UDPReplayRegistry.Accept` | integration/xray/udp_replay.go:29-58 | creates the entry first, then judges the datagram, with or without a timestamp: true iff open, the session is known or fewer than 10,000 are, the timestamp is within 30 s, and the number is new and less than 2048 below the highest |
| `IdleExpiry.UDPReplayRegistry.Expire` | integration/xray/udp_replay.go:60-68 | the loop deletes exactly the windows idle for more than 65 s |
| `IdleExpiry.CleanerDrops` | pkg/server/plain_udp.go:583-618 | the session cleaner drops exactly the sessions whose last activity is more than 60 whole seconds back |
| `IdleExpiry.TouchedIsKept` | pkg/server/plain_udp.go:583-618 | a session that was touched is kept for 60 seconds |
| `IdleExpiry.ExpiryForgetsOnlyStale` | pkg/server/plain_udp.go:583-618 | neither the 65 s expiry nor the 60 s cleaner drops a window while a datagram it accepted can still pass the freshness check |
| `IdleExpiry.NeverTwiceAcrossCleanup` | pkg/server/plain_udp.go:352-386 | without any durable cache, no datagram is accepted twice by one process across clean-up |
| `ResponseWindow.ResponseReplayWindow.Accept` | internal/plainudp/response_replay.go:24-68 | ring, set, floors and retirement mark decide as the full history does: accepted iff the sequence is not zero, the identity is new, no accepted one is more than 60 s newer, and none of its timestamp accepted before the last 2048 has as large a sequence |
| `ResponseWindow.AdmitsMeans` | internal/plainudp/response_replay.go:24-68 | the same of the reference definition |
| `ResponseWindow.ResponseReplayWindow.Retire` | internal/plainudp/response_replay.go:31-42 | moves the retirement mark and drops retired floors |
| `ResponseWindow.ResponseReplayWindow.Remember` | internal/plainudp/response_replay.go:55-66 | records an identity, turning the ring when it is full |
| `ResponseWindow.ResponseReplayWindow.RaiseFloor` | internal/plainudp/response_replay.go:58-62 | the floor of a timestamp is the largest sequence evicted for it |
| `ResponseWindow.NeverAcceptedTwice` | internal/plainudp/response_replay.go:24-68 | over every sequence of calls no identity is accepted twice, despite eviction, floor deletion and retirement |
| `ResponseWindow.SeenIsRing` | internal/plainudp/response_replay.go:55-66 | the set has exactly the ring's identities, at most 2048 |
| `ResponseWindow.FloorsBounded` | internal/plainudp/response_replay.go:31-42 | at most 61 floors |
| `QueuedWriterProof.StepKeeps` | pkg/connio/deadline.go:295-570 | every step of every caller, closer and the worker keeps the inductive invariant |
| `QueuedWriterProof.NothingPanicsOrBlocks` | pkg/connio/deadline.go:396-505 | in every interleaving nothing is sent on the closed queue, no channel is closed twice, and the operations that must not block find room |
| `QueuedWriterProof.EmptyAfterExit` | pkg/connio/deadline.go:340-360 | once the worker has exited the queue is empty in every later state |
| `QueuedWriterProof.RecycledWhenUnreferenced` | pkg/connio/deadline.go:253-262 | a pooled request is free exactly when neither its caller, the queue nor the worker refers to it |
| `QueuedWriterProof.HandedIsPrefix` | pkg/connio/deadline.go:295-340 | the chunks handed downstream are, byte for byte, a prefix of the admitted chunks in order |
| `QueuedWriterProof.ReportsCoverDelivery` | pkg/connio/deadline.go:467-505 | a call reports at least as many bytes as were delivered of its chunk |
| `QueuedWriterService.ServesWhileUndisturbed` | pkg/connio/deadline.go:295-340 | without a Close, a closed queue or a failed or short write, the worker is never at its end, no error is recorded, and whoever holds the gate may go on to submit |
| `QueuedWriterService.StopsForACause` | pkg/connio/deadline.go:295-340 | in every run, if the worker has stopped or an error is recorded, one of these came before |
| `QueuedWriterService.NothingAfterFailure` | pkg/connio/deadline.go:321-327 | after a failed or short write the transport is given nothing more, and the worker ends |
| `QueuedWriterService.NothingAfterClose` | pkg/connio/deadline.go:311-318 | nor is it after Close |
| `QueuedWriterService.ResultIsExact` | pkg/connio/deadline.go:467-505 | a call ended by its result reports exactly what the transport took of its chunk, for good |
| `QueuedWriterService.ReportsAreModest` | pkg/connio/deadline.go:396-465 | no call reports more than its chunk, and one that was not admitted reports nothing |
| `QueuedWriterService.UndisturbedReportsWhole` | pkg/connio/deadline.go:321-331 | in an undisturbed run a call that gets its result reports its whole chunk, which the transport took |
| `QueuedWriterService.WorkerMoves` | pkg/connio/deadline.go:295-361 | in every reachable state the worker has a step to take unless it has exited, has nothing to do or waits for the gate |
| `QueuedWriterService.CallerMoves` | pkg/connio/deadline.go:396-505 | so has a call that is past the queue or was turned away |
| `QueuedReader.LeaseKeeps` | pkg/connio/deadline.go:57-228 | every step keeps, for every lease, that it is held by one chunk or was released once |
| `QueuedReader.LeasesReleasedOnce` | pkg/connio/deadline.go:98-228 | in every interleaving a lease is released at most once, never while a byte of its chunk can still be read; after a close has drained, every lease exactly once |
| `QueuedReader.StreamInOrder` | pkg/connio/deadline.go:153-206 | however Read and ReadPacket are mixed, chunks are taken in the order of fetching and Read delivers the bytes of its chunks in order, none lost before a close whatever deadlines expire; an error is stored only when everything fetched was taken |
| `QueuedReader.OnlyRead` | pkg/connio/deadline.go:153-186 | when only Read is used, what it delivers is the concatenation of the chunks fetched |
| `QueuedReader.ReaderGoesOn` | pkg/connio/deadline.go:57-206 | the fetcher stops only for Close or an error that is still to be reported or is stored; otherwise it fetches and sends on, and a reader takes or copies what there is |
| `PipeQueueProof.StepKeeps` | integration/xray/pipe_writer.go:18-116 | every step of every caller and the worker keeps the inductive invariant |
| `PipeQueueProof.GateIsConserved` | integration/xray/pipe_writer.go:138-161 | gate tokens and holders add up to one, two callers are never inside the gate together, at most one operation is in flight, and no send that must not block does |
| `PipeQueueProof.NoSubmissionAfterDecision` | integration/xray/pipe_writer.go:208-227 | once the worker has decided to exit no job can be submitted in any later state |
| `PipeQueueProof.CompletedOnce` | integration/xray/pipe_writer.go:73-116 | admitted requests are completed once, in order, at most one is outstanding, and none is when the worker has exited |
| `PipeQueueProof.RecycledWhenUnreferenced` | integration/xray/pipe_writer.go:29-40 | a request returns to the pool exactly when neither caller, channel nor worker refers to it |
| `PipeQueueProof.BuffersReleasedOnce` | integration/xray/pipe_writer.go:29-40 | the buffers of a call are passed on or released, never both; once its request is back in the pool exactly one of the two has happened |
| `PipeQueueService.ServesWhileUndisturbed` | integration/xray/pipe_writer.go:73-116 | while no operation failed and nothing was closed the worker goes on, and a prepared request can be submitted |
| `PipeQueueService.NothingAfterLast` | integration/xray/pipe_writer.go:96-114 | after a failed operation or the half-close there is no other, and the error stays |
| `PipeQueueService.LastDecides` | integration/xray/pipe_writer.go:106-114 | a failed operation and the half-close are the worker's last |
| `PipeQueueService.NothingAfterClose` | integration/xray/pipe_writer.go:73-95 | after Close no operation begins and nothing can be submitted |
| `PipeQueueService.CompletedMeansPassed` | integration/xray/pipe_writer.go:96-111 | in an undisturbed run every completed call had its buffers passed to the transport |
| `PipeQueueService.WorkerMoves` | integration/xray/pipe_writer.go:73-116 | the worker is stuck only when it has exited or has nothing to do |
| `PipeQueueService.CallerMoves` | integration/xray/pipe_writer.go:138-227 | a call is stuck only at the gate or waiting for its result |
| `RawRecord.EncodedValue` | internal/rawstream/frame.go:882-890 | the big-endian length and nonce encodings decode to what was encoded |
| `RawRecord.ValueEncoded` | internal/rawstream/frame.go:903-904 | re-encoding a decoded header gives the header, so the reader's associated data is what it read |
| `RawRecord.NoncesDiffer` | internal/rawstream/frame.go:882-883 | two sequence numbers have different nonces |
| `RawFramedWriter.AEADStream.EncryptChunk` | internal/rawstream/frame.go:875-893 | seals one record under the current number and advances it; refuses oversized payloads and the last number without advancing |
| `RawFramedWriter.AEADStream.DecryptChunk` | internal/rawstream/frame.go:896-905 | opens under the current number and the length as associated data, advancing unless exhausted |
| `RawWriter.RecordsCover` | internal/rawstream/stream.go:69-114 | for every batch and burst phase the record payloads concatenate to the input |
| `RawWriter.RecordsFilled` | internal/rawstream/stream.go:76-114 | every record is nonempty and within 32768 bytes |
| `RawWriter.PumpSeals` | internal/rawstream/stream.go:69-132 | a batch seals an initial part of its records in order, all of them when it reports no error |
| `RawWriter.PumpMeaning` | internal/rawstream/stream.go:116-142 | the count returned is exactly the payload of the records whose flush succeeded; an error stops the writer |
| `RawWriter.FlushMeaning` | internal/rawstream/stream.go:146-155 | a partial or failed downstream write closes the writer and leaves at most a torn part of the batch on the wire |
| `RawWriter.BatchKeeps` | internal/rawstream/stream.go:51-143 | one WriteBatch keeps the relation between bytes handed over, records sealed, bytes on the wire and counts reported |
| `RawWriter.EofKeeps` | internal/rawstream/stream.go:159-174 | WriteEOF keeps it, adding at most the empty record |
| `RawWriter.RunMeaning` | internal/rawstream/stream.go:51-174 | over every run of calls and every downstream behaviour: sealed payloads are an initial part of what was handed over, all of it while open; the wire has the flushed records whole; the counts add up to the flushed payload |
| `RawWriter.NothingFollows` | internal/rawstream/stream.go:144-174 | after a failed flush, an end marker or an exhausted sequence nothing is sealed or sent by any later call |
| `RawFramedWriter.FramedWriter.Coalesce` | internal/rawstream/stream.go:91-108 | gathers the next bytes of the concatenated slices across empty and short slices, up to the limit |
| `RawFramedWriter.FramedWriter.NextChunk` | internal/rawstream/stream.go:90-113 | the next record is the same whichever way the batch is sliced: as many of the remaining bytes as the limit allows |
| `RawFramedWriter.FramedWriter.Put` | internal/rawstream/stream.go:116-131 | seals one record and flushes the batch at the phase's threshold |
| `RawFramedWriter.FramedWriter.Flush` | internal/rawstream/stream.go:146-155 | succeeds exactly when the sink took the whole buffer, and otherwise closes the writer; the reference flush of the batch |
| `RawFramedWriter.FramedWriter.WriteBatch` | internal/rawstream/stream.go:51-143 | the loops over slices do exactly what the reference does on the concatenated bytes |
| `RawFramedWriter.FramedWriter.WriteEOF` | internal/rawstream/stream.go:159-174 | seals and sends the empty record once, or nothing on a closed writer |
| `RawReader.OnlySealed` | internal/rawstream/frame.go:896-905 | with an ideal cipher the record opened at position n is the n-th one sealed |
| `RawReader.RunKeeps` | internal/rawstream/stream.go:205-279 | for every network what is delivered and held is an initial part of the sealed payload |
| `RawReader.ErrorIsFinal` | internal/rawstream/stream.go:281-290 | a call that reports anything but a deadline delivers nothing and settles all later calls |
| `RawReader.FinalStays` | internal/rawstream/stream.go:220-228 | after that every later call reports the same and reads nothing |
| `RawReader.EofMeansEnded` | internal/rawstream/stream.go:263-272 | the end is reported only after the authenticated empty record |
| `RawReader.ReadsEverything` | internal/rawstream/stream.go:205-279 | on a network that carries the records unchanged, with deadline expiries between any two bytes, one call per event reads every byte and then the end |
| `RawFramedReader.FramedReader.FillHeader` | internal/rawstream/stream.go:230-237 | resumes a partial header |
| `RawFramedReader.FramedReader.FillBody` | internal/rawstream/stream.go:248-259 | keeps a partial body, whose buffer is never replaced while it is partial |
| `RawFramedReader.FramedReader.Decrypt` | internal/rawstream/stream.go:262-278 | opens a whole record and delivers from it |
| `RawFramedReader.FramedReader.Read` | internal/rawstream/stream.go:205-279 | does what the reference reader does, for every state and network |
| `RawStream.MarkerEnds` | internal/rawstream/stream.go:159-174 | the empty record is sealed by one WriteEOF, after everything handed over before that call |
| `RawStream.ReadIsPrefix` | internal/rawstream/stream.go:205-290 | for any delivered bytes, fragmentation and deadlines, Read yields a prefix of the bytes written; the end is reported only after every byte written before WriteEOF |
| `RawStream.RoundTrip` | internal/rawstream/stream.go:51-279 | when every flush succeeded and the bytes arrive unchanged, everything written is read, and the end iff it was sealed |
| `RawDelivery.BatchDelivers` | internal/rawstream/stream.go:51-141 | over a connection that takes every batch whole, with numbers left for the records: no error, the whole batch reported and flushed, the writer open, and the wire gains exactly its records |
| `RawDelivery.EofDelivers` | internal/rawstream/stream.go:159-174 | so does the end marker, which closes the writer |
| `RawDelivery.RunDelivers` | internal/rawstream/stream.go:51-174 | so does every run of calls: everything handed over is on the wire, and the stream is ended iff a call ends it |
| `RawDelivery.RoundTripWhole` | internal/rawstream/stream.go:51-279 | and everything handed over is read, or everything before the call that ended the stream and then the end |
| `RawDelivery.BatchErrorHasACause` | internal/rawstream/stream.go:51-155 | a batch fails only on a closed writer, for want of numbers, or because the last answer of the connection was an error or not the whole of the records then unsent |
| `RawDelivery.EofErrorHasACause` | internal/rawstream/stream.go:159-174 | so does the end marker |
| `RawDelivery.RecordSize` | internal/rawstream/stream.go:79-116 | each record is as large as the rest of the batch and its place in the burst allow: 1380 bytes up to 128 KiB, 8192 up to 1 MiB, then 32768 |
| `RawDelivery.SentWhenDue` | internal/rawstream/stream.go:79-128 | a record is sent at once in the first 128 KiB of a burst, then when 8 KiB and later 128 KiB have gathered, and not before |
| `RawStream.IdealCipherExists` | internal/rawstream/frame.go:862-873 | the two assumptions made of the cipher can hold together: for every run of a writer there is a cipher that opens exactly what that run sealed with it |
| `SenderQueue.PushKeeps` | integration/mihomo_tunnel/chitanda_sender_queue.go:89-149 | a push that is refused, evicts or appends keeps limits, fates and wake-up |
| `SenderQueue.TakeKeeps` | integration/mihomo_tunnel/chitanda_sender_queue.go:151-224 | taking packets keeps them and removes only from the front |
| `SenderQueue.CloseKeeps` | integration/mihomo_tunnel/chitanda_sender_queue.go:226-244 | closing drops every queued packet once |
| `SenderQueue.RunKeeps` | integration/mihomo_tunnel/chitanda_sender_queue.go:89-244 | over every interleaving of any number of queues: what leaves a queue only grows at its end, as does what it accepted, and the shared budget is the sum of the queued sizes |
| `SenderQueue.QueuesAreSound` | integration/mihomo_tunnel/chitanda_sender_queue.go:30-244 | every packet offered is refused, removed once, queued or being placed; the accepted ones are in the order in which they were offered; at most 8192 packets, 12 MiB per queue and 64 MiB in all; a queue with packets has a token or a consumer |
| `SenderQueue.TurnDelivers` | integration/mihomo_tunnel/chitanda_sender_queue.go:179-224 | a consumer's turn delivers exactly the packets that are at most 3 s old then |
| `SenderQueue.TurnEnds` | integration/mihomo_tunnel/chitanda_sender_queue.go:181-224 | it is the consumer's last iff it delivers one or finds nothing |
| `SenderQueue.OfferDecides` | integration/mihomo_tunnel/chitanda_sender_queue.go:89-149 | which packet an offer drops or queues, from age, count and byte limits |
| `SenderQueue.FinishDecides` | integration/mihomo_tunnel/chitanda_sender_queue.go:121-149 | so for a packet that waits for its place |
| `SenderRing.PacketQueue.PopHead` | integration/mihomo_tunnel/chitanda_sender_queue.go:158-163 | removes the oldest packet of the ring and its bytes |
| `SenderRing.PacketQueue.Grow` | integration/mihomo_tunnel/chitanda_sender_queue.go:130-140 | doubling up to the maximum keeps the packets and their order |
| `SenderRing.PacketQueue.Append` | integration/mihomo_tunnel/chitanda_sender_queue.go:130-144 | adds a packet at the back of the ring, across wrap-around |
| `SenderRing.PacketQueue.PushStart` | integration/mihomo_tunnel/chitanda_sender_queue.go:89-120 | on a full open queue the oldest packet is dropped iff it is more than 3 s old, otherwise the new one is; below 8192 packets the new one is taken iff both byte limits allow it; the reference push |
| `SenderRing.PacketQueue.PushFinish` | integration/mihomo_tunnel/chitanda_sender_queue.go:121-149 | takes the packet iff both byte limits allow it; the reference placement |
| `SenderRing.PacketQueue.TakeBatch` | integration/mihomo_tunnel/chitanda_sender_queue.go:179-224 | of the first min(max, length) packets, returns in order exactly those at most 3 s old and drops the others; shrinks an emptied ring |
| `SenderRing.PacketQueue.Close` | integration/mihomo_tunnel/chitanda_sender_queue.go:226-244 | empties the ring, returning every byte to the budget |
| `BytePipe.PipeIsQueue` | pkg/client/bufpipe.go:39-184 | over every interleaving of readers, writers and closes: bytes read followed by bytes queued are the bytes appended, within the capacity; each writer reports exactly what it appended |
| `BytePipe.ClosedIsFinal` | pkg/client/bufpipe.go:81-94 | nothing is appended after a close |
| `BytePipe.EndMeansAll` | pkg/client/bufpipe.go:47-56 | the end or an error is reported only when every byte that was or ever will be appended has been read |
| `BytePipe.EndIsFirstError` | pkg/client/bufpipe.go:47-94 | over every run: with nothing queued a reader is told the error of the first CloseWithError, the end after a plain close, and waits while the pipe is open; a writer is told the same error or that the pipe is closed, and otherwise appends if there is room |
| `BytePipeRing.BufferedPipe.Read` | pkg/client/bufpipe.go:39-75 | one turn of a reader: queued bytes first, then the error, then the end, else it waits; the turn of the bounded queue |
| `BytePipeRing.BufferedPipe.Grow` | pkg/client/bufpipe.go:114-123 | growth keeps the queued bytes, restarts the ring and never exceeds the capacity |
| `BytePipeRing.BufferedPipe.PutRun` | pkg/client/bufpipe.go:141-154 | a run that does not wrap is appended, and tail stays (head + count) modulo the length |
| `BytePipeRing.BufferedPipe.Write` | pkg/client/bufpipe.go:96-160 | one turn of a writer appends as much as the capacity allows, whatever the ring's size, and waits with the rest; after a close it reports the error |
| `UdpBudget.ReserveCounts` | pkg/server/udp_budget.go:24-32 | after a reservation the counters are the numbers of live leases, within 1024 and 256 |
| `UdpBudget.ReleaseCounts` | pkg/server/udp_budget.go:33-43 | so they are after a return, an identity without leases being forgotten |
| `UdpBudget.Releaser.Call` | pkg/server/udp_budget.go:32-43 | returns the lease the first time it is called and does nothing afterwards |
| `UdpRoutesProof.ApplyKeeps` | pkg/server/http3.go:408-471 | every locked section of every table and relay keeps the invariant |
| `UdpRoutesProof.GiveBackKeeps` | integration/xray/udp_routes.go:44-61 | so does closing a route, even twice |
| `UdpRoutesProof.BorrowKeeps` | pkg/server/plain_udp.go:399-402 | a plain UDP session that takes a lease from the same budget keeps it too |
| `UdpRoutesProof.LedgerIsSound` | integration/xray/udp_routes.go:133-288 | in every run, with plain UDP sessions drawing on the same budget, the counters are the live leases and within their limits, a table holds at most 1024 (a relay 64), and a key is in at most one of entries, ICMP entries and opening |
| `UdpRoutesProof.LeaseHasOnePlace` | integration/xray/udp_routes.go:198-288 | every live lease is at exactly one place of one table, held by a plain UDP session, or on its way back |
| `UdpRoutesProof.AllReturned` | integration/xray/udp_routes.go:449-468 | when no table and no session holds a lease and nothing is being closed, every lease has been returned |
| `UdpRoutesProof.ReturnedOnce` | pkg/server/http3.go:339-354 | a returned lease is never returned or used again |
| `UdpRoutesProof.UsedIsKept` | integration/xray/udp_routes.go:133-156 | a route that is used is not expired for a minute |
| `UdpRoutesProof.RelayAdmits` | pkg/server/http3.go:408-440 | a relay takes a new target exactly while it is open, has fewer than 64 and the budget has room |
| `UdpRouteTable.RouteTable.FindOldest` | integration/xray/udp_routes.go:168-184 | the scan finds a route used before the bound and least recently, iff there is one |
| `UdpRouteTable.RouteTable.EvictOldest` | integration/xray/udp_routes.go:158-194 | a table of 1024 loses its least recently used route, a UDP one before an ICMP one of the same age; a smaller one loses none |
| `UdpRouteTable.RouteTable.Begin` | integration/xray/udp_routes.go:198-235 | what a writer finds under the lock, in the order of the tests |
| `UdpRouteTable.RouteTable.Finish` | integration/xray/udp_routes.go:254-288 | publishes the route or gives up its lease |
| `UdpRouteTable.RouteTable.Expire` | integration/xray/udp_routes.go:133-156 | removes exactly the routes idle for 60 s or more |
| `ChunkedCoding.SizeParses` | pkg/client/conn_h1.go:363-373 | the size line the writer prints is parsed back to the size |
| `ChunkedCoding.ChunksThenEnd` | pkg/client/conn_h1.go:203-229 | the chunks of the writes followed by the closing bytes are the encoding |
| `ChunkedConn.ChunkedWriter.Write` | pkg/client/conn_h1.go:203-222 | a write is reported written exactly when the transport took the whole chunk, and then has put exactly its chunk on the wire |
| `ChunkedConn.ChunkedWriter.Close` | pkg/client/conn_h1.go:224-229 | puts on the wire what the transport takes of the last chunk and the empty trailer, all of it when it takes it all, and reports the transport's error only |
| `ChunkedConn.ChunkedReader.ReadLine` | pkg/client/conn_h1.go:340-361 | a line is kept across deadlines, bounded, and must end in CRLF |
| `ChunkedConn.ChunkedReader.ReadTrailers` | pkg/client/conn_h1.go:283-299 | reads trailer lines, within their bounds, until the empty one |
| `ChunkedConn.ChunkedReader.Read` | pkg/client/conn_h1.go:249-316 | does what the reference reader does, for every state, fragment and network |
| `ChunkedProof.LineSync` | pkg/client/conn_h1.go:340-361 | on any part of an encoding a line is either complete and right or still a part of the right line |
| `ChunkedProof.ReadDelivers` | pkg/client/conn_h1.go:249-316 | one call, from any point of the encoding, delivers the next bytes and stays in step |
| `ChunkedProof.PrefixOfWritten` | pkg/client/conn_h1.go:249-326 | whatever part of the encoding arrives and however it is broken off, an initial part of the writes is delivered, and the end is reported only if nothing was cut off and all was delivered |
| `ChunkedProof.RoundTrip` | pkg/client/conn_h1.go:203-316 | when the encoding arrives, in any fragments and with deadlines anywhere, exactly what was written is read, then the end |
| `IcmpChecksum.ResidueIsRemainder` | internal/icmpmsg/icmp.go:91-94 | the residue the checksum results are stated with is the remainder modulo 65535 |
| `IcmpChecksum.FoldMeaning` | internal/icmpmsg/icmp.go:91-94 | folding keeps the sum modulo 65535 and is zero only for zero |
| `IcmpChecksum.ZeroIffVerifies` | internal/icmpmsg/icmp.go:83-95 | the checksum over a packet is zero iff its word sum is positive and a multiple of 65535 |
| `IcmpChecksum.Checksum` | internal/icmpmsg/icmp.go:83-95 | the 32-bit loop computes the complement of the folded sum for every length up to 131074 |
| `EchoTokens.RewriteKeeps` | internal/icmpmsg/icmp.go:146-158 | a rewrite changes the token and the checksum and nothing else |
| `EchoTokens.Ipv4Verifies` | internal/icmpmsg/icmp.go:154-157 | an IPv4 packet verifies after every rewrite |
| `EchoTokens.AdjustedMeaning` | internal/icmpmsg/icmp.go:136-144 | the incremental update keeps checksum plus token modulo 65535 |
| `EchoTokens.Ipv6KeepsSum` | internal/icmpmsg/icmp.go:150-153 | an IPv6 rewrite keeps the sum modulo 65535 iff the checksum field is not zero or both tokens add the same |
| `EchoTokens.Ipv6Verifies` | internal/icmpmsg/icmp.go:136-158 | with any pseudo-header, an IPv6 echo packet that verifies still does after a rewrite iff its checksum field is not zero or both tokens add the same; then one that does not verify does not begin to |
| `EchoTokens.ZeroFieldIsNotUpdated` | internal/icmpmsg/icmp.go:150-153 | the echo request 80 00 00 00 00 00 00 00 verifies with a pseudo-header that adds 32767, and does not after a rewrite to the token 00 00 00 01 |
| `EchoTokens.ReplyIsRestored` | internal/icmpmsg/icmp.go:161-233 | a request is prepared with the next number of the process-wide counter; a reply with its wire token, less than a minute and fewer than 2^32 tokens later and not answered before, is answered with the request's own pair and otherwise unchanged, whatever this and other trackers do in between |
| `EchoTokens.ConsumedOnce` | internal/icmpmsg/icmp.go:221-233 | a consumed token is not found again before 2^32 tokens were given out |
| `EchoTokens.TokensDiffer` | internal/icmpmsg/icmp.go:180-180 | two tokens given out fewer than 2^32 apart differ |
| `EchoTokens.NeverTooMany` | internal/icmpmsg/icmp.go:170-181 | at most 2048 requests are outstanding |
| `EchoTokens.EchoTracker.PrepareRequest` | internal/icmpmsg/icmp.go:161-183 | validates the packet; if it is admitted and fewer than 2048 requests younger than a minute are outstanding, takes a token, records the original pair under it and rewrites the packet; otherwise refuses |
| `EchoTokens.EchoTracker.Validate` | internal/icmpmsg/icmp.go:119-134 | admits exactly packets of type 8 (128 for IPv6) and code 0 that, for IPv4, verify |
| `EchoTokens.StripsHeader` | internal/icmpmsg/icmp.go:187-207 | a message comes out of the raw packet as it is, with an IP header of any length in front or without |
| `EchoTokens.EchoTracker.RestoreReply` | internal/icmpmsg/icmp.go:210-233 | strips the IP header; answers exactly an echo reply (type 0, 129 for IPv6) whose token belongs to a request younger than a minute, with that request's own pair, and consumes the token |
| `EchoTokens.EchoTracker.Rewrite` | internal/icmpmsg/icmp.go:146-158 | computes the rewrite |

## Left out

- Cryptography: HMAC is not modelled; the record cipher is a parameter that opens only what was sealed (`Ideal`) and opens what was sealed (`Opens`). Key derivation and padding are left out.
- Torn log lines: the log is a sequence of whole records; a crash keeps the durable ones and any prefix of the others.
- Stale clock readings: a caller's `now` may lag behind the clock by up to 109 s in the admission runs and 2 s in the registry (0 in the session cleaner); the clock itself is nondecreasing and within 2^62 seconds of 1970.
- CrashSafety.NoDatagramTwice: for harmless runs; without a condition on crashes it is false (`LeftOver.ReplayAfterLeftOver`), and `CrashSafety.CrashIsSafeIff` and `CrashSafety.HarmlessIff` say that this one is exact.
- ReplayBitmap.ReplayWindow.Accept: the 64-bit words are sets of bit positions, not bit-vectors.
- `container/heap`: the expiry heap is a multiset with a minimum; its array layout is not modelled.
- QueuedWriter, QueuedReader and PipeQueue are step machines over values; timers and deadline channels are steps that may happen at any time, so nothing is claimed about when a deadline fires. `Write`, which splits long buffers into packets, and `WriteDatagrams` batching are left out. What a call of PipeQueue returns is left out.
- RawWriter: buffer capacities and their reuse are left out; `burstBytes` is unbounded.
- Chunked reading: a connection read that returns bytes together with an error is not modelled; the library's header-line test is a parameter; response headers are left out.
- EchoTokens.EchoTracker.PrepareRequest: takes one clock reading for the purge and the record; the source reads the clock at each.
- SenderQueue: CompactChitandaData, the drop counter and the batch writer behind the queue are left out; a packet's size is given.
- UdpRoutes: dialling, dispatch and the receive loops appear only as the steps at which they finish, fail or remove a route; plain UDP sessions appear only as holders of leases; waiting for a creation in progress is left out.
- IdleExpiry: the session worker of pkg/server/plain_udp.go appears only as its admission and its cleaner.
- h1session and frame stream readers and writers are left out; they have the shape of RawStream with less branching.
- Address codecs, configuration, autoscaling, probing, TLS, QUIC, HTTP/2 and command-line programs are left out.
