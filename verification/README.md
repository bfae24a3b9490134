# The Linux block layer, and two ciphers, verified

A Dafny model of the parts of the Linux block layer whose correctness shows only over whole runs, and of two
ciphers of the crypto layer. Each part is a set of functions on values that follow the C code branch by branch,
proofs about all its runs or inputs, and, where the code works in place, a class or methods with loops that are
proved to refine those functions.

| files | what they model |
|---|---|
| `BlkFlush`, `BlkFlushInvariant`, `BlkFlushOutcome`, `BlkFlushQueue` | the FLUSH/FUA sequencer over a device with a volatile cache |
| `Segments`, `BlkRequest`, `BlkRequestProofs`, `BlkRequestData`, `BlkRequestLedger`, `RequestObject` | merging bios and requests, counting and mapping segments, completion |
| `BioSplit`, `BioSubmit`, `BioChain` | splitting to queue limits, the submission loop, chained completion |
| `BlkMq`, `BlkMqInvariant`, `BlkMqOutcome`, `HwQueue` | inserters and runners of a multi-queue hardware context |
| `Tags`, `TagsProofs`, `TagsCache`, `TagsNumbers`, `TagMap`, `TagsAlone` | the tag allocator |
| `Deadline`, `DeadlineProofs`, `DeadlineStarvation`, `DeadlineOrder`, `DeadlineQueue` | the deadline scheduler |
| `Cfq`, `CfqAccounting`, `CfqShares`, `CfqExact`, `CfqGroups` | group accounting and fractions of CFQ |
| `Elevator`, `ElevatorProofs`, `ElevatorOrder`, `ElevatorQueue` | the merge hash |
| `Discard`, `DiscardSubmit` | cutting discards, and their submission |
| `AesTables`, `AesField`, `AesRounds`, `Aes`, `AesVectors`, `AesContext` | AES |
| `Arc4` | ARC4 |
| `Common` | shared definitions |

`dafny verify dfyconfig.toml` checks everything.

## How it is modelled

- A protocol is a state, a function per step, and `Run`, which folds an arbitrary list of events; an event that is
  not enabled changes nothing. Concurrent code takes atomic steps under sequential consistency. Theorems speak of
  every state that some run reaches.
- Object identities are numbers. A class holds the same state in fields and arrays; its methods promise that the
  new state is the model's function of the old one, or a run of the machine.
- Where a list index or an identity could be stale, the model's step does nothing; the invariants show that no
  reachable state comes to that.
- BUG_ON and WARN_ON become flags that are proved to stay false.
- Flush: a request without data does not ask for FUA, as block/blk-flush.c:13-17 says, and a device with FUA has a
  cache to flush (block/blk-settings.c:832-840). A flush is taken to cover the writes that were complete when the
  flush request was queued. HZ is 100; nothing depends on it.
- Segments: physical contiguity together with the segment boundary, the gap test and the maximum request size
  are arbitrary functions. Vectors are non-empty and whole sectors, and so is
  every completion.
- blk-mq: the mapping of software queues to the hardware queue is fixed. `lazy` records that a request was
  inserted without asking for a run.
- Splitting: chunk size and logical block size are powers of two in the kernel, so its masks are remainders here.
  A bio is ended by whoever holds it at most once, and a bio is chained only to an older one. While a bio is being
  submitted, the pieces that have gone out may be completed at any time, wholly or by half.
- Deadline: jiffies never goes back, the tunables are constant, rb-trees are sorted sequences.
- CFQ: weights are positive, as the cgroup interface enforces; a group comes after its parent. An unsigned long has
  32 or 64 bits.
- Tags: a cached tag that is looked up in a word outside the map raises a flag, and nothing happens after that.
  Depth changes may ask for anything, at any time; `TagsCache` says exactly which of them can raise the flag.
  There are fewer reserved tags than tags (block/blk-mq.c:2274), and at most 2^31 tags where a row compares the cache
  with a wrapped depth; the kernel allows far fewer.
- AES: the second to fourth rows of each table are the first row rotated by 8, 16 and 24 bits; the first rows are
  the source's literals. The S-box and its inverse are the last-round tables.
- Discard: the alignment is non-negative and below the granularity, which C's unsigned remainder makes it.

## Where the code does less than its comments

- `include/linux/blkdev.h:878-890` returns a maximum request size that ignores max_sectors when chunk_sectors is
  set (`ChunkOverridesMax`, `ChunkExceedsMax`). With less than a logical block left the limit is zero and the
  first vector goes out whole (`SegmentSplit`).
- `block/deadline-iosched.c:22` calls writes_starved the number of times reads can starve a write; set to zero it
  lets writes starve reads without bound (`ReadStarves`).
- `block/blk-mq-tag.c:659-672` compares the new depth with the total number of tags, not with the size of the map,
  and treats a depth of zero as no change to the words while `depth - 1` wraps. A cached tag can then lead outside the
  map (`LeadsOutsideRuns`, `CacheSafeExactly`), also when the caller asks for exactly the reserved tags
  (`CallerSafeExactly`), and a tag behind the request table can be handed out (`NumbersTabledExactly`).
- `block/cfq-iosched.c:952` shifts in an unsigned long before it widens, so that with 32 bits a large charge is lost
  (`ChargeLost`, `ScaleChargeExactly`, `ServingAdvancesExactly`).

## Model

| member | source | states |
|---|---|---|
| `BlkFlushInvariant.Durability` | block/blk-flush.c:166-274 | In every reachable state: a request that ended without error has its data written, and on stable media if it asked for FUA; one that asked for FLUSH has every write that was complete at its insertion on stable media, and already so when its data is queued; the driver sees REQ_FUA exactly when the device supports it |
| `BlkFlushInvariant.BioEndedOnce` | block/blk-flush.c:119-131 | For every policy, capability and error point the single bio of a FLUSH/FUA request is ended exactly once, and only when the request has left the sequencer |
| `BlkFlushInvariant.DoubleBuffer` | block/blk-flush.c:290-337 | No BUG_ON fires; a flush is in flight iff the two indices differ; the one flush request is queued or executing, never both; with none in flight the other queue is empty |
| `BlkFlushInvariant.OnItsList` | block/blk-flush.c:174-216 | A sequenced request is on exactly one list, once, and it is the list its current step demands |
| `BlkFlushInvariant.NoStall` | block/blk-flush.c:302-311 | A request on the pending queue always has a flush or sequenced data under way that will kick it |
| `BlkFlushOutcome.FailedExactly` | block/blk-flush.c:166-350 | In every run a request ends with an error iff the device failed its own data or a flush that it waited for |
| `BlkFlushOutcome.GoodEnds` | block/blk-flush.c:166-350 | So where neither its data nor any flush fails, a request does not end with an error, and has ended without one as soon as nothing is queued for or executing in the driver |
| `BlkFlushOutcome.StepResult` | block/blk-flush.c:220-350 | Step by step: which event gives a request which result, and that a result once given stays |
| `BlkFlushOutcome.FlushDoneResults` | block/blk-flush.c:220-274 | The end of a flush tells its outcome to all who waited for it and changes nobody else |
| `BlkFlushOutcome.DataDoneResult` | block/blk-flush.c:339-350 | The end of the data gives its request an error iff it failed and changes no other |
| `BlkFlushOutcome.InsertWay` | block/blk-flush.c:384-448 | Which way a request takes on every kind of device: it ends at once, goes straight to the driver, waits for a flush, or has its data queued first |
| `BlkFlushInvariant.CompleteSeqKeeps` | block/blk-flush.c:166-218 | Completing any step, with or without error, keeps the invariant for every other request and for the one advanced |
| `BlkFlushInvariant.QueueForFlushKeeps` | block/blk-flush.c:183-189 | Queueing for a flush keeps the invariant and leaves the request on the pending queue only |
| `BlkFlushInvariant.QueueDataKeeps` | block/blk-flush.c:191-194 | Queueing the data keeps the invariant; what the request's FLUSH asked for is stable by then |
| `BlkFlushInvariant.FinishKeeps` | block/blk-flush.c:196-210 | The final step ends the bio once and meets the durability promise |
| `BlkFlushInvariant.KickKeeps` | block/blk-flush.c:290-337 | Issuing a flush keeps the invariant: everybody waiting is served by what has been written by then |
| `BlkFlushInvariant.PushAllKeeps` | block/blk-flush.c:239-254 | The loop over the requests that waited for a flush advances each of them and leaves the list consistent, although advancing one may start the next flush |
| `BlkFlushInvariant.FlushDoneKeeps` | block/blk-flush.c:220-274 | The end of a flush, good or bad, keeps the invariant; who then ends with what is FlushDoneResults |
| `BlkFlushInvariant.DataDoneKeeps` | block/blk-flush.c:339-350 | The end of the data of a request, good or bad, keeps the invariant |
| `BlkFlushInvariant.InsertKeeps` | block/blk-flush.c:384-448 | Every way of inserting a request (nothing to do, data only, sequenced) keeps the invariant |
| `BlkFlushInvariant.StaysQuiet` | block/blk-flush.c:166-218 | After a request has been advanced the queue is kicked whenever it has to be |
| `BlkFlushInvariant.DispatchKeeps` | block/blk-flush.c:133-145 | Handing the next entry of the dispatch queue to the driver keeps the invariant |
| `BlkFlushInvariant.ProgressKeeps` | block/blk-core.c:2574-2659 | Partial completion of the data of a sequenced request keeps the invariant and ends no bio |
| `BlkFlushInvariant.NextKeeps` | block/blk-flush.c:98-448 | Every event keeps the invariant |
| `BlkFlushInvariant.RunKeeps` | block/blk-flush.c:98-448 | Every run, of any length and with any values of jiffies, keeps the invariant |
| `BlkFlushQueue.FlushQueue.constructor` | block/blk-flush.c:503-532 | A new flush queue is the initial state of the sequencer |
| `BlkFlushQueue.FlushQueue.KickFlush` | block/blk-flush.c:290-337 | The flush request goes to the tail of the dispatch queue iff none is in flight, somebody waits, and no data is in flight or the wait has timed out; then the running queue is the one that was pending and the flush covers what has been written; otherwise nothing changes |
| `BlkFlushQueue.FlushQueue.Unlink` | block/blk-flush.c:188-204 | The request is on no list, and every other request is on the lists it was on |
| `BlkFlushQueue.FlushQueue.QueueForFlush` | block/blk-flush.c:183-189 | The request is last on the pending queue and on no other list, the others stay where they were, and the timestamp is set iff the queue was empty |
| `BlkFlushQueue.FlushQueue.QueueData` | block/blk-flush.c:191-194 | The request is last on the in-flight list, on neither flush queue, and next to be dispatched; the others stay where they were |
| `BlkFlushQueue.FlushQueue.Finish` | block/blk-flush.c:196-210 | The request is on no list and has its result; a bio no longer than the request is ended once and done; no other request changes |
| `BlkFlushQueue.FlushQueue.Advance` | block/blk-flush.c:182-214 | The request is where its step demands, the others stay where they were, and the answer says whether the dispatch queue has grown by it |
| `BlkFlushQueue.FlushQueue.CompleteSeq` | block/blk-flush.c:166-218 | Returns true iff something was added to the dispatch queue; the request is off all lists iff it is done, in flight iff its data is next, and the others stay where they were |
| `BlkFlushQueue.FlushQueue.PushWaiting` | block/blk-flush.c:248-254 | The loop over the requests that waited refines the recursion of the sequencer, and reports whether the dispatch queue has grown |
| `BlkFlushQueue.FlushQueue.FlushDone` | block/blk-flush.c:220-274 | In place: refines the end of a flush and keeps the invariant; those who waited end with an error iff the flush failed, nobody else changes, and a run of the queue is asked for iff something was added to it |
| `BlkFlushQueue.FlushQueue.DataDone` | block/blk-flush.c:339-350 | In place: refines the end of the data and keeps the invariant; the request ends with an error iff the data failed, and a run of the queue is asked for iff something was added to it |
| `BlkFlushQueue.FlushQueue.InsertFlush` | block/blk-flush.c:384-448 | In place: refines insertion and keeps the invariant |
| `Segments.GreedyGrouping` | block/blk-merge.c:358-398 | The grouping that the counter and the mapper build is legal: contiguous, within the segment size, in order |
| `Segments.GreedyStaysAhead` | block/blk-merge.c:219-287 | Against any legal grouping the greedy one has fewer segments, or as many with a last one no larger |
| `Segments.GreedyOptimal` | block/blk-merge.c:219-287 | No legal grouping of the vectors has fewer segments than the greedy one |
| `Segments.GroupingConcat` | block/blk-merge.c:494-518 | Groupings of two neighbours put side by side are a grouping |
| `Segments.GroupingJoin` | block/blk-merge.c:323-356 | Groupings whose touching segments are contiguous and small enough may share one segment |
| `BlkRequestProofs.MapWithinCount` | block/blk-merge.c:445-491 | After any sequence of bio merges, request merges (failed ones too) and completions, mapping a request needs at most nr_phys_segments scatterlist entries |
| `BlkRequestProofs.ShapeAlways` | block/blk-core.c:2574-2686 | In the same runs __data_len is the sum of the bios, __sector the first bio's sector, and the bios are contiguous |
| `BlkRequestProofs.RecalcFits` | block/blk-merge.c:219-287 | The recount is achieved by a grouping whose first and last sizes the refreshed bounds cover; the bounds only grow and the data is untouched |
| `BlkRequestProofs.BackMergeKeeps` | block/blk-core.c:1549-1569 | A back merge, granted or refused, keeps the shape and the segment bound; when it is granted and what the request then holds is BackMergeData |
| `BlkRequestProofs.FrontMergeKeeps` | block/blk-core.c:1571-1593 | A front merge, granted or refused, keeps the shape and the segment bound |
| `BlkRequestProofs.SpreadSizeKeeps` | block/blk-merge.c:602-608 | Spreading the joint segment size over both requests keeps both bounds even if the merge is then refused |
| `BlkRequestProofs.AttemptMergeKeeps` | block/blk-merge.c:672-747 | A request merge, granted or refused, keeps the shape and the segment bound of both |
| `BlkRequestData.BackMergeData` | block/blk-core.c:1549-1569 | A bio goes to the back of a request iff there is no forbidden gap and neither size nor segments exceed their limit; the request then holds its data behind its own, otherwise its own alone; a limit reached ends merging |
| `BlkRequestData.FrontMergeData` | block/blk-core.c:1571-1593 | The same at the front, where the request then starts with the bio |
| `BlkRequestData.AttemptMergeData` | block/blk-merge.c:672-747 | A request absorbs another iff both may merge, the other starts where it ends, and gap, size and segments allow it; then it holds the data of both and the other none |
| `BlkRequestLedger.EveryByteOnce` | block/blk-core.c:1549-1593 | Over every run of submissions, merges, request merges and completions, each byte accepted is in exactly one request, due at the place on the disk it was submitted for, or was completed |
| `BlkRequestLedger.StepConserves` | block/blk-core.c:2574-2686 | The same balance for one operation |
| `BlkRequestProofs.RemainingSpec` | block/blk-core.c:2631-2646 | Completing n bytes leaves exactly the rest of the data, at the right sector, as contiguous non-empty bios |
| `BlkRequestProofs.NotBotched` | block/blk-core.c:2676-2679 | The branch that reports a botched request cannot be taken |
| `BlkRequestProofs.UpdateRequestKeeps` | block/blk-core.c:2574-2686 | Every partial completion keeps the shape and the segment bound |
| `BlkRequestProofs.CompletionExact` | block/blk-core.c:2574-2686 | A request has more to do iff fewer bytes than it has were completed, and then it is the rest of its data; completing all its bytes always finishes it |
| `BlkRequestProofs.EndedExactly` | block/blk-core.c:145-159 | A bio is ended by a completion iff the completion reaches its end |
| `BlkRequestProofs.NextKeeps` | block/blk-core.c:1549-1593 | Every operation keeps shape and bound of every request in the pool |
| `BlkRequestProofs.RunKeeps` | block/blk-core.c:1549-1593 | Every sequence of operations does |
| `RequestObject.CountVector` | block/blk-merge.c:236-273 | One turn of the counting loop extends the greedy grouping by one vector |
| `RequestObject.RecalcSegments` | block/blk-merge.c:219-287 | The nested counting loops return the size of the greedy grouping and refresh the bounds of the first and last bio |
| `RequestObject.SegmentMapSg` | block/blk-merge.c:358-398 | One turn of the mapping loop extends the scatterlist as the greedy grouping grows |
| `RequestObject.MapSg` | block/blk-merge.c:401-443 | The mapper's entries are the greedy segments, so it emits as many as the counter counts |
| `RequestObject.Request.constructor` | block/blk-core.c:2974-2988 | A request made from one bio |
| `RequestObject.Request.BackMerge` | block/blk-core.c:1549-1569 | In place: refines the back merge, keeps the invariant, and holds the bio behind its own data iff it was merged |
| `RequestObject.Request.FrontMerge` | block/blk-core.c:1571-1593 | In place: refines the front merge, keeps the invariant, and holds the bio in front of its own data iff it was merged |
| `RequestObject.Request.AttemptMerge` | block/blk-merge.c:672-747 | In place, on two objects: refines the request merge, keeps both invariants, and moves all data or none |
| `RequestObject.Request.EndBytes` | block/blk-core.c:2631-2646 | The loop over the bios leaves exactly what n completed bytes leave, and reports how many bytes it consumed |
| `RequestObject.Request.UpdateRequest` | block/blk-core.c:2574-2686 | In place: refines the completion and keeps the invariant |
| `Aes.RoundTrip` | crypto/aes_generic.c:1329-1440 | For every key of 16, 24 or 32 bytes and every block, decrypting the encrypted block gives the block back |
| `AesVectors.Example` | crypto/aes_generic.c:1329-1368 | The worked example of appendix C.1 of FIPS 197: the enciphered block, byte by byte, and back |
| `AesVectors.Words192` | crypto/aes_generic.c:1160-1175 | The first two words the expansion of a 192-bit key adds, as in appendix A.2 of FIPS 197 |
| `AesVectors.Words256` | crypto/aes_generic.c:1177-1200 | The first, fourth and fifth word a 256-bit key adds, the fifth with the extra substitution, as in appendix A.3 |
| `Aes.RconPowers` | crypto/aes_generic.c:63-63 | The round constants are the powers of two in GF(2^8) |
| `Aes.EqInvCipherUndoes` | crypto/aes_generic.c:1401-1440 | The Equivalent Inverse Cipher with a transformed reversed schedule undoes the cipher, for any number of rounds |
| `Aes.Peel` | crypto/aes_generic.c:1401-1440 | Invariant of the decryption rounds: they meet the encryption rounds coming the other way |
| `Aes.DecScheduleIsDecKey` | crypto/aes_generic.c:1253-1266 | The decryption schedule is the reversed one with InvMixColumns on the inner round keys (FIPS 197 section 5.3.5) |
| `Aes.FNroundIsRound` | crypto/aes_generic.c:1300-1313 | The table form of a round is SubBytes, ShiftRows, MixColumns, AddRoundKey |
| `Aes.FLroundIsRound` | crypto/aes_generic.c:1315-1327 | The table form of the last round is SubBytes, ShiftRows, AddRoundKey |
| `Aes.INroundIsRound` | crypto/aes_generic.c:1372-1385 | The table form of an inverse round is InvSubBytes, InvShiftRows, InvMixColumns, AddRoundKey |
| `Aes.ILroundIsRound` | crypto/aes_generic.c:1387-1399 | The table form of the last inverse round is InvSubBytes, InvShiftRows, AddRoundKey |
| `Aes.StoreLoad` | crypto/aes_generic.c:1329-1341 | Loading a block as little-endian columns and storing it gives the bytes back |
| `Aes.LoadStore` | crypto/aes_generic.c:1329-1341 | Storing columns and loading them gives the columns back |
| `AesField.StarXIsXtime` | crypto/aes_generic.c:1128-1128 | The packed doubling is multiplication by x in GF(2^8) on all four bytes at once |
| `AesField.XtimeFips` | crypto/aes_generic.c:1128-1128 | Multiplication by x is the shift reduced by x^8 + x^4 + x^3 + x + 1 |
| `AesField.ImixColIsInvMix` | crypto/aes_generic.c:1130-1139 | imix_col multiplies the column by the InvMixColumns matrix |
| `AesField.ImixColCancels` | crypto/aes_generic.c:1130-1139 | imix_col undoes MixColumns on every column |
| `AesField.ImixColAdd` | crypto/aes_generic.c:1130-1139 | imix_col is additive, so it may be moved past AddRoundKey |
| `AesRounds.SboxInverse` | crypto/aes_generic.c:857-923 | The inverse S-box table undoes the S-box table on every byte |
| `AesRounds.SboxInverts` | crypto/aes_generic.c:329-395 | Every entry of the S-box table is the affine map of FIPS 197 section 5.1.1 applied to the multiplicative inverse of its index, or to zero for zero |
| `AesRounds.FtTabIsMix` | crypto/aes_generic.c:65-131 | Every entry of the first forward table is the MixColumns column of the S-box byte |
| `AesRounds.ItTabIsInvMix` | crypto/aes_generic.c:593-659 | Every entry of the first inverse table is the InvMixColumns column of the inverse S-box byte |
| `AesRounds.FColumnIsMix` | crypto/aes_generic.c:1300-1305 | Four forward look-ups make MixColumns of the substituted column |
| `AesRounds.IColumnIsInvMix` | crypto/aes_generic.c:1372-1377 | Four inverse look-ups make InvMixColumns of the substituted column |
| `AesRounds.FlColumnIsSub` | crypto/aes_generic.c:1315-1320 | Four last-round look-ups substitute the four bytes |
| `AesRounds.IlColumnIsInvSub` | crypto/aes_generic.c:1387-1392 | Four inverse last-round look-ups substitute the four bytes back |
| `AesRounds.InvMixColumnsUndoes` | crypto/aes_generic.c:1130-1139 | InvMixColumns undoes MixColumns on the state |
| `AesRounds.InvSubShiftUndoes` | crypto/aes_generic.c:1387-1399 | InvSubBytes and InvShiftRows undo SubBytes and ShiftRows |
| `AesContext.LsBox` | crypto/aes_generic.c:1141-1145 | ls_box substitutes the four bytes of a word |
| `AesContext.Context.Loop` | crypto/aes_generic.c:1147-1175 | One group of the 128- or 192-bit schedule, filled in place, is the FIPS 197 key expansion |
| `AesContext.Context.Loop8TopHalf` | crypto/aes_generic.c:1177-1188 | The first half of a 256-bit group |
| `AesContext.Context.Loop8` | crypto/aes_generic.c:1190-1200 | A whole 256-bit group, with the extra substitution in the middle |
| `AesContext.Context.FillEnc` | crypto/aes_generic.c:1227-1256 | key_enc is filled with the expanded key |
| `AesContext.Context.FillDecEnds` | crypto/aes_generic.c:1227-1261 | The first and last round keys of key_dec are those of key_enc, exchanged |
| `AesContext.Context.FillDec` | crypto/aes_generic.c:1258-1266 | The loop with its masked index fills the rest of key_dec with the reversed, transformed schedule |
| `AesContext.Context.ExpandKey` | crypto/aes_generic.c:1216-1268 | Accepts exactly the three key lengths and then leaves both schedules in place |
| `AesContext.Context.EncRound` | crypto/aes_generic.c:1307-1313 | One table round from one buffer to the other is a round of the cipher |
| `AesContext.Context.EncLast` | crypto/aes_generic.c:1322-1327 | The last round |
| `AesContext.Context.EncTail` | crypto/aes_generic.c:1353-1362 | The rounds common to all key lengths |
| `AesContext.Context.Encrypt` | crypto/aes_generic.c:1329-1368 | aes_encrypt, with its round count chosen by key length, is the cipher |
| `AesContext.Context.DecRound` | crypto/aes_generic.c:1379-1385 | One inverse table round from one buffer to the other |
| `AesContext.Context.DecLast` | crypto/aes_generic.c:1394-1399 | The last inverse round |
| `AesContext.Context.DecTail` | crypto/aes_generic.c:1425-1434 | The inverse rounds common to all key lengths |
| `AesContext.Context.Decrypt` | crypto/aes_generic.c:1401-1440 | aes_decrypt is the Equivalent Inverse Cipher |
| `BlkMqInvariant.NoLostBit` | block/blk-mq.c:690-718 | Under every interleaving: a non-empty software queue with a clear bit has a runner that cleared it and has not spliced yet, or its lock is held by an inserter that has yet to mark it |
| `BlkMqInvariant.QueuesExist` | block/blk-mq.c:690-718 | No thread ever looks for a software queue that is not there |
| `BlkMqInvariant.OneHome` | block/blk-mq.c:726-831 | Every request handed in is in exactly one place - a thread's list, a software queue, the dispatch list, the driver or ended - and no list holds one twice |
| `BlkMqInvariant.RunForward` | block/blk-mq.c:752-798 | Along every run a request is never forgotten, never leaves the driver but to end, and never leaves its end |
| `BlkMqInvariant.NextForward` | block/blk-mq.c:752-798 | The same for one step |
| `BlkMqInvariant.Quiescent` | block/blk-mq.c:802-831 | When no thread is at work, no run is scheduled and the queue is not stopped, every request is with the driver or ended, or sits marked in a queue that was filled without asking for a run |
| `BlkMqOutcome.HandedExactly` | block/blk-mq.c:764-805 | After every run a request is with the driver or has ended iff it was so before or the driver took or failed it during the run |
| `BlkMqOutcome.StepOutcome` | block/blk-mq.c:764-805 | Step by step: the driver has a request from its taking it until it completes it; a request ends by that or by being failed |
| `BlkMqOutcome.StoppedExactly` | block/blk-mq.c:897-920 | After every step a queue is stopped iff the step stops it, or it was stopped and the step does not start it |
| `BlkMqOutcome.StartRuns` | block/blk-mq.c:915-920 | Starting a queue runs it, at once or by the work it schedules |
| `BlkMqInvariant.PassClearBit` | block/blk-mq.c:703-706 | A runner may pass a clear bit: whoever cleared it, or is about to set it, owes the queue a visit |
| `BlkMqInvariant.InsertStepPlaces` | block/blk-mq.c:977-1058 | Every inserter step keeps each request in one place |
| `BlkMqInvariant.InsertStepLocks` | block/blk-mq.c:999-1020 | Every inserter step keeps lock and holder in agreement |
| `BlkMqInvariant.InsertStepMarks` | block/blk-mq.c:64-71 | Every inserter step keeps clear bits accounted for |
| `BlkMqInvariant.InsertStepOwes` | block/blk-mq.c:1051-1056 | Every inserter step keeps a visit owed to each queue that was to be run |
| `BlkMqInvariant.CollectStepPlaces` | block/blk-mq.c:690-750 | Every collecting step keeps each request in one place |
| `BlkMqInvariant.CollectStepMarks` | block/blk-mq.c:703-712 | Every collecting step keeps clear bits accounted for |
| `BlkMqInvariant.CollectStepOwes` | block/blk-mq.c:703-712 | Every collecting step keeps the visit owed |
| `BlkMqInvariant.CollectStepSends` | block/blk-mq.c:745-750 | Every collecting step keeps the dispatch list attended to |
| `BlkMqInvariant.IssueStepPlaces` | block/blk-mq.c:761-815 | Every issuing step keeps each request in one place |
| `BlkMqInvariant.IssueStepKeeps` | block/blk-mq.c:814-831 | Every issuing step, stop and restart keeps locks, bits and owed visits |
| `BlkMqInvariant.ControlOwes` | block/blk-mq.c:897-946 | Running, stopping and restarting from outside keep owed visits and the dispatch list attended to |
| `BlkMqInvariant.NextKeeps` | block/blk-mq.c:690-1058 | Every event keeps the invariant |
| `BlkMqInvariant.RunKeeps` | block/blk-mq.c:690-1058 | Every run does |
| `HwQueue.HwQueue.constructor` | block/blk-mq.c:1678-1746 | A new hardware queue is the initial state of the machine |
| `HwQueue.HwQueue.Visit` | block/blk-mq.c:703-715 | One turn of the loop, in place: a clear bit is passed, a set one cleared and its queue spliced |
| `HwQueue.HwQueue.FlushBusyCtxs` | block/blk-mq.c:690-718 | Undisturbed: returns the requests of all pending queues in queue order, empties those and clears their bits, leaves the others alone; a run of the machine |
| `HwQueue.HwQueue.GrabDispatch` | block/blk-mq.c:745-750 | What an earlier run left goes in front; a run of the machine |
| `HwQueue.HwQueue.IssueOne` | block/blk-mq.c:761-798 | The driver takes, fails or refuses the first request; a step of the machine |
| `HwQueue.HwQueue.IssueAll` | block/blk-mq.c:760-831 | The driver gets the requests in order up to the first it refuses; that and the rest go to the dispatch list in order and a rerun is scheduled unless the queue is stopped; a run of the machine |
| `HwQueue.HwQueue.RunHwQueue` | block/blk-mq.c:726-831 | A whole undisturbed run: leftovers first, then queue order; refused requests are kept in that order with a run scheduled; a stopped queue is left alone; a run of the machine, after which the invariant holds and no lock is held |
| `HwQueue.HwQueue.KickQueue` | block/blk-mq.c:860-879 | Whether the caller runs the queue, schedules the work or does nothing; a step of the machine |
| `HwQueue.HwQueue.Kicked` | block/blk-mq.c:860-879 | The same followed by the run itself, the invariant being kept |
| `HwQueue.HwQueue.AddRequest` | block/blk-mq.c:977-988 | Head or tail insertion; a step of the machine |
| `HwQueue.HwQueue.AddAll` | block/blk-mq.c:1044-1050 | The loop adds all requests, in order at the tail or one by one at the head; a run of the machine |
| `HwQueue.HwQueue.MarkPending` | block/blk-mq.c:64-71 | The bit is set whatever it was and the lock released; a run of the machine |
| `HwQueue.HwQueue.InsertRequests` | block/blk-mq.c:1022-1058 | The requests are in the queue, behind what was there in their order or in front of it in the opposite order, the queue is pending, and the invariant holds; a run of the machine |
| `HwQueue.SpreadIs` | block/blk-mq.c:977-988 | Requests added at the tail follow in their order, requests added at the head in the opposite one |
| `HwQueue.BusyListsAre` | block/blk-mq.c:690-718 | The collected list holds the requests of every pending queue and of no other, in the order of the queues |
| `BioChain.OnceAfterAllPieces` | block/bio.c:1755-1783 | For a bio and the pieces chained to it, any of which may have been completed already, whatever happens afterwards and in any order: its end_io never runs twice, only after every piece was ended, and has run once everything was ended |
| `BioChain.PiecesStay` | block/bio.c:1755-1783 | Completions of the pieces, whole or half done, leave the chain as it is |
| `BioChain.PieceCut` | block/bio.c:330-337 | Cutting off one more piece extends the chain, whatever is completed while the piece is being made |
| `BioChain.EndsOnceAfterAll` | block/bio.c:1727-1743 | In every forest of chained bios no BUG_ON fires, an end_io runs at most once, and never before the bio and all chained to it are complete |
| `BioChain.EndsWhenAllEnd` | block/bio.c:1755-1783 | Once a bio and all chained to it, directly or not, were ended and no bio_endio is under way at them, its end_io has run |
| `BioChain.ChainKeeps` | block/bio.c:312-337 | Chaining keeps __bi_remaining equal to what is outstanding |
| `BioChain.EndioKeeps` | block/bio.c:1755-1757 | So does the owner's call of bio_endio |
| `BioChain.TurnKeeps` | block/bio.c:1727-1781 | So does every turn of the loop, also when it moves on to the parent |
| `BioChain.NextKeeps` | block/bio.c:269-337 | Every event keeps the invariant |
| `BioChain.RunKeeps` | block/bio.c:269-337 | Every interleaving of allocations, chainings, completions and loop turns does |
| `BioChain.EndIoStays` | block/bio.c:330-337 | A bio keeps the end_io it was given |
| `BioChain.Bios.constructor` | block/bio.c:269-275 | No bios |
| `BioChain.Bios.New` | block/bio.c:269-275 | The new bio waits for nobody but its owner; the others, and what they wait for, are unchanged; the invariant is kept |
| `BioChain.Bios.ChainTo` | block/bio.c:330-337 | The parent waits for exactly one more and its count is one higher, the child has the chaining end_io, no other bio changes or waits for more; the invariant is kept |
| `BioChain.Bios.OneTurn` | block/bio.c:1727-1781 | In place: one turn of the loop is the machine's step, and the next bio is an older one |
| `BioChain.Bios.End` | block/bio.c:1755-1783 | The loop climbs to the last parent it completes, is a run of the machine, and leaves no completion half done |
| `BioSplit.SegmentSplit` | block/blk-merge.c:84-188 | The piece respects vector count, gaps, segments and size; a split happens iff the whole bio does not; bio_split's bounds hold; the counted segments are achieved; the cut is at the size limit or in front of a vector that cannot follow; with a zero limit the piece is the first vector |
| `BioSplit.MaxIoInChunk` | block/blk-merge.c:72-82 | The size limit never crosses a chunk boundary and is whole blocks; it is zero exactly when less than a block is left |
| `BioSplit.MaxIoExactly` | block/blk-merge.c:72-82 | The size limit is the greatest number of whole blocks up to the end of the chunk, or up to max_sectors without chunks |
| `BioSplit.ChunkOverridesMax` | block/blk-merge.c:72-82 | max_sectors is respected at every sector iff there are no chunks or a chunk, in whole blocks, is no larger |
| `BioSplit.ChunkExceedsMax` | block/blk-merge.c:72-82 | Of a bio of two pages at the start of a queue with chunks of sixteen sectors and max_sectors of eight, blk_bio_segment_split cuts nothing: sixteen sectors go out whole |
| `BioSplit.GreedyGroups` | block/blk-merge.c:141-165 | Some legal grouping has at most n segments iff the count of the loop does not exceed n |
| `BioSplit.LegalPrefix` | block/blk-merge.c:98-166 | Whatever respects the limits does so after any vectors at its end are dropped |
| `BioSplit.StopWhole` | block/blk-merge.c:114-125 | A stop in front of a vector that cannot follow is a good cut |
| `BioSplit.StopInside` | block/blk-merge.c:127-138 | A stop inside a vector, at the size limit, is a good cut |
| `BioSplit.NoStop` | block/blk-merge.c:168-187 | A loop that passes every vector leaves a bio that needs no cut |
| `BioSubmit.QueueSplit` | block/blk-merge.c:190-216 | The piece is fit for the driver, follows the limits of its own start, and with the rest holds every byte in order; the rest is smaller and ends where the bio ended; an uncut bio comes out with segment counts that request merging may rely on |
| `BioSubmit.MakeRequest` | block/blk-core.c:2026-2087 | A non-empty bio is refused whole where its range does not lie in its partition and on its disk, as far as their sizes are known; otherwise its pieces cover it in order from the start shifted once by the partition offset, each on the device and fit for the driver; only a dying queue leaves a rest; any pieces may be completed before and during every turn, and the bios end up chained as OnceAfterAllPieces requires |
| `BioSubmit.Submit` | block/blk-core.c:2062-2083 | The loop over the bio list terminates and does so, whatever completions run between its turns |
| `BioSubmit.OneTurn` | block/blk-core.c:2068-2082 | One turn: a piece fit for the driver, and either nothing left or a smaller rest that has passed the checks; pieces and rest still hold the bio in order |
| `BioSubmit.CallerEndsOnce` | block/blk-core.c:2062-2083 | Whatever is completed while the loop runs and whatever happens afterwards, the end_io of the submitted bio runs at most once, after every bio that went out, and has run once all are ended |
| `BioSubmit.FlatCut` | block/bio.c:1797-1826 | A cut keeps every byte of memory, in order |
| `BioSubmit.RestPasses` | block/blk-core.c:1892-1916 | What is left of an accepted bio passes the checks again, unchanged |
| `BioSubmit.ChecksOnce` | block/blk-core.c:1826-1840 | Accepted bios are shifted by the partition offset, and a second look does not shift them again |
| `BioSubmit.RefusedExactly` | block/blk-core.c:1892-1955 | A bio is refused iff it is not empty and its range does not lie within the device; where it does, so do the sectors of the disk it is remapped to |
| `DeadlineStarvation.WriteBound` | block/deadline-iosched.c:243-325 | From any reachable state with a write queued, under arbitrary arrivals and merges, a write is among the next (writes_starved + 1) * fifo_batch dispatches |
| `DeadlineStarvation.ReadBound` | block/deadline-iosched.c:266-289 | With writes_starved at least one, a queued read is among the next fifo_batch + 1 dispatches |
| `DeadlineStarvation.ReadStarves` | block/deadline-iosched.c:266-289 | With writes_starved zero no bound holds: for every n a run exists in which a read waits while n writes are dispatched |
| `DeadlineStarvation.WriteOvertakes` | block/deadline-iosched.c:266-289 | With writes_starved zero, a write that arrives goes before a waiting read |
| `DeadlineStarvation.ReadWaits` | block/deadline-iosched.c:98-111 | A state from which that happens is reachable |
| `DeadlineOrder.BatchClimbs` | block/deadline-iosched.c:204-220 | Whatever arrives or is merged at the back meanwhile, the sectors of a batch that goes on never decrease |
| `DeadlineOrder.DispatchFollows` | block/deadline-iosched.c:204-220 | After a dispatch next_rq names the next request in sector order, with nothing queued between, or nothing, and then nothing queued starts later; the other direction has none |
| `DeadlineOrder.DispatchIs` | block/deadline-iosched.c:243-325 | Which request is dispatched and what the counters become, told from the lists, the tunables and the deadlines |
| `DeadlineOrder.WritesTurn` | block/deadline-iosched.c:263-292 | After every run, a batch that starts while both kinds wait is one of writes iff writes have been passed over writes_starved times since their last batch |
| `DeadlineOrder.StarvedCounts` | block/deadline-iosched.c:263-292 | The counter counts just that, from any state the invariant allows |
| `DeadlineOrder.AddedIs` | block/deadline-iosched.c:98-111 | A request arrives with the deadline of its direction and waits last |
| `DeadlineOrder.FrontMergedIs` | block/deadline-iosched.c:154-166 | A front merge moves the start of a request and keeps its deadline, both fifos and both next_rq |
| `DeadlineOrder.MergedIs` | block/deadline-iosched.c:168-187 | Of two merged requests the first is left with its sector, due when the earlier of the two was |
| `DeadlineOrder.AddsBehind` | block/elevator.c:297-315 | A request goes behind all that do not start later, those at the same sector included |
| `DeadlineStarvation.ListsAgree` | block/deadline-iosched.c:27-52 | In every reachable state the two lists of a direction hold the same requests, one in sector order and one in deadline order; next_rq names a queued request, for at most one direction |
| `DeadlineStarvation.HeadDecides` | block/deadline-iosched.c:226-237 | The head of the fifo is due iff anything on it is |
| `DeadlineStarvation.QuietStep` | block/deadline-iosched.c:98-189 | Arrivals and merges start no batch, empty no direction and touch no counter |
| `DeadlineStarvation.IssueStep` | block/deadline-iosched.c:243-325 | With something queued, a dispatch dispatches: the next of the batch, or the first of a batch in the direction the counters choose |
| `DeadlineProofs.AddKeeps` | block/deadline-iosched.c:98-111 | An arrival keeps the lists in agreement and in order |
| `DeadlineProofs.FrontKeeps` | block/deadline-iosched.c:154-166 | A front merge repositions by sector and keeps the rest |
| `DeadlineProofs.MergedKeeps` | block/deadline-iosched.c:168-189 | A request merge hands on the earlier deadline and its place, and keeps the order |
| `DeadlineProofs.TakeOver` | block/deadline-iosched.c:177-180 | Moving behind the absorbed request and unlinking that one leaves the survivor in its place |
| `DeadlineProofs.RemoveKeeps` | block/deadline-iosched.c:84-122 | Removal from both lists keeps them in agreement, and next_rq queued |
| `DeadlineProofs.MoveKeeps` | block/deadline-iosched.c:204-220 | Dispatching sets next_rq to the next request in sector order, nothing queued lying between, and clears the other direction |
| `DeadlineProofs.LatterFollows` | block/deadline-iosched.c:62-74 | The successor in the sorted list is the next request in sector order: none queued in its direction starts between the two, and where there is no successor none starts later |
| `DeadlineProofs.DispatchKeeps` | block/deadline-iosched.c:243-325 | A dispatch keeps the invariant |
| `DeadlineProofs.DispatchCases` | block/deadline-iosched.c:243-325 | Which request is dispatched: the next of the batch, else the fifo head if due or no successor is known, else the successor |
| `DeadlineProofs.HeadIsEarliest` | block/deadline-iosched.c:226-237 | In any state with ordered lists the head of the fifo is due iff any request on it is |
| `DeadlineProofs.RbAddSpec` | block/elevator.c:297-316 | Insertion keeps the tree sorted and adds exactly the request |
| `DeadlineProofs.NextKeeps` | block/deadline-iosched.c:98-325 | Every operation keeps the invariant |
| `DeadlineProofs.RunKeeps` | block/deadline-iosched.c:98-325 | Every run does |
| `DeadlineQueue.DeadlineData.constructor` | block/deadline-iosched.c:340-370 | A new scheduler is the initial state |
| `DeadlineQueue.DeadlineData.Add` | block/deadline-iosched.c:98-111 | In place: refines the arrival; the request has its sector and the deadline of its direction and is last in the fifo |
| `DeadlineQueue.DeadlineData.Merged` | block/deadline-iosched.c:154-166 | In place: a front merge moves the start and repositions, a back merge does nothing |
| `DeadlineQueue.DeadlineData.RemoveIt` | block/deadline-iosched.c:84-122 | In place: refines the removal |
| `DeadlineQueue.DeadlineData.MergedTwo` | block/deadline-iosched.c:168-189 | In place: refines the request merge; the one left is due when the earlier of the two was |
| `DeadlineQueue.DeadlineData.Move` | block/deadline-iosched.c:204-220 | In place: refines the move to the dispatch queue; next_rq is the next request in sector order |
| `DeadlineQueue.DeadlineData.Expired` | block/deadline-iosched.c:226-237 | Looking at the head alone, the answer is whether any request on the fifo is due |
| `DeadlineQueue.DeadlineData.StartBatch` | block/deadline-iosched.c:297-325 | In place: a batch starts at the head of the fifo if any request on it is due or no successor is known, else at the successor |
| `DeadlineQueue.DeadlineData.DispatchOne` | block/deadline-iosched.c:243-325 | In place: refines the dispatch, keeps the invariant, and neither BUG_ON fires; the request leaves and next_rq is what follows it in sector order |
| `CfqAccounting.RunAccounts` | block/cfq-iosched.c:1299-1406 | Over every run nr_active is own membership plus the active children, and children_weight the own leaf weight plus their weights |
| `CfqAccounting.AddAccounts` | block/cfq-iosched.c:1299-1348 | Addition, however far activation propagates and whatever weight changes were waiting, keeps the accounting |
| `CfqAccounting.DelAccounts` | block/cfq-iosched.c:1375-1406 | So does removal |
| `CfqAccounting.ServedAccounts` | block/cfq-iosched.c:1458-1484 | So does serving a group |
| `CfqAccounting.ActivateUpAccounts` | block/cfq-iosched.c:1337-1345 | Activation repairs the accounting level by level |
| `CfqAccounting.DeactivateUpAccounts` | block/cfq-iosched.c:1388-1402 | Deactivation does too |
| `CfqAccounting.AccountFacts` | block/cfq-iosched.c:1391-1392 | An accounted group without active members has no weight left, one with some has a positive divisor |
| `CfqAccounting.NextAccounts` | block/cfq-iosched.c:1279-1406 | Every operation keeps the accounting |
| `CfqShares.DelUndoesAdd` | block/cfq-iosched.c:1375-1406 | Removing a group right after adding it restores membership, nr_active and children_weight of every group, even if deferred weights took effect |
| `CfqShares.CountsAgree` | block/cfq-iosched.c:234-244 | The accounting determines nr_active and children_weight from membership and weights |
| `CfqShares.FractionsWithinWhole` | block/cfq-iosched.c:1302-1347 | In every reachable hierarchy the rounded fractions of the groups on the tree sum to at most 1 << 12 |
| `CfqShares.SharesAddUp` | block/cfq-iosched.c:246-256 | Without rounding they would sum to exactly the whole |
| `CfqShares.PartSplits` | block/cfq-iosched.c:1319-1329 | A group's part is what its own tasks are due plus the parts of its active children |
| `CfqShares.CompoundBelow` | block/cfq-iosched.c:1337-1345 | Rounding down at every level stays below the exact compounded share |
| `CfqShares.FractionBelow` | block/cfq-iosched.c:1326-1345 | A fraction lies between 0 and 1 << 12 and below the exact share |
| `CfqExact.FractionExactly` | block/cfq-iosched.c:1318-1345 | A fraction is at most the exact share and less by at most one for each rounding on the way to the root |
| `CfqExact.AddStores` | block/cfq-iosched.c:1299-1348 | That is what is stored when a group goes on the tree, but never less than one |
| `CfqExact.WeightTakesEffect` | block/cfq-iosched.c:1276-1342 | A weight that was set takes effect when, and only when, its group, other than the root, becomes active; a leaf weight when the group goes on the tree |
| `CfqShares.AddFraction` | block/cfq-iosched.c:1347-1347 | The stored fraction lies between 1 and 1 << 12 |
| `CfqShares.ScaleChargeAtLeast` | block/cfq-iosched.c:949-958 | Where the first shift fits an unsigned long, scaling by a fraction never makes a charge smaller |
| `CfqShares.ScaleChargeExactly` | block/cfq-iosched.c:949-958 | With an unsigned long of 32 or 64 bits, scaling makes no charge smaller, whatever the fraction, iff charge << 12 fits an unsigned long; with 64 bits it always does; how the result depends on the fraction is ScaleIsQuotient |
| `CfqExact.ScaleIsQuotient` | block/cfq-iosched.c:949-958 | Where the first shift fits, the scaled charge is the charge over the fraction, rounded down |
| `CfqExact.HalfPaysTwice` | block/cfq-iosched.c:937-958 | Where the first shift fits, half the fraction pays twice the charge, but for one unit of rounding |
| `CfqExact.ServedPays` | block/cfq-iosched.c:1475-1484 | Where the first shift fits, serving a group moves its vdisktime forward by the charge over the fraction it had, rounded down |
| `CfqShares.ChargeLost` | block/cfq-iosched.c:952-952 | With 32 bits a charge of 1 << 20 is scaled to nothing |
| `CfqShares.ServingAdvancesExactly` | block/cfq-iosched.c:1475-1484 | In every reachable hierarchy serving any group with a charge moves its vdisktime forward by at least charge << 12, iff charge << 12 fits an unsigned long |
| `CfqShares.RunFractions` | block/cfq-iosched.c:1299-1406 | In every run the groups on the tree keep a fraction between 1 and 1 << 12 |
| `CfqGroups.Groups.constructor` | block/cfq-iosched.c:224-300 | A hierarchy of the root alone, off the tree: accounted for, with its fractions in range |
| `CfqGroups.Groups.NewChild` | block/cfq-iosched.c:1629-1636 | A group below another, off the tree; the other groups, the accounting and the fractions are kept |
| `CfqGroups.Groups.JoinParent` | block/cfq-iosched.c:1338-1342 | In place: the parent counts the newly active child with its updated weight |
| `CfqGroups.Groups.OneLevel` | block/cfq-iosched.c:1337-1345 | In place: activation and the fraction of one level |
| `CfqGroups.Groups.WalkUp` | block/cfq-iosched.c:1337-1345 | The loop to the root: activation stops where it should, the fraction goes on, no division by zero |
| `CfqGroups.Groups.ServiceTreeAdd` | block/cfq-iosched.c:1299-1348 | In place: refines the addition, keeps the accounting, and its BUG_ON does not fire |
| `CfqGroups.Groups.PartParent` | block/cfq-iosched.c:1388-1402 | In place: one level of deactivation, without the warning |
| `CfqGroups.Groups.ServiceTreeDel` | block/cfq-iosched.c:1375-1406 | In place: refines the removal, keeps the accounting, and the leftover-weight warning never fires |
| `CfqGroups.Groups.GroupServed` | block/cfq-iosched.c:1458-1484 | In place: refines serving, keeps accounting and fractions, and moves vdisktime forward by the charge over the fraction, rounded down, where the first shift fits an unsigned long |
| `TagsProofs.OneHolder` | block/blk-mq-tag.c:147-175 | Under every interleaving of gets, puts and changes to any depth that is accepted, a step that hands out a tag hands out one nobody holds, not even the thread that gets it, and no other tag changes hands |
| `TagsProofs.HeldShrinks` | block/blk-mq-tag.c:147-175 | No other step hands out anything |
| `TagsProofs.PutBetween` | block/blk-mq-tag.c:147-421 | In every run, between two steps that hand out the same tag there is one that puts it back |
| `TagsProofs.HeldIsBusy` | block/blk-mq-tag.c:321-356 | Under every such interleaving a number is held iff its bit is set in the map its size selects; reserved bits never stand for normal numbers |
| `TagsProofs.TagsArePairs` | block/blk-mq-tag.h:15-16 | Tags and (word, bit) pairs correspond one to one |
| `TagsProofs.DepthsCover` | block/blk-mq-tag.c:516-536 | After bt_update_count a tag is on offer iff it is below the new depth and the capacity |
| `TagsProofs.NewBitmapOk` | block/blk-mq-tag.c:538-591 | A new map offers exactly the tags below its depth, all free, in no more words than needed |
| `TagsProofs.TryKeeps` | block/blk-mq-tag.c:168-174 | test_and_set_bit, won or lost, keeps bits and holders in agreement |
| `TagsProofs.LookKeeps` | block/blk-mq-tag.c:152-166 | Looking for a zero bit, wrapping and moving to the next word keep the search inside the map |
| `TagsProofs.GotKeeps` | block/blk-mq-tag.c:227-237 | Updating the cache keeps bits, holders and searches in agreement |
| `TagsProofs.PutKeeps` | block/blk-mq-tag.c:405-421 | Putting a tag frees its bit and keeps bits and holders in agreement |
| `TagsProofs.PutFrees` | block/blk-mq-tag.c:405-421 | Putting a held tag back frees it and no other; under the FIFO policy the cache of its context names it, otherwise no cache changes |
| `TagsProofs.FourWords` | block/blk-mq-tag.c:538-591 | A map of four tags or more has at least four words; a word holds a power of two of tags, 64 or else so many that twice as many would be more than a quarter of the depth |
| `TagsAlone.Undisturbed` | block/blk-mq-tag.c:147-241 | Undisturbed, a get of the machine ends, with the first free tag in the order of the search and the cache as it should be, or, having seen all it may look at, without; nothing else changes |
| `TagsProofs.ResizeKeeps` | block/blk-mq-tag.c:659-672 | A change to any depth keeps bits, holders and searches in agreement, also searches under way |
| `TagsProofs.RunKeeps` | block/blk-mq-tag.c:147-421 | Every run does, whatever depths it asks for |
| `TagsCache.CacheSafeExactly` | block/blk-mq-tag.c:195-237 | For any set of depths that may be asked for: no run asking for them, however interleaved, looks up a cached tag in a word outside the map, iff none of the accepted depths is more than one beyond the map and, if zero is among them, neither the first depth nor any of them reaches the end of the map |
| `TagsCache.SafeRuns` | block/blk-mq-tag.c:195-237 | One direction, run by run |
| `TagsCache.UnsafeRun` | block/blk-mq-tag.c:659-672 | The other: a run that leads outside, for every set of depths that is not safe, whatever the policy and wherever the cache starts |
| `TagsCache.CallerSafeExactly` | block/blk-mq.c:2330-2350 | Depths up to the queue depth, which are what blk_mq_update_nr_requests lets through, are safe iff the number of reserved tags is not among them or the last word of the map is not full |
| `TagsCache.LeadsOutsideRuns` | block/blk-mq-tag.c:659-672 | Two short runs that lead outside: asking for exactly the reserved tags, and for more than the map holds |
| `TagsCache.Climbs` | block/blk-mq-tag.c:227-237 | From a free stretch of the map undisturbed gets take tag after tag, and the cache keeps step |
| `TagsCache.StepBelow` | block/blk-mq-tag.c:147-241 | No step but a depth change brings a tag beyond a bound into play, on offer, about to be taken or held |
| `TagsCache.ResizeBelow` | block/blk-mq-tag.c:516-536 | Nor does a depth change whose depth, cut to the map, is within the bound |
| `TagsCache.StepCached` | block/blk-mq-tag.c:191-241 | Where no tag in play moves the cache beyond the map, every step leaves all caches inside it |
| `TagsNumbers.NumbersTabledExactly` | block/blk-mq.c:1475-1480 | For any set of depths that may be asked for: in no run is a tag handed out that is not an index of the request table, iff no accepted depth is beyond the first one or the map has no room for more |
| `TagsNumbers.UntabledRun` | block/blk-mq-tag.c:659-672 | Otherwise there is a run in which the first tag behind the table is handed out |
| `TagsNumbers.CallerTabled` | block/blk-mq.c:2330-2350 | Depths up to the queue depth keep every tag inside the table |
| `TagsNumbers.PutNeverBugs` | block/blk-mq-tag.c:405-421 | In every run, whatever depths it asks for, a tag that is put back passes the BUG_ON on its number |
| `TagsNumbers.Finds` | block/blk-mq-tag.c:147-226 | A search that starts in front of the lowest free tag passes all words before it and takes it, under either policy |
| `TagMap.TagMap.constructor` | block/blk-mq-tag.c:538-591 | The halving loop chooses the words as specified |
| `TagMap.TagMap.SetDepth` | block/blk-mq-tag.c:516-536 | The loop spreads the depth over the words as specified |
| `TagMap.TagMap.GetWord` | block/blk-mq-tag.c:147-175 | Fails only if no bit is free (from the offset on, without wrapping), else takes the first free bit from the offset on, or, wrapping, the first of the word |
| `TagMap.TagMap.Get` | block/blk-mq-tag.c:191-241 | Takes the first free tag in cyclic order from the cache and updates the cache only as allowed, or fails having seen every tag but those a round-robin search starts behind, and resets the cache |
| `TagMap.TagMap.FifoIsExhaustive` | block/blk-mq-tag.c:207-226 | First in, first out, a failed search means no free tag |
| `TagMap.TagMap.FromStartIsExhaustive` | block/blk-mq-tag.c:225-226 | Under round-robin the search after a failed one is exhaustive |
| `TagMap.TagMap.Clear` | block/blk-mq-tag.c:380-384 | Frees exactly the tag's bit |
| `ElevatorProofs.LookupIsScan` | block/elevator.c:272-291 | After every run, whatever the hash function, the lookup finds a request ending at the offset iff a scan of the queued mergeable requests does |
| `ElevatorProofs.FindIsScan` | block/elevator.c:272-291 | The same for any state satisfying the invariant; what is found may be merged with and ends at the offset; only non-mergeable requests lose their place |
| `ElevatorProofs.IndexesAgree` | block/elevator.c:245-291 | After every run no BUG_ON has fired, each hashed request is filed under its present end sector, every queued mergeable request is hashed, last_merge is null or queued and undispatched, nr_sorted counts the queued |
| `ElevatorOrder.NotLost` | block/elevator.c:396-527 | Over every run, a request in the elevator or on the dispatch queue stays in one of the two until it is absorbed or the driver retires it |
| `ElevatorOrder.DispatchedIs` | block/elevator.c:396-408 | Dispatching puts a request on the queue at its place, takes it off the hash and out of the merge cache, and changes nothing else |
| `ElevatorOrder.StepCovers` | block/elevator.c:497-527 | Which sectors each request covers after every event |
| `ElevatorOrder.StepLastMerge` | block/elevator.c:497-527 | What the merge cache names after every event |
| `ElevatorProofs.InsertKeeps` | block/elevator.c:643-652 | Insertion keeps the invariant |
| `ElevatorProofs.GrowKeeps` | block/elevator.c:497-508 | A back merge, which moves the end sector, keeps it by repositioning |
| `ElevatorProofs.FrontKeeps` | block/elevator.c:497-508 | A front merge keeps it because the end sector stays |
| `ElevatorProofs.AbsorbKeeps` | block/elevator.c:510-527 | A request merge keeps it, the absorbed request being sorted or not |
| `ElevatorProofs.BackBothKeeps` | block/elevator.c:510-527 | A bio merge followed at once by a request merge keeps it although the key was stale in between |
| `ElevatorProofs.FrontBothKeeps` | block/elevator.c:510-527 | The same at the front |
| `ElevatorProofs.DispatchKeeps` | block/elevator.c:396-408 | Dispatching keeps it and forgets a cached merge candidate |
| `ElevatorProofs.LookupKeeps` | block/elevator.c:272-291 | Lazy deletion keeps it |
| `ElevatorProofs.NextKeeps` | block/elevator.c:245-527 | Every operation keeps the invariant |
| `ElevatorProofs.RunKeeps` | block/elevator.c:245-527 | Every run does |
| `ElevatorQueue.ElevatorQueue.constructor` | block/elevator.c:153-169 | An empty elevator |
| `ElevatorQueue.ElevatorQueue.RqHashDel` | block/elevator.c:245-249 | In place: off the hash, wherever it was |
| `ElevatorQueue.ElevatorQueue.RqHashAdd` | block/elevator.c:257-264 | In place: filed under its present end sector |
| `ElevatorQueue.ElevatorQueue.RqHashReposition` | block/elevator.c:266-270 | In place: filed anew |
| `ElevatorQueue.ElevatorQueue.RqHashFind` | block/elevator.c:272-291 | The loop over the bucket, with lazy deletion, finds a request iff a scan does |
| `ElevatorQueue.ElevatorQueue.MergedBack` | block/elevator.c:497-508 | In place: refines the back merge |
| `ElevatorQueue.ElevatorQueue.MergeTwo` | block/elevator.c:510-527 | In place: refines the request merge |
| `ElevatorQueue.ElevatorQueue.AddSort` | block/elevator.c:643-652 | In place: refines insertion |
| `ElevatorQueue.ElevatorQueue.DispatchAddTail` | block/elevator.c:396-408 | In place: refines dispatch; the request is last on the queue and no merge candidate |
| `ElevatorQueue.ElevatorQueue.AttemptInsertMerge` | block/elevator.c:462-495 | The loop of repeated merges terminates, is a run of the machine, keeps the invariant, reports a merge iff the request was absorbed, and absorbs it if some request open to merging ends where it starts and all that do fit |
| `Arc4.Context.CryptInto` | crypto/arc4.c:53-88 | The pipelined loop yields the plain algorithm's output and state for every length, also when encrypting in place |
| `Arc4.Context.Turn` | crypto/arc4.c:70-83 | One turn does the plain round, emits its byte and fetches the next round's entries early without changing them |
| `Arc4.Context.SetKey` | crypto/arc4.c:29-51 | The key schedule with its running key index is the plain one with the index taken modulo the key length |
| `Arc4.Context.MixOne` | crypto/arc4.c:42-47 | One step of it |
| `Arc4.Context.Fill` | crypto/arc4.c:39-40 | The identity table |
| `Arc4.Chunks` | crypto/arc4.c:53-88 | Encrypting in any chunks equals encrypting at once, in output and state |
| `Arc4.CryptTwice` | crypto/arc4.c:53-88 | Encrypting twice from the same state is the identity |
| `Arc4.CryptIs` | crypto/arc4.c:53-88 | Each byte is masked with its own byte of the keystream |
| `Arc4.StreamIs` | crypto/arc4.c:53-88 | Each round exchanges the two entries it finds and yields the entry their sum then points to |
| `Arc4.FirstBytes` | crypto/arc4.c:53-88 | From the identity table the keystream starts with 2, 5, 7 |
| `Arc4.FirstMixes` | crypto/arc4.c:29-51 | The first steps of mixing in a key of two bytes |
| `Arc4.AlwaysPermutation` | crypto/arc4.c:29-88 | For every key and any amount of output the table is a permutation of the bytes |
| `Discard.IssueDiscard` | block/blk-lib.c:74-107 | The bios cover the range exactly, or up to the first that cannot be allocated, in order, none empty and none too large for 32-bit bytes; each but the last ends on the alignment, as late as possible; the batch count is one more than the bios |
| `Discard.NextSizeSpec` | block/blk-lib.c:84-99 | The loop advances by at least one sector for every range, granularity and alignment |
| `Discard.GranularityOf` | block/blk-lib.c:60-60 | A 32-bit granularity in whole sectors, at least one, never exceeds UINT_MAX >> 9 |
| `Discard.AdvanceCanBeOne` | block/blk-lib.c:84-99 | and for the largest granularity by no more |
| `Discard.AlignedBelowSpec` | block/blk-lib.c:94-98 | The rounded end is aligned and less than a granule early |
| `Discard.AlignedBelowGreatest` | block/blk-lib.c:94-98 | No aligned sector lies between it and the unrounded end |
| `Discard.SplitAtAligned` | block/blk-merge.c:13-53 | The queue-level cut leaves both parts non-empty, is aligned and the last such point within the limit; there is none iff the bio fits or no granule does |
| `DiscardSubmit.MakeRequest` | block/blk-core.c:2026-2087 | A discard bio is refused whole where the queue takes no discards or its range, not being empty, does not lie within the device; otherwise its pieces tile the range from the start shifted once by the partition offset, each on the device; every piece but the last ends on the alignment, as late as the limit allows, and none exceeds the limit unless no granule fits it and the range goes whole; only a dying queue leaves a rest; the bios are chained as OnceAfterAllPieces requires, whatever is completed meanwhile |
| `DiscardSubmit.OneTurn` | block/blk-merge.c:190-216 | One turn: the last piece, or an aligned piece and a smaller rest that has passed the checks |
| `DiscardSubmit.RestPasses` | block/blk-core.c:1892-1916 | What is left of an accepted discard passes the checks again, unchanged |
| `DiscardSubmit.ChecksOnce` | block/blk-core.c:1826-1840 | An accepted discard is shifted by the partition offset once |

## Left out

- Queues with QUEUE_FLAG_NO_SG_MERGE: that path does not refresh the front and back sizes.
- Merging of pieces cut inside a vector: they carry REQ_NOMERGE.
- 32-bit wrap-around of segment sizes, sector counts and request lengths, except where a row says so.
- Errors of chained bios: a child's error overwrites the parent's, so which one survives is not stated.
- The blk-mq path of the flush sequencer (mq_flush_data_end_io, borrowed tags), which differs in who ends the request.
- Bidirectional requests, integrity payloads, bounce buffers, DMA drain and padding.
- Plug lists, requeue lists and direct issue in blk-mq; CPU hotplug and remapping of software queues.
- Threads that go on after a lookup outside the tag map: what they read there is unknown.
- Waiting and waking in the tag allocator (wait queues, wake batches) and shared-tag fairness (hctx_may_queue).
- BlkMqInvariant.Quiescent: says nothing about how soon a scheduled run happens; the scheduler of threads is arbitrary.
- The place elv_dispatch_sort chooses on the dispatch queue: the model allows any place.
- CfqShares.ServingAdvancesExactly: vdisktime is unbounded here; its own wrap-around at 64 bits is not modelled.
- CFQ beyond group accounting: queues, idling, think time, preemption, the service tree's own order and its count.
- Weight changes of the CFQ root through the legacy interface, and removal of groups.
- Secure discards, whose support is checked like that of discards; blk_bio_write_same_split; and the completion side of discard batches beyond the count.
- Throttling of bios by blkcg, and fault injection, in generic_make_request_checks.
- Stacked drivers that submit to other queues from within make_request.
- Memory barriers, RCU, reference counts and real lock implementations.
- The block cipher modes and the transform registration of the crypto layer.
- sysfs, ioctl, tracing, statistics and power management.
