# Aurora LTFS: a verified model of the data path and the metadata log

Aurora LTFS makes a tape look like a file system. This project models the parts of it in which data or
metadata could silently go wrong, in Dafny, and proves what they are for:

- **The raw extent layer** (`Extents`, `RawTape`, `RawRead`, `RawFile`): a file is a sorted list of extents over
  a tape to which blocks are only appended. Writing, truncating and reading through extent lists, with the
  positioning logic and the one-block cache of the reader, behaves like flat files with zero-filled holes.
- **The unified I/O scheduler** (`Requests` to `UnifiedRead`): a write-back cache of request lists over the raw
  layer. `Requests` states `unified_write` as functions on request lists, with every branch and goto of the
  loop; `Cells`, `WriteProofs`, `WriteTheorem` and `WriteRounds` prove what it does to the file. `Interleave` is the
  state machine of one file under all threads, one action per stretch of code between two lock operations, and
  `InterleaveProofs` proves that no interleaving can be told from a flat file. `Scheduler`, `SchedulerOps` and
  `Unified` are the same operations step by step, on lists whose requests carry their state, with the shared
  queues and counters of `Ledger`; each method is proved equal to the function the theorems are about.
- **The copies on the index partition** (`AltExtents`, `IndexCopies`, `CopyExamples`): small files are written to both
  partitions, and at the end of a mount the extents on the index partition replace the others. A joint invariant
  of the side list of extents, the replica requests, the file on the data partition and the blocks of the index
  partition says when that leaves the file as it is.
- **The incremental journal** (`Paths`, `Journal`, `Session`, `Replay`, `TreeEdits`): the log of tree edits since the
  last index, compressed while it is written, replays to the current tree.
- **The index writer** (`IndexWriter`, `IndexHistory`): self and back pointers, generation, dirty flags, the
  recursive write to the data partition, roll-back, and the interval of full indexes. `IndexOrder` follows what lies on
  the two partitions: which index stands behind what, and that data never goes to one partition unless the other
  ends in an index. `IndexChain` joins the index writer with the journal: the last full index, the incremental ones behind it and the journal, read one after the other, give the
  current tree.
- **The glob matcher** (`Glob`) and **the block pool** (`CachePool`).

Bytes are numbers below 256, sizes and offsets are unbounded natural numbers, and a tape is a map from
partitions to sequences of blocks. The device, memory and clocks appear as parameters: which step of an index
write fails, how many blocks the pool can still hand out, whether a split can be allocated.

## What the code does not do

Twelve promises hold only under a condition. Each has a statement with the exact condition.

- `unified_write` loses a write that starts where one replica request ends and the next begins, if the first is
  not full and the two cannot become one block at the end of the list: the merge at src/iosched/unified.c:801
  pulls old bytes ahead of the write cursor, and the branch its comment doubts ("Can this happen?") is reached.
  `WriteTheorem.WriteExact` gives the condition, `InterleaveProofs.RunIsFlat` the same over every interleaving,
  `WriteExample.SecondWriteLost` a run.
- A traversal that ends with bytes left does not always end where the append branch can take over. If the last two
  requests are replicas that meet at the write offset and fit one block, it merges them and writes nothing, and
  the list has to be traversed again: `WriteRounds.RoundExact`, `WriteRounds.RoundInVain`.
- When the index partition is full, replicas that were not copied are dropped without an error, but older copies of
  the same bytes stay in alt_extentlist, and at the end of the mount they replace the newer bytes on the data
  partition: `IndexCopies.SaveExact`, `IndexCopies.CopiesAreTheFile`, `CopyExamples.OldBytesReturn`.
- An extent that libltfs does not take at the end of a mount is dropped, and older copies under it come to light.
  `IndexCopies.PartSaveExact` says where that matters, `IndexCopies.LoneSkips` when it does not,
  `CopyExamples.SkippedEntry` is a run.
- `ltfs_fsraw_read` reads into the one-block cache before it knows whether the block is long enough. A read that fails
  for a short block leaves its bytes in the cache under the position of the block before, and a later read takes
  them for that block: `RawRead.FetchExact`, `RawRead.PoisonedHit`, `RawRead.PoisonedRun`.
- `incj_rmdir` forgets the deletion of a directory that is renamed away, renamed back and then removed or moved
  in one session: `Replay.DetachExact`, `Replay.RenamedBackAndRemoved`.
- `ltfs_write_index` takes the generation back when a full index fails, but not when an incremental index fails
  after the seek: `IndexHistory.FailureRestores`.
- An index on the index partition stands behind one on the data partition, unless a permanent write error or a failure
  on the data partition was passed over: `IndexOrder.WriteInPlace`, `IndexOrder.IndexesInOrder`.
- The journal is emptied before the index it was for is safe: at once if an index goes to both partitions, and by the
  XML writer in the middle of an incremental index. If no index gets written after that, the changes it held are
  missing from the next incremental index: `IndexHistory.JournalComplete`, `IndexHistory.ChangesForgotten`.
- The XML writer clears the dirty flag of a dentry when its text is made, not when it is on tape. After a full index that
  fails there, the journal is complete, but the next incremental index writes modified directories without their
  attributes: `IndexChain.ReadExact`, `IndexChain.EventExact`, `IndexChain.FlagsForgotten`.
- `ltfs_fsraw_write` of no bytes adds an empty extent and extends the file to the offset: `RawTape.Write`,
  `RawFile.Volume.Run`.
- `cache_manager_has_room` promises room an empty pool cannot provide if it is above its maximum, or is to grow
  from no block to one: `CachePool.Pool.Allocate`.

## Model

| member | source | states |
|---|---|---|
| `WriteTheorem.WriteExact` | src/iosched/unified.c:734-869 | for every sorted list, buffer, offset and supply of blocks: `unified_write` leaves a sorted, disjoint list in which exactly the consumed prefix of the buffer is replaced, if and only if no two replica requests clash at the write offset or there is no block for the first bytes; a write that does not stop for blocks consumes the whole buffer |
| `WriteTheorem.WriteKeeps` | src/iosched/unified.c:734-869 | without a clash, for every list, buffer, offset and supply of blocks: the list stays sorted and disjoint, and the bytes that went in are the first part of the buffer; nothing else changes except replicas that the rest of the buffer will overwrite |
| `WriteTheorem.WriteClashes` | src/iosched/unified.c:797-859 | with a clash and a block for the first bytes the list overlaps afterwards and the first byte written still reads as the old one, however the write ends |
| `WriteTheorem.WriteStarves` | src/iosched/unified.c:797-803 | with a clash and no block, the replicas are merged and nothing else changes |
| `WriteTheorem.WriteSpends` | src/iosched/unified.c:734-869 | what is left of the buffer is what was not consumed, with or without a clash |
| `WriteTheorem.RoundEnds` | src/iosched/unified.c:772-869 | the write ends: whenever the traversal ends with bytes left, the offset is at or past the end of the list, which is then appended to, or the list is still sorted and has become shorter |
| `WriteRounds.RoundExact` | src/iosched/unified.c:772-869 | when the traversal ends with bytes left, the offset is at or past the end of the list, so that the append branch takes over, if and only if the last two requests are not replicas that meet at the write offset and fit one block together |
| `WriteRounds.RoundInVain` | src/iosched/unified.c:772-869 | two writes: the first trims a replica, the second goes through the whole list, merges two replicas and writes nothing |
| `WriteTheorem.VisitKeeps` | src/iosched/unified.c:773-866 | one visit of the traversal loop keeps the invariant of the write, whatever branch it takes |
| `WriteTheorem.AppendKeeps` | src/iosched/unified.c:744-770 | writing at or past the end of the list keeps it sorted and adds exactly the new bytes |
| `WriteExample.SecondWriteLost` | src/iosched/unified.c:797-859 | two writes after which the second one is lost: the concrete run of the clash |
| `WriteProofs.MergeKeeps` | src/iosched/unified.c:801-803 | merging the current request into its predecessor in mid-write keeps the invariant and advances nothing |
| `WriteProofs.VisitIpKeeps` | src/iosched/unified.c:824-858 | removing, trimming or splitting a replica under the new bytes keeps the invariant |
| `WriteProofs.InsertRunKeeps` | src/iosched/unified.c:785-796 | inserting requests in front of the current one writes exactly those bytes |
| `Cells.CellMerge` | src/iosched/unified.c:1869-1920 | `_unified_merge_requests` changes no byte of the overlay, whether it moves, trims or removes |
| `InterleaveProofs.RunIsFlat` | src/iosched/unified.c:487-1354 | every interleaving of writers, background writer, flush, truncation, placement changes and readers leaves what a flat file would hold, every read returns what the file held while it had iosched_lock, and the invariant holds, if and only if no write of the run clashed |
| `InterleaveProofs.ActionKeeps` | src/iosched/unified.c:1220-1354 | every single step keeps the invariant (sorted lists, replicas equal the tape, no replica without write_ip, exact file size) and changes the visible content only as a write or truncation does, if and only if it is not a write that clashes |
| `InterleaveProofs.RoughBreaks` | src/iosched/unified.c:797-859 | a write that clashes leaves an overlapping list, and a user reads the old byte where it started |
| `InterleaveProofs.TakeActs` | src/iosched/unified.c:1270-1311 | moving requests to the writer's private list changes nothing that can be read |
| `InterleaveProofs.WriteOneActs` | src/iosched/unified.c:1313-1330 | sending one private request to tape changes nothing that can be read, even while the list is written to or truncated |
| `InterleaveProofs.FlushActs` | src/iosched/unified.c:1930-1985 | a flush changes nothing that can be read; every byte it leaves as a replica is on tape |
| `InterleaveProofs.TruncateBeginActs` | src/iosched/unified.c:954-990 | truncation takes effect when the list and file_size are cut |
| `InterleaveProofs.TruncateEndActs` | src/iosched/unified.c:1000-1003 | what the private list wrote in between is cut off again when the tape file is truncated |
| `InterleaveProofs.DropActs` | src/iosched/unified.c:2127-2157 | dropping the replicas changes nothing that can be read |
| `InterleaveProofs.PlanIsContent` | src/iosched/unified.c:534-636 | the plan made from the list and completed from tape later is the content at the time of the scan |
| `InterleaveProofs.WholeWrite` | src/iosched/unified.c:661-870 | a write the pool never stops changes the file exactly as a flat overwrite |
| `InterleaveProofs.FreshIsGood` | src/iosched/unified.c:1367-1418 | new private data of a file satisfies the invariant |
| `ListEdits.FlushSettles` | src/iosched/unified.c:1962-1981 | what a flush moves from the list to the tape, cell by cell: same bytes, replicas equal the tape |
| `ListEdits.TrimToCells` | src/iosched/unified.c:957-969 | the reverse scan of a truncation leaves exactly the bytes below the new length |
| `ListEdits.DropIpCells` | src/iosched/unified.c:2131-2140 | removing the replicas leaves exactly the dirty bytes |
| `UnifiedRead.Scan` | src/iosched/unified.c:534-581 | cached bytes are in the buffer and everything else in front of the last request is queued, exactly once |
| `UnifiedRead.Issue` | src/iosched/unified.c:583-617 | every queued range is filled from tape, with zeros past its end although only the first short read is noticed |
| `UnifiedRead.Complete` | src/iosched/unified.c:583-636 | whatever the scan left in buffer and queue, the tape reads complete it to the list overlaid on the tape file, the part past the last request included |
| `UnifiedRead.Read` | src/iosched/unified.c:487-636 | the bytes returned are the list overlaid on the tape file as it is when io_lock is held |
| `Ledger.EnrollOk` | src/iosched/unified.c:1559-1655 | adding a request to a queue keeps membership, lengths and totals exact |
| `Ledger.WithdrawOk` | src/iosched/unified.c:1559-1655 | removing one or all of a file's requests never underflows a counter and keeps everything exact |
| `Ledger.RestateOk` | src/iosched/unified.c:1838-1846 | moving a request between queues keeps everything exact |
| `Ledger.HideOk` | src/iosched/unified.c:2107-2117 | write_ip hides exactly the file's DP requests from dp_request_count, without underflow |
| `Ledger.ShowOk` | src/iosched/unified.c:2145-2151 | and unhides exactly those |
| `Scheduler.UpdateRequest` | src/iosched/unified.c:1816-1857 | the bytes of a request after the copy, how many were copied, and the state of every request: if a partial one is full now, it and the partial ones before it become ready; all counters exact |
| `Scheduler.PromotePartials` | src/iosched/unified.c:1838-1846 | which requests change from partial to ready, with exact counters |
| `Scheduler.MergeRequests` | src/iosched/unified.c:1869-1920 | equals the merge whose effect on the overlay is proved, return value and counters included |
| `Scheduler.InsertNewRequest` | src/iosched/unified.c:1745-1797 | the inserted request, its state (ready exactly if its block is full, partial otherwise), the rest of the list, and the counters; without a block it gives up and holds the block it waited for |
| `Scheduler.CutSource` | src/iosched/unified.c:1895-1912 | a request that gives bytes to its predecessor is not full any more: ready becomes partial, with exact counters; a replica stays one |
| `Scheduler.InsertBefore` | src/iosched/unified.c:785-796 | equals the run of insertions proved to write exactly those bytes |
| `Scheduler.ResolveIp` | src/iosched/unified.c:824-858 | equals the removal, trimming or splitting of a replica, with exact counters |
| `Scheduler.ResolveOverlap` | src/iosched/unified.c:805-860 | equals the overlap handling between new bytes and the current request |
| `Scheduler.Traverse` | src/iosched/unified.c:772-866 | equals the traversal, goto by goto |
| `Scheduler.AppendRequests` | src/iosched/unified.c:744-770 | equals the append branch |
| `Scheduler.WriteRequests` | src/iosched/unified.c:734-869 | the loop from do_append ends, equals the write that WriteExact is about, and keeps every counter exact |
| `SchedulerOps.TruncateRequests` | src/iosched/unified.c:957-969 | equals the cut list, counters exact; no request changes its state |
| `SchedulerOps.FlushRequest` | src/iosched/unified.c:1962-1981 | one request of a flush: written and kept as a replica, written and removed, merged, or skipped |
| `SchedulerOps.FlushRequests` | src/iosched/unified.c:1951-1981 | equals the flush proved invisible; the counters set to zero in advance are right again at the end; what it leaves was there before or is a replica, and no dirty request it was to write is left: none that is ready, and none at all if partial ones go too |
| `SchedulerOps.TakeRequests` | src/iosched/unified.c:1270-1311 | all requests, or exactly the ready ones, go to the private list and the others stay, with exact counters |
| `SchedulerOps.DropReplicas` | src/iosched/unified.c:2131-2145 | exactly the replicas leave list, queue and counters, and everything else stays |
| `Unified.UnifiedData.Write` | src/iosched/unified.c:661-870 | one write step of the state machine on one file: what is left of the buffer is its end, and without a clash the file afterwards is the flat overwrite with the rest of it; the offsets left over are those whose copies may now be out of date; all other files unchanged; every per-file counter is the number of requests in that state, membership, lengths and totals are exact; the whole invariant, copies included, is kept if and only if the write does not clash |
| `Unified.UnifiedData.Truncate` | src/iosched/unified.c:954-990 | the first half of a truncation, which cuts the request list and, if the file gets shorter, alt_extentlist: the file reads as the cut or zero-extended one from here on; all other files unchanged, and the invariant over all files kept: every per-file counter is the number of requests in that state, membership, lengths and totals are exact, and the copies of every file are in step with it |
| `Unified.UnifiedData.Flush` | src/iosched/unified.c:1930-1985 | a flush step: the bytes of every request it had to write are on tape, and none of those requests is left dirty; all other files unchanged, and the invariant over all files kept: every per-file counter is the number of requests in that state, membership, lengths and totals are exact, and the copies of every file are in step with it |
| `Unified.UnifiedData.Take` | src/iosched/unified.c:1262-1311 | taking requests for the background writer: which leave the list and which stay; all other files unchanged, and the invariant over all files kept: every per-file counter is the number of requests in that state, membership, lengths and totals are exact, and the copies of every file are in step with it |
| `Unified.FlushSettled` | src/iosched/unified.c:1930-1985 | after a flush of all requests the tape holds every byte of the file that is in the list, and what is left are replicas; after one of the ready requests no ready request is left, and the bytes of those there were are on tape |
| `Unified.FullBlockQueued` | src/iosched/unified.c:1745-1857 | in every state of the scheduler, a file with a full dirty block is in the queue of the writer for the data partition: no full block waits in the queue of partial ones |
| `Unified.UnifiedData.WriteOne` | src/iosched/unified.c:1313-1330 | the first request of the private list leaves it and its bytes are on tape; all other files unchanged, and the invariant over all files kept: every per-file counter is the number of requests in that state, membership, lengths and totals are exact, and the copies of every file are in step with it |
| `Unified.UnifiedData.TruncateRaw` | src/iosched/unified.c:1000-1003 | the second half of a truncation; all other files unchanged, and the invariant over all files kept: every per-file counter is the number of requests in that state, membership, lengths and totals are exact, and the copies of every file are in step with it |
| `Unified.UnifiedData.ProcessIndexQueue` | src/iosched/unified.c:1167-1215 | the replicas of a file are copied to the index partition as long as it has room, their extents go into alt_extentlist, and all of them and nothing else leave the list; all other files unchanged, and the invariant over all files kept: every per-file counter is the number of requests in that state, membership, lengths and totals are exact, and the copies of every file are in step with it |
| `Unified.UnifiedData.SetWriteIp` | src/iosched/unified.c:2107-2117 | write_ip is set; all other files unchanged, and the invariant over all files kept: every per-file counter is the number of requests in that state, membership, lengths and totals are exact, and the copies of every file are in step with it |
| `Unified.UnifiedData.UnsetWriteIp` | src/iosched/unified.c:2127-2157 | write_ip is unset, and exactly the replicas and alt_extentlist are dropped; all other files unchanged, and the invariant over all files kept: every per-file counter is the number of requests in that state, membership, lengths and totals are exact, and the copies of every file are in step with it |
| `Unified.UnifiedData.ReadScan` | src/iosched/unified.c:517-581 | the scan step of a read: done if the list alone fills the buffer, and then the buffer is the file's content; else buffer and queue say what the plan of the state machine says; all other files unchanged and the invariant kept |
| `Unified.UnifiedData.ReadLock` | src/iosched/unified.c:584-586 | io_lock is taken before iosched_lock is dropped; all other files unchanged and the invariant kept |
| `Unified.UnifiedData.ReadTape` | src/iosched/unified.c:583-636 | the tape reads return exactly what the file held when the list was scanned, whatever happened in between; all other files unchanged and the invariant kept |
| `Unified.UnifiedData.Open` | src/iosched/unified.c:1367-1418 | private data is set up; all other files unchanged, and the invariant over all files kept: every per-file counter is the number of requests in that state, membership, lengths and totals are exact, and the copies of every file are in step with it |
| `Unified.UnifiedData.Free` | src/iosched/unified.c:2041-2063 | private data is given up exactly if no handle, request or extent for the index partition needs it; all other files unchanged, and the invariant over all files kept: every per-file counter is the number of requests in that state, membership, lengths and totals are exact, and the copies of every file are in step with it |
| `Unified.UnifiedData.Release` | src/iosched/unified.c:2075-2098 | at the end of a mount a file is given up and its extents on the index partition are handed over: which of them libltfs takes, the resulting extents and size; it keeps the bytes of the data partition exactly if the copies taken agree where they were missed, where a request is still in the list, and where an extent was dropped; the counters stay right exactly if no request was left |
| `Unified.CopyReplicas` | src/iosched/unified.c:1182-1211 | the loop over the IP requests: which blocks and which list result, with any amount of room |
| `IndexCopies.CopiesAreTheFile` | src/iosched/unified.c:377-397 | from opening a file, through every interleaving, to the end of the mount: the file with its extents on the index partition is the flat file that the writes and truncations make, if and only if every copy that was missed happens to agree |
| `IndexCopies.JointRun` | src/iosched/unified.c:1167-1545 | after every interleaving without a clashing write, with other users of the partition in between: each copy is on the partition and within the file, and is what the data partition holds, unless something newer is in the request list, a write waiting for a block has yet to write it, or the partition had no room for it |
| `IndexCopies.JointKeeps` | src/iosched/unified.c:1167-1545 | every single step but a clashing write keeps this |
| `IndexCopies.JointWrite` | src/iosched/unified.c:824-858 | a write drops replicas, and with them the knowledge that a copy is out of date, only where it has yet to write |
| `IndexCopies.JointTruncate` | src/iosched/unified.c:956-983 | cutting alt_extentlist only if the file gets shorter keeps no copy past the end of the file |
| `IndexCopies.JointFlush` | src/iosched/unified.c:1962-1981 | a flush moves newer bytes to the data partition, and keeps them as replicas wherever there may be an older copy |
| `IndexCopies.JointQueue` | src/iosched/unified.c:1182-1211 | copying replicas brings the copies up to date, and notes those for which there was no room |
| `IndexCopies.SpillAt` | src/iosched/unified.c:1182-1211 | where the copy of each byte is after the loop: the replica's byte, or where it was, and then the loss is noted |
| `IndexCopies.SizeRecomputed` | src/iosched/unified.c:2209-2229 | recomputing file_size when the index partition is full does not change it |
| `IndexCopies.SaveExact` | src/iosched/unified.c:2075-2098 | saving the whole list leaves an idle file's size and bytes as they are, if and only if the missed copies happen to agree |
| `IndexCopies.PartSaveExact` | src/iosched/unified.c:1526-1533 | whatever libltfs takes and whatever is left in the request list: the file keeps its size, and keeps the bytes of the data partition if and only if the copies taken agree with them at the offsets that were missed, are still in the list, or are covered by an extent that was dropped |
| `IndexCopies.LoneSkips` | src/iosched/unified.c:1526-1533 | if no extent that was dropped overlaps one that was taken, dropping them does no harm: only offsets that were missed or are still in the list decide |
| `CopyExamples.OldBytesReturn` | src/iosched/unified.c:2181-2229 | a mount in which the index partition fills up: no error, the file reads as it should, and after the list is saved the overwritten bytes are back |
| `CopyExamples.SkippedEntry` | src/iosched/unified.c:1526-1533 | a mount with two writes: the file reads as it should and both copies are in the list; libltfs has no memory to split the older one, drops the newer, and the file reads as before the second write |
| `Extents.AddExtent` | src/libltfs/ltfs_fsops_raw.c:272-407 | map override: bytes of ext map to ext, all others stay on the same partition, block and byte; sorted, disjoint, within size, realsize the sum; fails exactly if a split is needed without memory, and then changes nothing; the resulting list is determined entry by entry; extents stay non-empty if ext is not empty |
| `Extents.Truncate` | src/libltfs/ltfs_fsops_raw.c:757-805 | bytes below the new length keep their place, none is mapped from there on; sorted, within size, realsize the sum |
| `Extents.TrimmedWhere` | src/libltfs/ltfs_fsops_raw.c:309-322 | advancing block and byteoffset moves no byte |
| `Extents.ContinuesWhere` | src/libltfs/ltfs_fsops_raw.c:358-370 | physical coalescing moves no byte |
| `Extents.PlacedOverrides` | src/libltfs/ltfs_fsops_raw.c:358-384 | behind the entry it was placed at, ext overrides and nothing else moves |
| `RawTape.WriteData` | src/libltfs/ltfs_fsops_raw.c:116-240 | blocks and start position on tape, and which calls are refused; repetitions write the repeated buffer |
| `RawTape.BlocksTimes` | src/libltfs/ltfs_fsops_raw.c:216-229 | writing a buffer of whole blocks n times is writing the n-fold buffer once |
| `RawTape.Write` | src/libltfs/ltfs_fsops_raw.c:499-546 | the file afterwards is the flat overwrite; its new bytes lie on the partition asked for, behind all blocks that were there, and all others where they were; exactly these blocks were added to exactly that partition; fails exactly for a partition that is none, or a split without memory, which leaves the file as it was; extents stay non-empty exactly if the buffer is not empty |
| `RawTape.TruncatedContents` | src/libltfs/ltfs_fsops_raw.c:757-805 | the file afterwards is the cut or zero-extended flat file |
| `RawTape.ExtendsKeeps` | src/libltfs/ltfs_fsops_raw.c:116-240 | appending blocks changes no file |
| `RawRead.FetchBlock` | src/libltfs/ltfs_fsops_raw.c:675-707 | one block from the cache or from tape, under the head: the head, the cached block and its position, and curpos afterwards, also when the block is too short |
| `RawRead.FetchExact` | src/libltfs/ltfs_fsops_raw.c:675-707 | with a good cache: succeeds exactly if the block is on tape and long enough, and then the bytes in hand are that block; the cache stays good if and only if the fetch succeeds, nothing was read, or what was cached agrees with what was read |
| `RawRead.PoisonedHit` | src/libltfs/ltfs_fsops_raw.c:675-707 | after a fetch that does not keep the cache good, fetching the block that had been cached succeeds with bytes that are not on tape there, as soon as the head is just behind it |
| `RawRead.PoisonedRun` | src/libltfs/ltfs_fsops_raw.c:626-707 | four reads of three positions, the last of which succeeds with bytes that are not on tape there |
| `RawRead.ReadExtent` | src/libltfs/ltfs_fsops_raw.c:626-718 | the bytes of one extent although curpos is not refreshed after a seek; succeeds if they are on tape; the cache is good after every success |
| `RawRead.Read` | src/libltfs/ltfs_fsops_raw.c:548-755 | whatever is returned is the flat file's bytes from offset to the end of the request or of the file; succeeds if every mapped byte is on tape; the cache is good after every success |
| `RawFile.Volume.Run` | src/libltfs/ltfs_fsops_raw.c:499-805 | any run of writes, truncates and reads on any files, with foreign blocks in between, answers as flat files with zero-filled holes and tails; every byte that is mapped lies where it was, or on the partition to which it was last written; as long as no empty write is among them, no extent of any file is ever empty |
| `RawFile.Volume.Execute` | src/libltfs/ltfs_fsops_raw.c:499-805 | one operation of such a run: where each byte of each file lies afterwards, and which partitions it leaves alone; extents stay non-empty exactly if it is no accepted empty write |
| `RawFile.Volume.Write` | src/libltfs/ltfs_fsops_raw.c:499-546 | a write adds its blocks to the partition asked for and to no other, changes only the file written, and maps the new bytes to the new blocks |
| `AltExtents.UpdateAltExtentList` | src/iosched/unified.c:1428-1512 | pushed in order, the list maps the bytes of newext to newext and all others as before, although overlapping entries are not split; the invariant is kept |
| `AltExtents.UpdatedOk` | src/iosched/unified.c:1446-1505 | the list stays sorted by start, and no later entry reaches past the end of an entry that can still be joined |
| `AltExtents.UpdatedNew` | src/iosched/unified.c:1446-1505 | newest wins, also when newext is joined to an entry in the middle of the list |
| `AltExtents.UpdatedOther` | src/iosched/unified.c:1446-1505 | nothing but the bytes of newext changes |
| `AltExtents.CutOverride` | src/iosched/unified.c:971-979 | truncation cuts what the list maps |
| `AltExtents.SaveAltExtentList` | src/iosched/unified.c:1520-1545 | pushing the list through add_extent gives the override of the file's own extents by the entries that were taken, in order; an entry is taken if and only if it is not refused and there is memory for a split or the list before it needs none |
| `AltExtents.NewestWins` | src/iosched/unified.c:1428-1545 | over every run of additions (each freshly appended) and truncations the list stands for the newest extents |
| `Paths.SameOrUnderIsPrefix` | src/libltfs/inc_journal.c:140-148 | the string test is exactly "same directory or below it", also for names that are prefixes of each other |
| `Paths.ParentFirst` | src/libltfs/inc_journal.c:500-505 | strcmp puts a directory before everything in it |
| `Journal.Volume.IncjCreate` | src/libltfs/inc_journal.c:182-233 | the journal and created_dirs afterwards |
| `Journal.Volume.IncjModify` | src/libltfs/inc_journal.c:248-290 | the journal afterwards |
| `Journal.Volume.IncjRmfile` | src/libltfs/inc_journal.c:302-372 | the journal afterwards: a creation vanishes, a modification becomes a deletion, the newest entry decides |
| `Journal.Volume.IncjRmdir` | src/libltfs/inc_journal.c:384-463 | the journal and created_dirs afterwards, including the early return in the middle of the first loop |
| `Session.DetachInv` | src/libltfs/inc_journal.c:302-463 | removal keeps the journal invariant, unless the directory had returned to its old place |
| `Session.AttachInv` | src/libltfs/inc_journal.c:182-233 | creation keeps it, also when it is skipped below a created directory |
| `Session.TouchInv` | src/libltfs/ltfs_internal.c:1566-1588 | marking a dentry dirty keeps it, also when nothing is recorded |
| `Session.SweepIs` | src/libltfs/inc_journal.c:402-418 | the first loop of rmdir drops exactly the created directories at or below the path, and stops only if it has dropped none |
| `Session.CreatedAntichain` | src/libltfs/inc_journal.c:194-233 | no created directory lies below another |
| `Replay.ReplayIsCurrent` | src/libltfs/inc_journal.c:500-523 | the journal, sorted, leads from the old tree to the current one |
| `Replay.DetachExact` | src/libltfs/inc_journal.c:420-438 | removing an object keeps the journal faithful if and only if it is not a directory that left its place in this session and returned to it |
| `Replay.RenamedBackAndRemoved` | src/libltfs/inc_journal.c:420-438 | rename away, rename back, remove: the journal is empty and the directory survives the replay |
| `Replay.DeleteFirst` | src/libltfs/inc_journal.c:500-523 | a deletion is written before whatever is created or modified at or below its path |
| `TreeEdits.SessionReplays` | src/libltfs/ltfs_fsops.c:250-910 | after any session of create, unlink, rename and modify without such a removal, the incremental index read back on the old tree gives exactly the tree that these edits make of it, which is defined without the journal |
| `TreeEdits.PerformInv` | src/libltfs/ltfs_fsops.c:815-910 | every operation, with the journal calls in its order, keeps the journal invariant |
| `TreeEdits.PerformAt` | src/libltfs/ltfs_fsops.c:250-910 | path by path, in terms of the tree before: what is at x after an edit (the new object, the moved subtree with the new times at its root, nothing below what was unlinked or moved away, new times at the parents, all else as it was) |
| `TreeEdits.PerformTree` | src/libltfs/ltfs_fsops.c:250-910 | journal or not, an edit makes the same tree |
| `TreeEdits.PerformDirty` | src/libltfs/ltfs_fsops.c:250-910 | exactly the flags of the new or moved object and of the parents that get new times are set |
| `TreeEdits.PerformNoted` | src/libltfs/ltfs_internal.c:1566-1588 | every object with its flag set, unless it is the root, is covered by the journal |
| `TreeEdits.SessionCreatedDirs` | src/libltfs/inc_journal.c:194-233 | in every state of a session created_dirs is an antichain of live created directories with nothing recorded strictly below |
| `IndexWriter.Resolve` | src/libltfs/ltfs.c:2615-2641 | never leaves the choice open; an incremental index is chosen if and only if it was asked for, or the choice was left open and no full one is due, and the format and the journal allow it |
| `IndexWriter.Attempt` | src/libltfs/ltfs.c:2759-2957 | pointers and generation are changed first and put back at every failure; what remains of a failed attempt: a generation, and an emptied journal if the XML writer had gone through it |
| `IndexWriter.Index.Write` | src/libltfs/ltfs.c:2654-2976 | equals the write with its recursive call that the theorems of IndexHistory and IndexOrder are about |
| `IndexHistory.SyncIndex` | src/libltfs/ltfs.c:3850-3960 | equals the sync that the theorems of IndexHistory and IndexOrder are about |
| `IndexHistory.FullSyncWrites` | src/libltfs/ltfs.c:3882-3934 | a full sync of a dirty volume, without a fault, writes one full index of a new generation, on the index partition if only the data partition ends in an index and else on the data partition, at the end of what is there; after it nothing is dirty |
| `IndexHistory.AutoSyncWrites` | src/libltfs/ltfs.c:3868-3934 | without a fault an automatic sync writes an index if and only if the volume is dirty and there are changes that are on no index or a full index is due; it is an incremental one, on the data partition, if and only if none is due and the journal is fit for it |
| `IndexHistory.CleanSyncIdles` | src/libltfs/ltfs.c:3868-3893 | exactly when a sync without a fault writes nothing, and then it changes nothing |
| `IndexHistory.BackPointersVisitAll` | src/libltfs/ltfs.c:2710-2931 | after any run of successful and failed writes, following back pointers from the current index visits every full index on the data partition in reverse order, with decreasing block numbers, and ends there |
| `IndexHistory.IncrementalsVisitAll` | src/libltfs/ltfs.c:2776-2945 | the same for the incremental indexes since the last full one |
| `IndexHistory.FailureRestores` | src/libltfs/ltfs.c:2759-2888 | of the failing branch that `IndexWriter.Attempt` is proved to take: all pointers and flags are restored, the generation exactly if a full index was due, the seek failed or nothing was dirty, and the journal exactly if a full index was due, the XML writer was not through with it, or it was empty |
| `IndexHistory.FullFailureRestores` | src/libltfs/ltfs.c:2710-2890 | the same for both attempts of `IndexWriter.Index.Write`: a failed full index leaves pointers and generation of the last index that is on tape, with or without the recursive write |
| `IndexHistory.BothPartitionsAgree` | src/libltfs/ltfs.c:2710-2760 | the two indexes of one call of `IndexWriter.Index.Write` carry the same generation, and the second points back to the first |
| `IndexOrder.IndexesInOrder` | src/libltfs/ltfs.c:2710-2757 | over every run, whatever else fails: every index on the index partition is a full one, stands behind a full index on the data partition that has neither data nor another index behind it, and points back to it; two indexes on the index partition are never neighbours unless data went there in between; if no permanent write error and no failure on the data partition was passed over |
| `IndexOrder.WriteInPlace` | src/libltfs/ltfs.c:2710-2757 | one index for the index partition ends up in its place if and only if the flags left room for it, or an index was put on the data partition first |
| `IndexOrder.ActsKnow` | src/libltfs/ltfs.c:2890-2945 | after any run, whatever fails: dp_index_file_end and ip_index_file_end say exactly whether the partitions end in an index (a full one, on the data partition), the pointers are those of the newest full index and of the newest on the data partition, and the dirty flags say exactly whether there was a change since the newest full index |
| `IndexOrder.MountedInOrder` | src/libltfs/ltfs.c:1889-1894 | a volume that was mounted, with an index at the end of both partitions, is such a state |
| `IndexOrder.BlankInOrder` | src/libltfs/ltfs.c:3425-3450 | so is a volume without any index |
| `IndexOrder.DataIsSecured` | src/libltfs/ltfs_internal.c:1435-1450 | over every run in which data goes to tape on the data path, whatever fails: data goes to a partition only while the other one ends in an index, and to the index partition only if the index on the data partition is newer than the one at its end; at any time one of the partitions ends in an index |
| `IndexOrder.GenerationsGrow` | src/libltfs/ltfs.c:2759-2765 | over every run, whatever fails: generations never go back, and grow with every index written after a change that counts; they grow by one, and only then, unless an incremental index failed behind the seek |
| `IndexHistory.HappenJournal` | src/libltfs/ltfs.c:2710-2722 | after one event: an index that was written leaves an empty journal; otherwise the journal has grown by what was recorded, unless the index was to go to both partitions or was an incremental one that failed behind the journal, and then it is empty |
| `IndexHistory.LosesExactly` | src/libltfs/ltfs.c:2710-2757 | which faults lose the journal: exactly those that let it be emptied and no index be written |
| `IndexHistory.JournalAccount` | src/libltfs/xml_writer_libltfs.c:766-842 | over every run: each change recorded since the last index is in the journal or was lost in such an event |
| `IndexHistory.JournalComplete` | src/libltfs/xml_writer_libltfs.c:766-842 | after any run the journal holds every change recorded since the last index, so that an incremental index describes them all, if and only if no event since then lost a journal that was not empty |
| `IndexHistory.ChangesForgotten` | src/libltfs/ltfs.c:2710-2722 | two runs, one of each kind, after which the next automatic sync writes an incremental index that misses a change |
| `IndexHistory.AutoSyncKeepsInterval` | src/libltfs/ltfs.c:3850-3960 | full_index_to_go is N minus the incremental indexes since the last full one, never below zero, whatever failed; an automatic sync writes only full indexes once N have followed |
| `IndexChain.ChainReads` | src/libltfs/ltfs.c:2654-2976 | after any run of edits, syncs and index writes, successful or not: the last full index, the incremental ones behind it in turn, and then the journal give the tree that the edits make of the first one, which is defined without journal and indexes; and back pointers find exactly those incremental indexes; if no event lost a journal that was not empty or cleared a flag that the journal relies on |
| `IndexChain.SyncSaves` | src/libltfs/ltfs.c:3850-3960 | after any such run, a sync without a fault, whatever kind of index is asked for, leaves the tape so that reading it back gives the current tree, whether it wrote a full index, an incremental one or, with nothing changed, none |
| `IndexChain.EventExact` | src/libltfs/xml_writer_libltfs.c:544-607 | what happens to the index keeps the chain if and only if no incremental index is written while a modified directory or the root has changed and lost its flag (given that no journal is lost) |
| `IndexChain.ReadExact` | src/libltfs/xml_writer_libltfs.c:544-607 | an incremental index, read on the tree of the index before it, gives the current tree if and only if everything written without attributes is as it was |
| `IndexChain.PerformFlagged` | src/libltfs/ltfs_internal.c:1566-1588 | every edit sets the flags its journal entries rely on |
| `IndexChain.FlagsForgotten` | src/libltfs/xml_writer_libltfs.c:383-390 | a directory is changed, a full index fails on tape, the next sync is incremental: no journal is lost, and the change is missing when the volume is read back |
| `IndexChain.TailIs` | src/libltfs/ltfs.c:2776-2945 | the incremental indexes that are read are the last ones written, and the one before them is the last full one |
| `Glob.MatchesNameCriteria` | src/libltfs/index_criteria.c:636-763 | ends, and answers exactly the declarative meaning of "*" and "?" for all patterns and names |
| `Glob.MarkUseless` | src/libltfs/index_criteria.c:675-684 | once the next asterisk is reached, going back to an older position gains nothing |
| `Glob.StarSeen` | src/libltfs/index_criteria.c:675-684 | consuming an asterisk makes the current position decide alone |
| `Glob.Marked` | src/libltfs/index_criteria.c:697-714 | pushing a third position over the second loses no match |
| `Glob.Stuck` | src/libltfs/index_criteria.c:719-756 | going back to the newest position, or giving up, is right when the current one fails |
| `CachePool.Pool.constructor` | src/iosched/cache_manager.c:125-150 | the initial pool |
| `CachePool.Pool.Allocate` | src/iosched/cache_manager.c:201-252 | free plus outstanding objects stay the capacity; succeeds exactly if the pool has room and can grow where it must; the first free block is handed out, and an empty pool doubles, or grows to half the maximum from nothing, as far as maximum and memory allow; a failed allocation changes nothing |
| `CachePool.Pool.GetObject` | src/iosched/cache_manager.c:259-270 | one more reference, nothing else |
| `CachePool.Pool.FreeObject` | src/iosched/cache_manager.c:276-310 | the last reference returns the object to the pool or shrinks it, never below the initial capacity |
| `CachePool.GrowsExactly` | src/iosched/cache_manager.c:218-230 | the new capacity, and that it is larger than the current one except above the maximum or from nothing to one |
| `CachePool.Pool.Run` | src/iosched/cache_manager.c:125-310 | over any sequence of calls with sane settings: initial <= current <= max, and for every allocation has_room was true exactly if it succeeded |

## Left out

- Device commands, SCSI errors, revalidation, fencing, MAM updates and end-of-data recovery; the tape is an append-only block map.
- Write errors in the scheduler (`_unified_handle_write_error`, `_unified_write_index_after_perm`, `ltfs_fsraw_cleanup_extent`), except for an index partition that has no room: the content theorems are about runs without device errors.
- Out-of-memory paths, except for add_extent and the block pool; `journal_err` appears only where the index type is chosen.
- IndexHistory: the journal is the number of changes in it, in IndexChain the number of entries; an entry that the XML writer fails to format is dropped by the source without an error (the result of closing the root tag replaces it), and that is not modelled.
- IndexChain.ChainReads: goes one way, because a later change of the same directory repairs the chain; IndexChain.EventExact is exact for each index. Edits after a lost journal are not modelled, nor are access times.
- IndexOrder: roll-back mounts, `ltfs_check_medium` and the recovery of append positions; data counts as written once its partition is marked, also if the device then fails.
- 32-bit wrap-around of the scheduler's counters: they are natural numbers, proved not to underflow.
- InterleaveProofs.RunIsFlat: a run ends with the first write that clashes; what later operations do to the overlapping list it leaves is not modelled.
- Interleave: which files get write_ip, from size and name, is left open: it may be set and unset at any step the code allows.
- IndexCopies: blocks that a failed write leaves behind on the index partition count as blocks of others.
- ext_queue membership, dentry reference counts and valid_blocks.
- Journal: keys are compared as path and uid, and of two entries with one key the newest is found; the hash table itself is not modelled.
- Replay: what reading an incremental index means is a specification of its own (deletions remove a subtree, a created directory brings its current subtree, a modification replaces one node); the XML text is not modelled.
- TreeEdits: times, attributes and extents of a dentry are one version number; Unicode normalisation, immutable and append-only files and the directory cache are not modelled.
- Glob: names and patterns are sequences of grapheme clusters; breaking text into clusters and case folding are left to ICU.
- The writer thread's choice of queue, waiting and signalling; liveness under cache pressure.
- Device commands behind `tape_seek_append_position`: the position on the index partition is a parameter, on the data partition it is the end of what was written.
- config_file.c, label.c, iosched.c, fcfs.c, dcache.c, kmi.c, base64.c and the tools: dispatch and string handling that would only add easy members.
