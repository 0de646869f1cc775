# Verified models of the log, the ring, the matcher and the memory-map parser

Four programs of this repository keep data in memory that several parties share or that a fast
path reads in an unusual way. This project models them in Dafny and proves what their comments,
tests and documentation promise, and, where a promise does not hold for all inputs, the exact
condition under which it does.

`dafny verify dfyconfig.toml` checks everything.

## What is modelled

**The append log** (`fastlog/include/mmlog.h`). `LogModel` is a step machine: every atomic load, store,
compare-and-swap and fetch-add, every `ftruncate`, `mmap`, `memcpy` and `pwrite` is one step of one
thread, for any number of processes and threads, and any thread may move next. A wait may time out
whenever it finds its condition false, and any system call may fail. The file is a sequence of bytes,
and a mapped chunk is a view onto it, so several live chunks may cover the same offsets. The invariant
of the reachable states comes in layers. Four hold in every run, whatever the sizes: the chunk ring and
its head lock (`LogRing`), the reference counts (`LogRefs`), the expand lock and the panic flag
(`LogExpand`), every thread's own job and progress (`LogHistory`, `LogProgress`). The tiling by
reservations (`LogHistory`) holds while they end below 2^64, and so does the exact account of what
becomes of written bytes (`LogRecords`). That nothing written is ever lost, and the sizes (`LogSteps`,
`LogRuns`), need reservations that can be rounded up in 32 bits. `LogInvariant` has the predicates,
`LogTheorems` reads the promises off the layers, `LogVerdicts` says which way an insert goes and when it
fails, `LogSolo` shows that from every reachable state with free locks an insert left alone succeeds,
and `LogBeyond` what happens past the rounding bound. `LogSplit` is about the arithmetic of one insert,
`LogAlign` about the rounding macro in its 32- and 64-bit arithmetic, `LogHandle` is the same code run
by one thread, as classes whose fields and arrays are updated in place, with `clean_chunks` for a tail
that is not null. `LogOpen` is the create-or-open handshake.

**The ring buffer** (`simple_ringbuffer/ring_buffer.hpp`). `RingCodec` is the serialized record and its
decoding, `RingQueue` the mirrored buffer as values and its refinement of a bounded queue,
`RingBuffer` the classes: the window onto both mappings, `RBIn`, and `write` and `read`.

**The control-code matcher** (`type_punning/punning.cpp`). `MaskedWords` is the comparison of eight
bytes loaded as one masked word, `CodeWalk` the two scans as walks over what starts at each position,
`Punning` the tables, both counting loops and their relation on every string.

**The memory-map parsers** (`smaps_spy/src/parser.rs`). `ProcText` holds the text operations,
`MemoryLines` what one line says, `MemoryParser` what a sequence of lines means and both parsers as
loops over lines, `MemoryMaps` the class `MemoryStats` with its
aggregating index, `MemoryTotals` what the index conserves. Sums wrap as in a release build.

## What the code does that its comments do not say

- `ALIGN(end, chunk_size)` masks a 64-bit sum with a 32-bit complement. A grown file covers the range
  it was grown for if and only if `end + chunk_size - 1` is below 2^32 (`LogAlign.AlignCoversIff`,
  `LogBeyond.GrowthDeliversIff`); a log just over 4 GiB shrinks to one page
  (`LogBeyond.GrowthPastFourGigabytes`).
- Such an `ftruncate` destroys records already reported as written: growing for 4097 bytes behind a
  committed record of 2^32 - 4096 leaves one page of it (`LogBeyond.CommittedRecordLost`). It is the only
  way: while reservations end below 2^64, everything committed and everything written so far stays in the
  file if and only if no `ftruncate` of the run is below the end of some of it (`LogRecords.IntactIff`,
  `LogRecords.RecordSurvivesIff`).
- A copy into a mapping faults if and only if the file no longer reaches that far
  (`LogTheorems.FaultIsShortFile`); an insert of one byte behind that record empties the file and faults
  (`LogBeyond.CopyFaults`).
- A panic freezes the recorded size in every run (`LogTheorems.PanicSticks`), the physical size only
  inside that bound: past it, a `pwrite` of a thread that was checked out before the file shrank extends
  the file of a panicked log (`LogBeyond.PanickedLogGrows`). No other step changes it
  (`LogTheorems.PanickedSizeChangesIff`).
- `mmlog_cross_count` keeps 32 bits of a 64-bit difference. Off the direct path the loop of
  `mmlog_insert` runs at most twice if and only if the true count is below 2^32
  (`LogSplit.AtMostTwoPieces`); 2^44 bytes in chunks of a page are taken for a record that crosses
  nothing and cut into 2^32 + 1 pieces (`LogSplit.CrossingsWrap`).
- A record that fills a whole chunk does not always bypass the ring: it does if that chunk begins after
  the record or is all of it. One that begins at a boundary, fills that chunk and reaches into the next
  goes through the ring in two pieces (`LogSplit.DirectIff`, `LogVerdicts.WaysToWrite`).
- `mmlog_open` leaves the tail null, so `clean_chunks` never releases anything in a real run, and a chunk
  that the ring has wrapped over stays mapped for ever (`LogTheorems.ChunkLifetime`).
- A thread that takes the expand lock of a panicked log keeps it and reports failure; everybody then
  waits until the timeout (`fastlog/include/mmlog.h:431-435`, `LogTheorems.RefusedStep`). An insert that
  needs no growth does not notice: it still succeeds (`LogSolo.CoveredSucceeds`).
- A waiter sizes its check of the data file by a chunk size that it may have read before it was
  stored; the log it opens is complete all the same (`LogOpen.OpenersSeeCompleteLog`). It also reads that
  field before it checks that the mapping succeeded (`fastlog/include/mmlog.h:277-279`): it crashes if
  and only if that `mmap` fails (`LogOpen.CrashesAtMapOnly`).
- The admission check of the ring is exact while the write position has not wrapped behind the read
  position; after that it lets in records that overrun unread ones (`RingQueue.AdmissionExact`,
  `RingQueue.WriteRefines`). Two writes, a read and two writes of 2000 bytes to a one-page ring destroy
  an unread record, and the next read delivers an empty record that nobody wrote
  (`RingQueue.WrappedWriteDestroys`). No such write is harmless: it replaces the first unread byte, or
  makes the positions meet, and then the next read finds nothing (`RingQueue.OverrunDestroys`).
- The fast matcher does not know `$LP$` (`Punning.ParenIsMissed`), and steps over five bytes of a
  five-byte code where the plain one steps over four (`Punning.OverlapIsMissed`). Both scans hit the
  same positions if and only if no code behind an even run of linked four-byte codes is a `$LP$`, or a
  five-byte code whose closing `$` opens another code (`CodeWalk.ScansAgreeIff`). The counts can be
  equal even then, because one miss can make room for another hit (`Punning.MissMakesRoom`). They are
  equal if and only if every code that is `$LP$`, or stands behind an odd run of table codes, and stands
  behind an even run of four-byte codes, has four bytes itself and is followed by a linked table code
  (`CodeWalk.CountsEqualIff`); such runs of codes that share their `$` can be read off the text.

## Model

| member | source | states |
|---|---|---|
| LogAlign.AlignBelowBound | fastlog/include/mmlog.h:24 | while `x + a - 1` fits 32 bits the rounded value is at least `x` and less than `x + a` |
| LogAlign.AlignBeyondBound | fastlog/include/mmlog.h:24 | past that bound the rounded value is always smaller than the request |
| LogAlign.AlignCoversIff | fastlog/include/mmlog.h:438-453 | the new size covers the requested end if and only if `end + chunk_size - 1 < 2^32`, and is page-aligned in every case |
| LogAlign.AlignPowerOfTwo | fastlog/include/mmlog.h:24 | for a power-of-two chunk size the result is the least multiple at or above the request |
| LogAlign.MaskSplits | fastlog/include/mmlog.h:24 | a mask and its complement split the low bits of any word into two parts that add up to them |
| LogModel.Resize | fastlog/include/mmlog.h:442 | `ftruncate` gives exactly the new length, keeps every byte below the old one and fills with zeros |
| LogSplit.OverwriteJoins | fastlog/include/mmlog.h:741 | two stores side by side leave the file that one store of both leaves |
| LogModel.WindowUnique | fastlog/include/mmlog.h:586 | a position lies in exactly one chunk-aligned window, the one that starts at its rounded-down offset |
| LogInvariant.TiledDisjoint | fastlog/include/mmlog.h:488-490 | ranges handed out by the fetch-add never overlap |
| LogInvariant.GrowStable | fastlog/include/mmlog.h:420-465 | what a thread knows about the sizes and the expand lock survives every step another thread may take |
| LogInvariant.HeadStable | fastlog/include/mmlog.h:607-729 | what a thread knows about head, slots and its chunk survives every step another thread may take |
| LogInvariant.DataStable | fastlog/include/mmlog.h:741 | bytes a thread has written stay as written under stores of the others |
| LogHistory.ReserveTiles | fastlog/include/mmlog.h:489-490 | the fetch-add extends the tiling by the new range and touches nothing else, for every end below 2^64 |
| LogHistory.RunTiling | fastlog/include/mmlog.h:488-499 | in every run whose reservations end below 2^64 they lie end to end up to the cursor |
| LogRing.CreateMakes | fastlog/include/mmlog.h:576-598 | a created chunk is aligned, mapped, starts at count one and serves the position it was created for |
| LogRing.InspectChooses | fastlog/include/mmlog.h:706-720 | the head is used exactly when it serves the position; otherwise, the tail being null, a chunk is created |
| LogRing.StoreSlotRing | fastlog/include/mmlog.h:679-680 | storing the new chunk behind the head leaves the head slot as published |
| LogRing.StoreNullRing | fastlog/include/mmlog.h:671-676 | so does a failed creation |
| LogRing.AdvancePublishes | fastlog/include/mmlog.h:682-685 | advancing finds the head unmoved and publishes the newest chunk |
| LogRing.CleanLeaves | fastlog/include/mmlog.h:519-527 | with a null tail `clean_chunks` changes nothing and the insert returns true |
| LogRing.RingKeeps | fastlog/include/mmlog.h:566-811 | any step keeps the ring facts of its thread and what the other threads of the process rely on, whatever the sizes |
| LogRing.RunRing | fastlog/include/mmlog.h:566-811 | the ring facts hold in every reachable state |
| LogExpand.LocalLocks | fastlog/include/mmlog.h:420-476 | any step keeps lock and flag consistent, freezes the recorded size after a panic, and leaves the holder of the lock alone |
| LogExpand.RunExpand | fastlog/include/mmlog.h:420-476 | the lock facts hold in every reachable state |
| LogSteps.TruncateCovers | fastlog/include/mmlog.h:439-448 | growing covers the requested end |
| LogSteps.TruncateKeeps | fastlog/include/mmlog.h:439-448 | and keeps every committed record |
| LogSteps.StorePanicKeeps | fastlog/include/mmlog.h:442-447 | a failed growth sets the panic flag with both sizes unchanged and equal |
| LogSteps.VerdictKeeps | fastlog/include/mmlog.h:467-476 | after the expand loop a thread either fails or owns a range inside the recorded size |
| LogSteps.OwnStoreKeepsLog | fastlog/include/mmlog.h:741 | a store inside the thread's own range changes no committed record |
| LogSteps.CopyIsLegal | fastlog/include/mmlog.h:740-741 | the copy hits a live mapping, inside it and inside the file, and is exactly the next piece of the payload |
| LogSteps.DirectKeeps | fastlog/include/mmlog.h:768-779 | `pwrite`, complete or cut short, writes only the reserved range, and only a complete one commits |
| LogSteps.CleanKeepsCore | fastlog/include/mmlog.h:806-810 | after the last piece the whole payload is in place and is committed |
| LogSteps.StepKeeps | fastlog/include/mmlog.h:478-811 | any step of any thread keeps that thread's facts and stays within what the others rely on |
| LogRefs.HoldersUpdate | fastlog/include/mmlog.h:713-742 | the number of holders of a chunk changes only by what the acting thread does |
| LogRefs.StepRefs | fastlog/include/mmlog.h:596-742 | every step moves the counts exactly as it moves the set of holders; a new chunk starts at one |
| LogRefs.RunRefs | fastlog/include/mmlog.h:596-742 | in every reachable state a count is one plus the holders, and at most one more for each thread that faulted while holding |
| LogRuns.StepInv | fastlog/include/mmlog.h:420-811 | one step by any thread keeps the whole invariant: sizes, tiling, records, ring, counts, locks |
| LogRuns.RunInv | fastlog/include/mmlog.h:420-811 | the invariant holds in every reachable state, for any number of processes and threads |
| LogTheorems.AppendLog | fastlog/include/mmlog.h:746-811 | a committed payload is exactly the bytes of its range; if all inserts succeed the file up to the cursor is the payloads in fetch-add order |
| LogTheorems.CommittedForever | fastlog/include/mmlog.h:746-811 | no later step changes a committed record |
| LogTheorems.ReservationsTile | fastlog/include/mmlog.h:488-499 | while ends fit 64 bits all ranges, of failed inserts too, tile `[0, cursor)` in order without gap or overlap |
| LogTheorems.GrowthIsSafe | fastlog/include/mmlog.h:420-500 | recorded size never exceeds physical size, both only grow, they agree when the lock is free, and a checked-out range is inside the file from then on |
| LogTheorems.ExpandIsExclusive | fastlog/include/mmlog.h:429-460 | in every run at most one thread of all processes is between taking and releasing the expand lock, and without a panic a taken lock has a holder |
| LogTheorems.PanicSticks | fastlog/include/mmlog.h:442-447 | in every run the flag stays set and the recorded size is frozen after a panic |
| LogTheorems.PanicIsAbsorbing | fastlog/include/mmlog.h:430-499 | inside the rounding bound the physical size is frozen too, committed records stay intact, nothing that needs growth is ever checked out or committed, and a range that needs none is still handed out |
| LogTheorems.CoveredIsHandedOut | fastlog/include/mmlog.h:488-499 | in every run, panicked or not, a range is handed out at once if and only if the recorded size covers it |
| LogTheorems.PanickedSizeChangesIff | fastlog/include/mmlog.h:430-476 | in every run, bound or no bound, a step after a panic changes the physical size if and only if it is a `pwrite` past the end of the file |
| LogTheorems.RefusedStep | fastlog/include/mmlog.h:429-476 | on a panicked log a step of a checkout that needs growth waits for the lock, takes it and leaves it taken, or returns false |
| LogTheorems.PanickedCheckoutFails | fastlog/include/mmlog.h:429-476 | in every run such a checkout stays in its wait until it returns false, whatever the other threads do: it is never handed its range |
| LogHistory.RunJobs | fastlog/include/mmlog.h:489-490 | in every reachable state the entry of a thread inside an insert is its own open range and payload, and no two threads work on one |
| LogProgress.StepProgress | fastlog/include/mmlog.h:746-811 | every step leaves its thread as far with its payload as its new place says: nothing written in the checkout, all of it when cleaning |
| LogProgress.RunProgress | fastlog/include/mmlog.h:746-811 | that holds in every reachable state, whatever the sizes |
| LogRecords.StepStores | fastlog/include/mmlog.h:439-779 | every step but an `ftruncate` leaves all bytes outside its thread's own range |
| LogRecords.RecordStep | fastlog/include/mmlog.h:439-779 | a step leaves a committed record in the file if and only if it is no `ftruncate` below the record's end |
| LogRecords.PartStep | fastlog/include/mmlog.h:439-779 | the same for what another open insert has written |
| LogRecords.StepOwn | fastlog/include/mmlog.h:731-811 | a thread's own step keeps what it has written, and a record it commits is in the file if that was |
| LogRecords.StepIntact | fastlog/include/mmlog.h:420-811 | a step leaves all records and all written bytes in the file if and only if it does not cut into them |
| LogRecords.IntactIff | fastlog/include/mmlog.h:420-811 | while ends fit 64 bits, everything committed or written is in the file at every moment of a run if and only if no `ftruncate` of the run cuts into it |
| LogRecords.EntryForever | fastlog/include/mmlog.h:746-811 | in every run the entry of an insert that has returned never changes |
| LogRecords.RecordSurvivesIff | fastlog/include/mmlog.h:438-453 | a committed record stays in the file for the rest of a run if and only if no `ftruncate` of that rest is below its end |
| LogRecords.IntactReads | fastlog/include/mmlog.h:746-811 | where nothing is cut away, a committed payload is the bytes of its range, and the payloads of all-successful inserts are the file up to the cursor |
| LogTheorems.ChunkLifetime | fastlog/include/mmlog.h:576-744 | in every run every created chunk stays mapped over its aligned window with a positive count, equal to one plus its holders unless a thread has faulted, and the tail stays null |
| LogTheorems.NoFault | fastlog/include/mmlog.h:669-744 | inside the rounding bound no thread ever faults or reclaims; every copy is inside a live mapping and the file, also after wrap-around of the ring |
| LogTheorems.FaultIsShortFile | fastlog/include/mmlog.h:740-741 | in every run, bound or no bound, a step faults if and only if it copies a piece that the file does not reach |
| LogTheorems.HeadLockDiscipline | fastlog/include/mmlog.h:607-729 | in every run one holder of the head lock per process, never left behind; while free, head index and head slot are those of the newest chunk |
| LogTheorems.HeadCasSucceeds | fastlog/include/mmlog.h:682-685 | in every run the compare-and-swap on the head never fails |
| LogTheorems.HeadIsReused | fastlog/include/mmlog.h:706-720 | in every run the head chunk is taken if it serves the position, and a chunk is created only if it does not |
| LogVerdicts.RunRouted | fastlog/include/mmlog.h:766-785 | in every reachable state a thread is in `pwrite` exactly if its range takes the direct path |
| LogVerdicts.WaysToWrite | fastlog/include/mmlog.h:766-804 | in every run, while crossings fit 32 bits, a payload goes out by one `pwrite` if and only if its range holds a whole chunk that begins after it does, or is one whole chunk; all others go through the ring in at most two pieces |
| LogVerdicts.LocksWait | fastlog/include/mmlog.h:158-171 | in every run a taken lock makes a thread wait until it is free or the time is up, and a free one is taken |
| LogVerdicts.QuietRunsSucceed | fastlog/include/mmlog.h:746-811 | in a run without timeouts and failing system calls no insert returns false and the log does not panic |
| LogBeyond.GrowthDeliversIff | fastlog/include/mmlog.h:438-476 | growing delivers a range inside the file if and only if its end can be rounded up in 32 bits |
| LogBeyond.GrowthPastFourGigabytes | fastlog/include/mmlog.h:441 | an end of 2^32 + 1 is rounded to 4096 |
| LogBeyond.PanickedLogGrows | fastlog/include/mmlog.h:438-476 | a run, from the fresh log on, in which the file of a panicked log grows |
| LogBeyond.CommittedRecordLost | fastlog/include/mmlog.h:438-453 | a run, from the fresh log on, in which a committed record that is in the file is cut off by the growth for the next one |
| LogBeyond.CopyFaults | fastlog/include/mmlog.h:740-741 | a run, from the fresh log on, in which a copy faults |
| LogSolo.StepAdvances | fastlog/include/mmlog.h:478-811 | every step of an undisturbed insert is possible and brings it strictly closer to one and the same final file, or ends it |
| LogSolo.WorkSucceeds | fastlog/include/mmlog.h:746-811 | from any point of an insert that has met no failure, the thread alone returns true after finitely many steps |
| LogSolo.CallSucceeds | fastlog/include/mmlog.h:746-811 | in any reachable state with a free head lock, a call that needs no growth, or meets no panic and a free expand lock, carries the run on when left alone to a state with its record appended and readable at the old cursor, all else as it was |
| LogSolo.CoveredSucceeds | fastlog/include/mmlog.h:488-811 | a thread that has reserved a range which needs no growth stores its payload and returns true when left alone, whatever panic flag and expand lock say |
| LogSplit.SplitTiles | fastlog/include/mmlog.h:781-804 | the pieces tile the range in order, each inside one chunk, exactly one per chunk met |
| LogSplit.CrossCountExact | fastlog/include/mmlog.h:566-574 | the crossing count is the true one modulo 2^32 |
| LogSplit.AtMostTwoPieces | fastlog/include/mmlog.h:767-785 | off the direct path the loop runs at most twice if and only if the true crossing count is below 2^32 |
| LogSplit.DirectIff | fastlog/include/mmlog.h:766-767 | the direct path is for ranges that hold a whole chunk beginning after they do, or are one whole chunk |
| LogSplit.CrossingsWrap | fastlog/include/mmlog.h:767-785 | 2^44 bytes at offset one, in pages, count as no crossing and take 2^32 + 1 pieces |
| LogSplit.SplitEqualsPwrite | fastlog/include/mmlog.h:775-804 | storing the pieces leaves the file that one `pwrite` would leave |
| LogHandle.LeadingIsLongest | fastlog/include/mmlog.h:519-561 | the reclaimable prefix is the longest one |
| LogHandle.WindowExtends | fastlog/include/mmlog.h:669-685 | publishing appends the old head to the chunks behind the tail |
| LogHandle.ChunkBuffer.CleanOldest | fastlog/include/mmlog.h:519-561 | one round releases the oldest tracked chunk if and only if it exists and is unpinned |
| LogHandle.ChunkBuffer.CleanChunks | fastlog/include/mmlog.h:502-564 | terminates and releases exactly the longest unpinned prefix from the tail, each chunk once, never past the head; nothing is left to release |
| LogHandle.ChunkBuffer.MakeRoom | fastlog/include/mmlog.h:653-667 | a full ring is cleaned once; there is room if and only if that released something |
| LogHandle.ChunkBuffer.Publish | fastlog/include/mmlog.h:669-685 | the slot behind the head gets the new chunk, which becomes the head while the old head is tracked, or null after a failed creation, and then neither changes |
| LogHandle.ChunkBuffer.AddNewChunk | fastlog/include/mmlog.h:632-688 | fails if and only if the ring is stuck, which leaves it as it was, or the mapping fails; otherwise the new chunk is the head |
| LogHandle.LogHandle.Expand | fastlog/include/mmlog.h:420-476 | grows to the rounded end, or panics, or refuses after a panic; nothing else changes |
| LogHandle.LogHandle.Checkout | fastlog/include/mmlog.h:478-500 | hands out the old cursor exactly when the range is covered or growth succeeds |
| LogHandle.LogHandle.RbCheckout | fastlog/include/mmlog.h:690-729 | a head that serves the position is handed out whatever `mmap` would answer, with the ring unchanged; otherwise a new chunk, or none if the ring is stuck or the mapping fails; its count goes up by one and no other changes |
| LogHandle.LogHandle.WriteToChunk | fastlog/include/mmlog.h:731-744 | one piece is stored through its chunk, exactly if there is one, and every count is as before |
| LogHandle.LogHandle.WriteLoop | fastlog/include/mmlog.h:781-804 | the loop stores the whole payload as one overwrite, with a null tail exactly if every piece finds its chunk, and always if the head holds the range; a failure leaves the pieces before it; no count changes |
| LogHandle.LogHandle.Insert | fastlog/include/mmlog.h:746-811 | success means the grown file with the payload at the old cursor, failure that a first part of it or nothing is stored; with a null tail success is decided exactly by growth, `pwrite` and the mappings its pieces need, none of them for a record that the head holds; after the loop the ring is cleaned; no count changes |
| LogOpen.StepInv | fastlog/include/mmlog.h:167-371 | one step of any opener keeps the handshake invariant |
| LogOpen.AtMostOneCreator | fastlog/include/mmlog.h:347-361 | at most one of any number of racing openers becomes the creator |
| LogOpen.OpenersSeeCompleteLog | fastlog/include/mmlog.h:255-310 | whoever gets a handle finds version, page size, chunk size, file size and data file complete, as an opener that has created the log chose |
| LogOpen.CrashesAtMapOnly | fastlog/include/mmlog.h:277-282 | an opener crashes if and only if the `mmap` of the metadata fails under it |
| LogOpen.HandlesAgree | fastlog/include/mmlog.h:325-413 | all handles, at any time, agree on chunk size and version |
| LogOpen.FailedCreatorBlocks | fastlog/include/mmlog.h:167-220 | if the creator fails no opener ever succeeds, before or after |
| LogOpen.FailuresHaveCauses | fastlog/include/mmlog.h:167-371 | in every run an opener fails exactly by a failing system call of the creator, by bad arguments, or by a timeout of a wait whose condition does not hold |
| LogOpen.ArgumentsIff | fastlog/include/mmlog.h:318-383 | an open goes ahead exactly if the chunk size is a multiple of 4096 that is not zero in 32 bits and there are at least two chunks; otherwise no file is touched |
| LogOpen.FirstOpenerCreates | fastlog/include/mmlog.h:167-220 | without failures the first opener creates a complete log of the chunk size it asked for |
| LogOpen.LaterOpenerOpens | fastlog/include/mmlog.h:255-310 | without failures a later opener of a ready log, whoever wrote it, gets a handle exactly if the version is 1 and the data file is a chunk long, and changes neither file |
| RingCodec.SectionsInPlace | simple_ringbuffer/ring_buffer.hpp:105-129 | all four offsets land on their sections and the last section ends at the serialized size |
| RingCodec.HeaderLoads | simple_ringbuffer/ring_buffer.hpp:153-165 | the seven header words read back as written |
| RingCodec.WordBytes | simple_ringbuffer/ring_buffer.hpp:105-129 | words are little-endian: byte `k` is the digit of weight `256^k` |
| RingCodec.DecodedSize | simple_ringbuffer/ring_buffer.hpp:62-69 | bytes written, `serializedSize()` and the decoded size are the same number |
| RingCodec.RoundTrip | simple_ringbuffer/ring_buffer.hpp:105-191 | a record of NUL-free strings decodes to itself, whatever follows it in memory |
| RingCodec.RoundTripIff | simple_ringbuffer/ring_buffer.hpp:105-191 | decoding gives back the record if and only if no string holds a zero byte |
| RingCodec.StrLenLoop | simple_ringbuffer/ring_buffer.hpp:188-189 | `strlen` counts up to the first zero byte |
| RingCodec.ReadValues | simple_ringbuffer/ring_buffer.hpp:179-183 | the value loop reads the values in order |
| RingCodec.ReadAllEntries | simple_ringbuffer/ring_buffer.hpp:185-190 | the entry loop reads the triples in order, moving all three pointers together |
| RingCodec.Deserialize | simple_ringbuffer/ring_buffer.hpp:153-191 | size and record are what `Decode` finds in the memory |
| RingQueue.StoredReadsBack | simple_ringbuffer/ring_buffer.hpp:278-298 | what is stored at a window address is what the memory from that address on starts with, across the seam of the mappings |
| RingQueue.MirrorAt | simple_ringbuffer/ring_buffer.hpp:278-298 | a byte of a stored run that no later lap overwrites, so every byte of a run of at most one lap, reads back as stored, across the seam of the mappings |
| RingQueue.AdmissionExact | simple_ringbuffer/ring_buffer.hpp:228-230 | the check is exact unless the write position has wrapped; then it lets in one lap too much |
| RingQueue.EmptyIff | simple_ringbuffer/ring_buffer.hpp:256-260 | the positions coincide if and only if nothing is unread |
| RingQueue.StoreKeepsUnread | simple_ringbuffer/ring_buffer.hpp:250-252 | a record that fits touches no unread byte |
| RingQueue.WriteRefines | simple_ringbuffer/ring_buffer.hpp:217-254 | an admitted write appends its record to the queue if and only if it fits, and stays inside the double mapping |
| RingQueue.OverrunDestroys | simple_ringbuffer/ring_buffer.hpp:228-252 | a write admitted without fitting puts its own byte in the place of the first unread one, or makes the positions meet with records unread, and then a read finds nothing |
| RingQueue.TwoWritten | simple_ringbuffer/ring_buffer.hpp:217-254 | two writes of 2000 bytes to an empty one-page ring |
| RingQueue.ThenWrapped | simple_ringbuffer/ring_buffer.hpp:217-269 | a read and a third write that fits take the write position behind the read position |
| RingQueue.WrappedWriteDestroys | simple_ringbuffer/ring_buffer.hpp:228-252 | there a fourth write is admitted without fitting, and the next read delivers a record that nobody wrote |
| RingQueue.ReadRefines | simple_ringbuffer/ring_buffer.hpp:256-269 | a read removes the oldest record and delivers it intact if and only if it is NUL-free |
| RingQueue.OperationRefines | simple_ringbuffer/ring_buffer.hpp:217-269 | one operation under the caller's checks answers as the bounded queue does and keeps the relation |
| RingQueue.RunRefines | simple_ringbuffer/ring_buffer.hpp:217-269 | every run of operations gives the answers of the bounded queue |
| RingBuffer.Window.Store | simple_ringbuffer/ring_buffer.hpp:86-103 | a copy to a window address stores the mirrored run |
| RingBuffer.Window.Load | simple_ringbuffer/ring_buffer.hpp:261 | the memory the reader sees through both mappings |
| RingBuffer.RBIn.Push | simple_ringbuffer/ring_buffer.hpp:71-75 | the flattened buffers are those of the entries pushed so far, in order |
| RingBuffer.RBIn.TotalSize | simple_ringbuffer/ring_buffer.hpp:62-69 | the sum of the parts is the size of the encoded record |
| RingBuffer.RBIn.Serialize | simple_ringbuffer/ring_buffer.hpp:105-129 | writing part by part through the advancing pointer stores the encoded record |
| RingBuffer.RingBuffer.constructor | simple_ringbuffer/ring_buffer.hpp:197-204 | the size is rounded up to whole pages and the ring starts empty |
| RingBuffer.RingBuffer.Write | simple_ringbuffer/ring_buffer.hpp:217-254 | the new ring is `WriteRing` of the old one; true means admitted |
| RingBuffer.RingBuffer.Read | simple_ringbuffer/ring_buffer.hpp:256-269 | new ring and outcome are `ReadRing` of the old one |
| MaskedWords.LoadInjective | type_punning/punning.cpp:83 | equal words mean equal bytes |
| MaskedWords.MaskKeeps | type_punning/punning.cpp:57-70 | mask `n` keeps exactly the first `n` bytes, for all nine masks |
| MaskedWords.MaskedMatch | type_punning/punning.cpp:85 | the masked word equals a zero-padded code if and only if the first bytes equal the code |
| CodeWalk.SlowWalkHits | type_punning/punning.cpp:101-136 | the plain scan hits exactly the codes that no hit code overlaps from the left |
| CodeWalk.FastWalkHits | type_punning/punning.cpp:74-99 | the fast scan hits exactly the table codes that no hit code reaches into |
| CodeWalk.ScansAgreeIff | type_punning/punning.cpp:74-136 | the scans hit the same positions if and only if no code behind an even run of linked four-byte codes is `$LP$` or closes as a five-byte code onto another, a condition on the text |
| CodeWalk.SlowIsLargest | type_punning/punning.cpp:106-134 | no choice of non-overlapping codes is larger than the plain scan's |
| CodeWalk.CountsCompare | type_punning/punning.cpp:74-136 | the fast count never exceeds the plain count |
| CodeWalk.SlowByRun | type_punning/punning.cpp:101-136 | the plain scan hits exactly the codes behind an even run of linked four-byte codes |
| CodeWalk.FastByRun | type_punning/punning.cpp:74-99 | the fast scan hits exactly the table codes behind an even run of linked table codes |
| CodeWalk.CountsEqualIff | type_punning/punning.cpp:74-136 | the counts are equal if and only if the chains of linked codes are balanced, a condition on the text |
| Punning.InitLookupPre | type_punning/punning.cpp:13-44 | the two loops fill the table with thirteen padded codes and their lengths |
| Punning.InitLookup | type_punning/punning.cpp:48-56 | every row is the word of its padded code |
| Punning.AtMostOneCode | type_punning/punning.cpp:14-31 | at most one table code starts at a position |
| Punning.KindsShaped | type_punning/punning.cpp:14-31 | inside a code no other code starts, except at its closing `$` |
| Punning.TestRow | type_punning/punning.cpp:83-85 | the masked comparison tests whether the window starts with the row's code |
| Punning.MatchLength | type_punning/punning.cpp:83-90 | the table loop finds the code that starts here, and its length, or none |
| Punning.CountHits | type_punning/punning.cpp:74-99 | the fast loop counts the table codes with sixteen bytes of text from their `$` on that stand behind an even run of linked table codes |
| Punning.Matches | type_punning/punning.cpp:109 | the bounded comparison decides whether the text starts with the literal |
| Punning.CountHitsBad | type_punning/punning.cpp:101-136 | the plain loop counts the codes, `$LP$` included, with as much text that stand behind an even run of linked four-byte codes |
| Punning.WalksCount | type_punning/punning.cpp:74-136 | the two walks hit as many positions as the text says, without the walks |
| Punning.FirstCodeCounts | type_punning/punning.cpp:78-105 | the first code of a text is counted if and only if fifteen more bytes follow its `$` |
| Punning.NoCodeNoCount | type_punning/punning.cpp:74-136 | a text without a code that has room behind it counts zero |
| Punning.FastRefinesPlain | type_punning/punning.cpp:74-136 | on every string: when the positions agree, when the counts agree, and that the fast count is never larger |
| Punning.PlainTextAgrees | type_punning/punning.cpp:74-136 | without `$LP$` and without a five-byte code closing onto another the scans agree |
| Punning.ParenIsMissed | type_punning/punning.cpp:114 | a string with `$LP$` on which the counts differ |
| Punning.OverlapIsMissed | type_punning/punning.cpp:124-126 | a string with a five-byte code closing onto another on which the counts differ |
| Punning.MissMakesRoom | type_punning/punning.cpp:74-136 | a string on which the counts agree and the positions differ |
| ProcText.TrimWords | smaps_spy/src/parser.rs:182-188 | trimming a line does not change its words |
| ProcText.JoinSplits | smaps_spy/src/parser.rs:155 | words joined by single spaces split back into the same words |
| ProcText.SpacedSplits | smaps_spy/src/parser.rs:131 | words with any spaces and tabs between them, before and behind split back into the same words |
| ProcText.SplitGivesWords | smaps_spy/src/parser.rs:131 | every part is non-empty and free of white space |
| ProcText.NumberReadsBack | smaps_spy/src/parser.rs:149-152 | every 64-bit number reads back from its digits, in any radix up to sixteen |
| ProcText.PaddedReadsBack | smaps_spy/src/parser.rs:149-152 | it does with any number of zeros in front |
| ProcText.NumberReadsIff | smaps_spy/src/parser.rs:149-152 | a text reads as a number if and only if it is digits of either case, possibly behind a plus, of that positional value, below 2^64 |
| ProcText.SplitOnce | smaps_spy/src/parser.rs:144-147 | a text with one separator splits into the two parts around it |
| ProcText.SplitBack | smaps_spy/src/parser.rs:144-147 | and only such a text splits into two parts |
| MemoryLines.HeaderReadsBack | smaps_spy/src/parser.rs:137-165 | the words of a printed header, its addresses padded with zeros or not, give back addresses, size, permissions and the words from the sixth on as the path |
| MemoryLines.LineReadsBack | smaps_spy/src/parser.rs:129-165 | the same from the text of the line, however it is spaced |
| MemoryLines.GoodHeaderNames | smaps_spy/src/parser.rs:144-154 | a line opens a mapping only if its first word is two addresses with one dash between them, and those are its addresses |
| MemoryLines.NamedIsGood | smaps_spy/src/parser.rs:140-154 | and every line whose first word is that does |
| MemoryLines.DashesDecide | smaps_spy/src/parser.rs:133-147 | a line is no header without a dash in the first of two words, and is dropped with more than one |
| MemoryLines.AddressesDecide | smaps_spy/src/parser.rs:149-152 | with one dash a line opens a mapping exactly if both parts are 64-bit hexadecimal addresses; the first that is not is reported and fatal |
| MemoryLines.StatReadsBack | smaps_spy/src/parser.rs:224-232 | a printed Rss or Pss line, however spaced and padded, gives its value times 1024 to its own statistic and nothing to the other |
| MemoryLines.StatOfWords | smaps_spy/src/parser.rs:224-232 | any line gives a statistic exactly if its first word starts with the tag and its second is a number, in kilobytes of 1024 |
| MemoryParser.LastStatSome | smaps_spy/src/parser.rs:222-233 | the statistic of a mapping is the value of the last line that gives one |
| MemoryParser.LastStatNone | smaps_spy/src/parser.rs:222-233 | it is absent if and only if no line gives one |
| MemoryParser.NextHeader | smaps_spy/src/parser.rs:190-195 | a mapping's statistics end at the first header after it, malformed ones included |
| MemoryParser.ParsersAgree | smaps_spy/src/parser.rs:122-243 | with the statistics erased one parser's result is the other's: mappings, order and failure |
| MemoryLines.ReadStat | smaps_spy/src/parser.rs:224-232 | a statistics line sets its own field, in bytes, and only if its number parses |
| MemoryParser.ReadMapsLine | smaps_spy/src/parser.rs:129-165 | one line adds its mapping, is dropped, or is fatal, as its header says |
| MemoryParser.ParseMaps | smaps_spy/src/parser.rs:122-170 | the result is the good headers in order up to the first fatal line, with the index built |
| MemoryParser.ReadLine | smaps_spy/src/parser.rs:180-233 | one line keeps the relation between saved mappings, current mapping and lines read |
| MemoryParser.ParseSmaps | smaps_spy/src/parser.rs:172-243 | the result is every good header with the last statistics before the next header, with the index built |
| MemoryMaps.Count | smaps_spy/src/parser.rs:66-73 | a row advances by one mapping in the width of its counters |
| MemoryMaps.IndexMeans | smaps_spy/src/parser.rs:57-82 | counting one by one gives each key the totals of its group and the totals of all |
| MemoryMaps.MemoryStats.BuildHistogram | smaps_spy/src/parser.rs:51-83 | whatever the fields held before, index and totals are those of the mappings; the keys are the pairs of size and permissions that some mapping has |
| MemoryTotals.RowMeans | smaps_spy/src/parser.rs:57-76 | a size and permissions have a row exactly if some mapping has both; the row counts those mappings and totals their sizes, rss and pss |
| MemoryTotals.RowsAddUp | smaps_spy/src/parser.rs:66-81 | the rows add up to the number of mappings and the three totals, in the width of the counters |
| MemoryTotals.RowsAddUpExactly | smaps_spy/src/parser.rs:66-81 | while the totals fit the counters the rows add up exactly |
| MemoryTotals.OrderIsIrrelevant | smaps_spy/src/parser.rs:51-83 | index and totals are the same for every order of the mappings |
| MemoryTotals.Rebuild | smaps_spy/src/parser.rs:51-83 | building again changes nothing |

## Left out

- `mmlog_trim`: it shrinks the file without updating the recorded size, so a run ends where it is called.
- Error codes, clocks, `sched_yield`, closing of descriptors, failing allocations: only success or failure is modelled, as a free choice.
- Weak memory orders: the atomic steps of the log are sequentially consistent.
- Processes and threads are fixed at the start of a run; `fork` and threads that join later are threads that have not moved yet.
- LogTheorems.AppendLog: only while reservations can be rounded up in 32 bits, as past that it fails; `LogRecords.IntactIff` with `LogRecords.IntactReads` is the exact condition in every run below 64-bit wrap, `LogBeyond.CommittedRecordLost` the input.
- LogTheorems.CommittedForever: the same; `LogRecords.RecordSurvivesIff` is the exact condition for one record, and `LogRecords.EntryForever` its history in every run.
- LogTheorems.GrowthIsSafe: the same bound; past it `LogBeyond.GrowthDeliversIff` and `LogBeyond.GrowthPastFourGigabytes`.
- LogTheorems.PanicIsAbsorbing: the same bound; past it `LogTheorems.PanickedSizeChangesIff` and `LogBeyond.PanickedLogGrows`.
- LogTheorems.NoFault: the same bound; past it `LogTheorems.FaultIsShortFile` and `LogBeyond.CopyFaults`.
- A copy past the end of the file always faults in the model. A real one into the rest of the file's last page does not: its bytes are lost; and one that faults part way has stored its first part, while the model stores nothing. The first differs only for a file that is no whole number of pages, which only a `pwrite` past the rounding bound makes.
- `clean_chunks` run by several threads with a tail that is not null: no run reaches it. `LogModel` has its steps, `LogTheorems.NoFault` proves them unreachable, `LogHandle` proves the contract for one thread.
- `CHUNK_PENDING` is compared with but never stored; `LogHandle` treats it as null.
- LogHandle.LogHandle.Checkout: for one thread, without waiting and without the lock left behind by a panic; `LogModel` has both.
- LogHandle.LogHandle.Expand: the same; that a panicked attempt leaves the lock taken is `LogTheorems.RefusedStep`.
- The bodies of `Buffer` are not part of this model: lines are taken as 8-byte little-endian words and strings as NUL-terminated and concatenated, which is what decoding reads.
- RingBuffer.RingBuffer.Write: one whole operation; the retry loop of the compare-and-swap, and a reader that meets a record whose bytes are not filled in yet, are not modelled.
- The descriptor behind the ring (`memfd_create`, temporary files) and the order of its two `mmap` calls.
- `hits` is a mathematical integer; a string with 2^31 codes would overflow the original's `int`.
- The overflow checks of a debug build of the memory-map tool: an end below its start, or a total past 64 bits, stops it there; the model wraps as a release build does.
- `detect_file_type`, `/proc` access, process names and the user interface; the text of error messages beyond the address they quote.
