# A verified model of the log-structured value store

This project models, in Dafny, the hard core of a replicated, log-structured key-value store: how a write
travels from memory to disk and survives a restart, how its files are framed and read back when damaged, and
how replication, compaction and key-range splitting keep data safe. `dafny verify dfyconfig.toml` checks
everything.

## What is modelled

**Write and persist pipeline** (`Pipeline`, `PipelineWriters`, `PipelineFiles`, `PipelineToc`, `PipelineDisk`,
`PipelineRuns`, `PipelineFrames`, `PipelineReads`, `PipelineRequests`, `PipelineAnswers`, `PipelineFence`,
`PipelineSingle`, `Recovery`, `Restart`, `Layout`, `LocMap`, `Stamp`). `Pipeline` is a state machine with one step per goroutine action: memWriters
extending a page, copying a value, setting the location map, recording a TOC entry or truncating; fileWriter, its
full buffers on their way to disk and the pages they release; memClearers; tocWriter; readers that take and release
a page's lock; flush, shutdown and restart tokens. Channels are first-in first-out. Each file has the prefix of its
bytes that is on disk, and reading past it fails. The invariant `PipelineDisk.Inv` is proved for every step
(`PipelineDisk` has the part about the disk) and from it: when a key reads as its last taken write
(`PipelineReads`), when a restart changes an answer, which step brings a key back that was gone, what a flush makes
durable and that it stays so (`PipelineFence`), and that no location names a recycled page. `PipelineRequests` and
`PipelineAnswers` say what the steps of one request and of one read come to, and that reads are atomic whatever else
moves. `PipelineSingle` shows
that with one worker none of the exceptions occurs. `Restart` carries recovery to the bytes: a store is stopped, its
closed TOC and value files are read back through the TOC reader and the checksummed framing, and every key answers as
after the restart step. `Layout` is the sequential, imperative side of memWriter and fileWriter: spans, page bounds,
32-bit offsets.

**The pipeline under the source's limits** (`PipelineLimits`, `PipelineRoom`, `PipelineBounds`, `PipelineDrain`,
`PipelineJam`, `PipelinePaths`, `PipelineExamples`, `PipelineAnew`, `Finite`). `Pipeline` lets a page be sealed, a file be changed or
a TOC block be sent at any time, and its channels hold any number of messages; its theorems hold for every choice.
`PipelineLimits` adds when the source takes these steps: when a page or TOC block is full, when the next page does
not fit the file, which memClearer gets a page, how much each channel holds, and who waits for a free page with a
request in hand. With these limits `PipelineDrain` proves that a flush or shutdown can always complete, as long as
full pages hold a buffer's worth of bytes and there are two pages per worker, and `PipelineJam` gives a deadlock in a
configuration where they do not. The runs of `PipelineExamples` and `PipelineAnew`, built with `PipelinePaths`, obey
these limits and show each of the pipeline's exceptions.

**On-disk formats** (`Base`, `Framing`, `TocFile`, `TocRoundTrip`, `TocReader`, `TocDamage`, `TocResync`,
`ValueFile`, `ParallelWriter`, `Audit`). The TOC reader is modelled twice: as a function on the bytes, about which the
theorems are stated, and as the source's loop over a buffer with batches, proved to compute that function. The
value-file writer is a class with a real buffer; the goroutines behind it are a state machine of their own.

**Replication and maintenance** (`Versions`, `PushAck`, `BulkSet`, `Bloom`, `Pull`, `KeySpace`,
`Compaction`). Push, ack
and local removal are a protocol between the nodes of a fixed ring over a network that loses, duplicates and
reorders; compaction is a set of workers interleaved with client writes.

Conventions: `murmur3` is an arbitrary function; `locmap.Set` keeps a strictly newer timestamp, replaces an
equal one only when asked, and removes the key for block id 0; the TOC writer puts 4 checksum bytes after each
full interval and none after the last partial one. Timestamp bits are naturals with the low byte as flags.
File, page and batch limits that only decide *when* something happens are left open in `Pipeline`, so its
theorems hold for every choice, and spelt out in `PipelineLimits`. Rings may assign any set of keys to any node.

## Where the code falls short of the obvious claim

Each has its exact condition in the model, and most a run or a file that shows it.

- With two workers or more, a page that ends exactly on a buffer boundary is released while its last buffer can
  still be on its way (`PipelineReads.ReleasedOnDisk`); until then reading one of its values from the file fails
  (`PipelineReads.ReadsAreLastWrites`), and a run in which it does is `PipelineExamples.ReadCanFail`. With one worker
  no read fails (`PipelineSingle.OneWorkerReads`).
- A restart changes a key's answer exactly when the disk has a newer record of it than the map, which a cleared
  removal marker leaves behind, or no longer has the map's record (`PipelineReads.RestartExactly`);
  `PipelineExamples.MarkerUndone` is a run that brings a removed value back.
- A removed key can also come back while the store runs, exactly when a memClearer gets to an older record of it after
  another has cleared the marker (`PipelineReads.ComesBackExactly`, run `PipelineExamples.GoneComesBack`).
- A reader that has waited for a page's lock does not look at the removal bit again (valuememblock_GEN_.go:22-36): it
  finishes with a removal marker's empty value, and without an error, exactly when the marker is in that very page
  (`PipelineAnswers.MarkerIsRead`, run `PipelineExamples.MarkerIsValue`), where a look-up answers that the key is not
  found. In every other case a read comes to what the store answers at one moment of it
  (`PipelineAnswers.ReadsAreAtomic`).
- tocWriter creates a TOC file anew when a block for it arrives after the file was closed. A write is off the disk from
  then on exactly when that file alone restored it (`PipelineFence.OffDiskExactly`); runs that do it and a flush that
  misses the write are `PipelineAnew.RecreationHappens` and `PipelineAnew.FlushCanMiss`. What a completed flush had on
  disk is never lost that way (`PipelineFence.DurableForGood`), and with one worker nothing is
  (`PipelineSingle.OneWorkerNeverRecreates`).
- Where a full page is shorter than a buffer (`PipelineBounds.GenerousExactly`) the open file's current buffer can hold
  back every page. Then the memWriters wait for ever and no flush or shutdown completes: `PipelineJam.JamHappens` is a
  run of three writes that ends so, in a configuration the source accepts (`PipelineJam.SourceAccepts`).
- A cleanly closed TOC reads back without error exactly when the terminator fits (`TocRoundTrip.RoundTrip`);
  otherwise its bytes can be taken for an entry (`TocRoundTrip.PhantomEntry`).
- The TOC reader keeps its place exactly as long as each corrupt chunk that follows a corrupt one, or is the first,
  starts where twice its position less 64 is a multiple of the entry size: in a value TOC at multiples of 16
  (`TocResync.PlaceExactly`, `TocResync.ValueRealigns`). Past the first other one it returns windows that start
  inside entries (`TocResync.LosesPlace`); a corrupt first chunk of a group TOC is always such a one
  (`TocResync.GroupFirstChunk`). It crashes exactly when the last full chunk is corrupt and what follows is shorter
  than what it skips (`TocResync.Resynchronises`).
- A bulk-set message loses a last entry with an empty value, so a lone tombstone is never delivered
  (`BulkSet.WholeUnlessLastEmpty`).
- The audit test is right about a value on every file exactly when the value spans at most two chunks; over three
  or more it misses damage in the middle (`Audit.MissedExactlyWhen`, `Audit.MiddleChunkMissed`).
- Worker ranges tile the key space exactly when there are no more workers than keys in a partition
  (`KeySpace.TilesExactlyWhen`).
- The smallest allocation does not always give a page full of records an interval's worth of bytes, as the
  comment at valueconfig_GEN_.go:374-376 intends (`Layout.FullPagesHoldInterval`, `Layout.ShortFullPage`).
- Compaction brings a dropped key back exactly when one of its entries had been read and not yet rewritten
  (`Compaction.ComesBackExactlyWhen`), and puts a client's value under another stamp exactly when a newer record
  of the key is still to be handled and can overtake it (`Compaction.RestampedExactlyWhen`).

## Model

| member | source | states |
|---|---|---|
| Stamp.StampOrder | package.go:131-157 | for one microsecond: write < rewrite < removal marker < delete, and any later microsecond beats all of them; clearing bit 0 of a rewrite gives the write back |
| Stamp.NothingBelowMarker | package.go:131-157 | no storable stamp lies strictly between a stamp and its removal marker |
| LocMap.DeletesStand | valuestore_GEN_.go:686-702 | a delete takes over from a same-microsecond write; a rewrite or removal marker of that write never displaces the delete or anything newer |
| LocMap.RecordIffTaken | valuestore_GEN_.go:686-702 | memWriter's test for appending a TOC record holds exactly when the location map took the write |
| LocMap.LastWriterWins | valuestore_GEN_.go:686-702 | after any sequence of writes, deletes, rewrites and markers a key holds the largest stored stamp requested for it, at the place of a request with that stamp, and never bit 0 |
| LocMap.OrderDoesNotMatter | valuestore_GEN_.go:686-702 | any two orders of the same requests leave every key at the same timestamp bits |
| PipelineRuns.StepKeepsInv | valuestore_GEN_.go:554-937 | every step of every memWriter, fileWriter, memClearer, tocWriter, reader, flush, shutdown and restart keeps the pipeline invariant, a TOC file created anew included |
| PipelineRuns.RunKeepsInv | valuestore_GEN_.go:554-937 | the invariant holds in every state of every interleaving from an empty store |
| PipelineReads.AgreesWithSimpleMap | valuestore_GEN_.go:451-457 | for a key with no marker taken and no record lost, location map, pages and files together answer as one simple map, the last taken write, if and only if its bytes are on disk |
| PipelineReads.UnwrittenIsPending | valuestorefile_GEN_.go:158-194 | a value located in a file that does not have its bytes yet waits in a full buffer of the open file, at most all buffers but one from the disk, and there are two workers or more |
| PipelineReads.ReleasedOnDisk | valuestorefile_GEN_.go:185-194 | a page released to the memClearers is wholly on disk if and only if it did not end on a buffer boundary or its last buffer has been written; the disk is behind by all buffers but one at most |
| PipelineReads.PlainKeysAgree | valuestore_GEN_.go:451-457 | a key that was never marked, rewritten or lost reads as its last taken write if and only if its bytes are on disk |
| PipelineReads.ReadsAreLastWrites | valuestore_GEN_.go:554-1033 | over every run of writes, deletes, rewrites, flushes, shutdowns and restarts, at every moment, such a key reads as its last taken write if and only if its bytes are on disk, and they are unless a full buffer is on its way, which takes two workers |
| PipelineSingle.OneWorkerReads | valuestore_GEN_.go:554-1033 | with one worker a key with no marker taken reads as its last taken write at every moment of every run |
| PipelineRuns.RecoveryHoldsNewest | valuestore_GEN_.go:955-1033 | after a shutdown, recovery from the TOC files finds a key with no marker taken and no record lost at a stamp no older than any write taken for it |
| PipelineReads.RestartExactly | valuestore_GEN_.go:337-381 | for every stopped state and key, shutting down and recovering leaves the answer as it was if and only if the map's record of the key is on disk and no newer record with an offset is |
| PipelineReads.RestartChangesNoAnswer | valuestore_GEN_.go:337-381 | shutting down and recovering changes the answer for no key without a marker taken or a record lost, whatever happened to other keys |
| PipelineReads.FlushIsDurable | valuestore_GEN_.go:417-423 | with one flush in flight, when it completes every write taken before it started is in a closed value file and a closed TOC file, all on disk, or was replaced by a newer stamp, or its record was lost before with its TOC file |
| PipelineReads.FlushedIsDurable | valuestore_GEN_.go:827-869 | in every reachable state each log entry covered by the last flush is restorable from closed files, replaced, or lost |
| PipelineFence.StepKeepsFence | valuestore_GEN_.go:719-746 | every step keeps the fence: a flush token follows every page and TOC block of a file below the flush's mark through every channel, and nothing on its way belongs to a file of flushed records |
| PipelineFence.DurableForGood | valuestore_GEN_.go:827-912 | a write that a completed flush has on disk is on disk, or replaced, in every later state of the run, whatever TOC files are created anew and however often the store restarts |
| PipelineFence.OffDiskExactly | valuestore_GEN_.go:892-912 | of all steps of all goroutines only creating a closed TOC file anew takes a write off the disk, and it does if and only if no other TOC file that stays closed, or is closed with it, restores the write |
| PipelineSingle.OneWorkerNeverRecreates | valuestore_GEN_.go:871-928 | with one worker no step of any run creates a TOC file anew: TOC blocks arrive in the order of their files |
| PipelineSingle.OneWorkerFlush | valuestore_GEN_.go:417-423 | with one worker a flush has brought every earlier write to disk, or a newer one replaced it, without exception |
| PipelineReads.ComesBackExactly | valuestore_GEN_.go:577-614 | a key that is not in the map comes back with a step if and only if it is a taken write of it, a memClearer moving an older live record of it, or a restart that finds one |
| PipelineLimits.BoundedIsRun | valuestore_GEN_.go:554-937 | a run under the limits is a run of the pipeline |
| PipelineRoom.NothingOutgrows | valuestore_GEN_.go:596-614 | in every state of every run under the limits no page holds more bytes or records than its buffers have room for, and no TOC block more records than fit behind its leader |
| PipelineBounds.MoveKeepsBounds | valuestore_GEN_.go:635-702 | every move under the limits keeps: one page per memWriter, a page shorter than a buffer only where it was sealed for a token that follows it, one such page per memWriter, and pages in a file one after the other |
| PipelineBounds.GenerousExactly | valueconfig_GEN_.go:360-377 | with the source's page size every full page holds a buffer's worth of bytes if and only if a page full of smallest allocations does |
| PipelineDrain.PageIsFree | valuestore_GEN_.go:668-675 | with two pages per worker a memWriter that waits for a page finds one free when nothing else moves: at most one full page and one short one per other memWriter are held back |
| PipelineDrain.NeverStuck | valuestore_GEN_.go:554-937 | no deadlock: with the source's channel capacities, pages and TOC blocks, while a flush or shutdown is in progress some step brings its end nearer, by a measure of what is still on its way |
| PipelineDrain.DrainCanComplete | valuestore_GEN_.go:417-423 | from every state of every run under the limits with a flush or shutdown in progress some moves lead to its end, with the flush's mark covered |
| PipelineJam.JamHappens | valueconfig_GEN_.go:360-377 | a configuration and a run of three writes after which no moves at all let the memWriter go on or end a flush |
| PipelineJam.JamForever | valuestore_GEN_.go:668-675 | once both pages are held back and the memWriter waits, only readers move, for ever |
| PipelineJam.SourceAccepts | valueconfig_GEN_.go:360-377 | the page size and smallest allocation of that configuration are those the source derives |
| PipelineReads.ReadersGetWrittenValues | valuememblock_GEN_.go:22-36 | whatever memWriter and memClearer do meanwhile, a finished read carries exactly the value written for its key and timestamp |
| PipelineRequests.UndisturbedWrite | valuestore_GEN_.go:659-702 | any request a memWriter can take, exactly: one not newer than the map leaves the store as it was, page bytes included; a newer one is what its key reads as afterwards, no other key reads differently, and the page has its record and its padded bytes |
| PipelineAnswers.UndisturbedRead | valuestore_GEN_.go:451-457 | from every state a look-up, lock and copy in a row end in exactly what the key reads as: not found with its stamp, failed where the file lacks the bytes, and otherwise the value logged for the stamp in the map |
| PipelineAnswers.LockAnswers | valuememblock_GEN_.go:22-36 | the lock is always enabled and then, exactly: not found if the key is gone or deleted, the page held if the key is still there, on to the other page or the file if it moved |
| PipelineAnswers.CopyAnswers | valuememblock_GEN_.go:33-35 | a reader that holds the lock gets the value logged for the location it has, whatever memWriter and memClearer did since |
| PipelineAnswers.MarkerIsRead | valuememblock_GEN_.go:22-36 | a reader gets hold of a removal marker if and only if it is in the page the reader waited for and is no tombstone, where a look-up answers not found |
| PipelineAnswers.ReadsAreAtomic | valuestore_GEN_.go:451-457 | over every run, whatever happens during a read, what it comes to is what the store answered for the key at one moment between its start and its end, or a removal marker's value where that was not found |
| PipelineAnswers.ReadsAreOnceLastWrites | valuestore_GEN_.go:451-457 | so for a key with no marker taken and no record lost a read that does not fail gives the last taken write, or its absence, of one moment of the read |
| PipelineExamples.MarkerIsValue | valuememblock_GEN_.go:22-36 | a run, with any number of workers, in which a read finishes with an empty value under a removal marker's stamp while the key is not found |
| PipelineExamples.ReadCanFail | valuestorefile_GEN_.go:135-194 | with two workers or more, a run of one write and the start of a flush, whose page ends on a buffer boundary, after which reading the key fails |
| PipelineExamples.GoneComesBack | valuestore_GEN_.go:577-614 | with two memClearers, a run of a write and its removal marker in which the key is gone from the map and one step of the other memClearer puts its value back |
| PipelineExamples.MarkerUndone | valuestore_GEN_.go:577-614 | a run of a write, a flush, its removal marker and a shutdown after which the key is not found, and is back with its value after a restart |
| PipelineAnew.RecreationHappens | valuestore_GEN_.go:871-928 | with two workers, four writes and a flush, a run in which a TOC file is created anew: a write on disk before the step is neither there nor replaced after it |
| PipelineAnew.FlushCanMiss | valuestore_GEN_.go:827-912 | that run continued to the flush's end: it covers the write, which is not on disk |
| PipelineToc.NothingNamesClearedBlock | valuestore_GEN_.go:577-624 | when memClearer truncates a page, no location-map entry names it |
| PipelineWriters.PlaceInMapOk | valuestore_GEN_.go:686-702 | setting the location map and the log together keeps the invariant, taken or not |
| PipelineWriters.RecordOk | valuestore_GEN_.go:686-702 | appending the TOC record of a taken write keeps the invariant |
| PipelineWriters.TruncateOk | valuestore_GEN_.go:696-702 | giving back the bytes of a write that was not taken keeps the invariant and every reader's bytes |
| PipelineFiles.WriteBlockOk | valuestorefile_GEN_.go:158-194 | appending a page to the open file, at the offset it records, keeps the invariant; its bytes are not on disk yet |
| PipelineDisk.WriteBufExtra | valuestorefile_GEN_.go:172-184 | a full buffer reaching disk keeps what is said of the disk: whole buffers of the open file, closed files wholly, and every located value on disk or in a full buffer |
| PipelineDisk.ReleaseExtra | valuestorefile_GEN_.go:185-194 | releasing a page whose bytes are on disk, or that ends on a boundary no further than all buffers but one from the disk, keeps it too |
| PipelineDisk.ClearRecExtra | valuestore_GEN_.go:577-614 | and so does moving a record to its file location |
| PipelineFiles.FileTokenOk | valuestore_GEN_.go:719-746 | the flush countdown in fileWriter: no covered record is ever behind the token that must follow it |
| PipelineToc.ClearRecOk | valuestore_GEN_.go:577-614 | moving one record from page to file location, with its TOC record or without, keeps the invariant |
| PipelineToc.TocTakeOk | valuestore_GEN_.go:871-928 | appending a TOC block to its file, rotating the two open TOC files and creating one anew when needed, keeps the invariant |
| PipelineToc.LastTocTokenOk | valuestore_GEN_.go:827-869 | when the last token arrives everything covered is in closed files, so the flushed signal may be sent |
| Recovery.ParallelEqualsSequential | valuestore_GEN_.go:955-1033 | for every schedule of reader and recovery workers the rebuilt map is the sequential fold over all entries in file-name order |
| Recovery.FoldKeepsWinner | valuestore_GEN_.go:955-1033 | that fold keeps for each key the highest stamp, and the later entry on a tie |
| Recovery.RestartBuildsRecover | valuestore_GEN_.go:955-1033 | whatever the schedule, recovery builds the map the pipeline's restart step uses |
| Restart.EntryRoundTrip | valuestorefile_GEN_.go:427-445 | decoding an encoded 32-byte TOC entry gives its key, stamp, offset and length back |
| Restart.TocEntriesBack | valuestorefile_GEN_.go:365-468 | the entries with an offset written to a closed TOC are the entries decoded from its bytes |
| Restart.RestartFromDisk | valuestore_GEN_.go:554-1033 | any run stopped by a shutdown, markers, rewrites and lost records included: reading the closed TOC and value files back byte for byte answers every key as after the pipeline's restart step |
| Restart.LastWriteFromDisk | valuestore_GEN_.go:554-1033 | so a key with no marker taken and no record lost answers with the stamp bits and value, or tombstone, of its last taken write |
| Restart.OneWorkerFromDisk | valuestore_GEN_.go:554-1033 | with one worker so does every key with no marker taken |
| Layout.MemWriter.Write | valuestore_GEN_.go:659-702 | refuses exactly the values over the cap; hands a full page on; records exactly when the map took the write; the page's spans stay disjoint, in range and hold their values |
| Layout.MemWriter.Place | valuestore_GEN_.go:676-685 | the page holds the value and then zeros up to its allocation; both stay inside the page and leave earlier bytes alone |
| Layout.SpansDisjoint | valuestore_GEN_.go:659-702 | no byte of a page belongs to two records |
| Layout.FileWriter.Append | valuestore_GEN_.go:767-793 | a page begins a new file exactly when none is open or the file's records or bytes would run past the cap; fileWriter's counts equal what the file holds and its 32-bit write offset, which never wraps; the page gets exactly the offset it has in the file |
| Layout.RecordedLocation | valuestore_GEN_.go:586-592 | file offset plus in-page offset fits 32 bits and selects exactly the recorded value in the file |
| Layout.FullPagesHoldInterval | valueconfig_GEN_.go:360-377 | a page full of records always holds an interval's worth of bytes exactly when the interval is at most that many smallest allocations |
| Layout.MinAllocIsLeast | valueconfig_GEN_.go:374-377 | the smallest allocation is the least size with which one record more than a page has room for would take more than an interval |
| Layout.ShortFullPage | valueconfig_GEN_.go:360-377 | a configuration within the bounds for which it does not |
| Framing.FrameLength | valuestorefile_GEN_.go:396-413 | physical length of a framed TOC: 4 bytes more per full interval |
| Framing.FrameOpenLength | valuestorefile_GEN_.go:207-228 | physical length of a closed value file: d + 4 * ((d - 1) / interval) |
| Framing.UnframeFrameOpen | valuestorefile_GEN_.go:207-228 | dropping the checksum bytes of a closed value file gives its logical bytes back |
| TocRoundTrip.RoundTrip | valuestorefile_GEN_.go:365-468 | for any entry size and interval, a cleanly closed TOC reads back as exactly the entries written that have an offset, in order and without error, if and only if the terminator fits |
| TocRoundTrip.BothStoresReadBack | groupstorefile_GEN_.go:368-473 | value and group TOCs of any number of entries read back whenever the interval modulo the entry size is at least 8 |
| TocRoundTrip.ReadOutcome | valuestorefile_GEN_.go:365-468 | the complete outcome in both cases: never a checksum error, and what follows the entries when the terminator is missed |
| TocRoundTrip.PhantomEntry | valuestorefile_GEN_.go:415-457 | the missed terminator becomes an entry exactly when fewer than 4 of its bytes lie past the last whole slot |
| TocRoundTrip.StatCountsEntries | valuestorefile_GEN_.go:471-490 | the count computed from the file size alone is the number of entries written |
| TocRoundTrip.AcceptsExactly | valuestorefile_GEN_.go:365-375 | for any bytes: the header is accepted if and only if the file begins with the header the format writes for some interval of at least 32 |
| TocRoundTrip.OtherFormatRejected | groupstorefile_GEN_.go:368-378 | the group reader rejects every TOC that a value store wrote |
| TocReader.ReadTocEntriesBatched | valuestorefile_GEN_.go:365-468 | the buffer-and-batches loop fails on exactly the bad headers, and otherwise gives each worker its share by keyB modulo workers, in order, in batches no larger than asked, with the right counts |
| TocReader.Batcher.Emit | groupstorefile_GEN_.go:430-466 | an entry goes to the batch of its worker; a full batch is sent |
| TocReader.ReadChunk | groupstorefile_GEN_.go:392-460 | one chunk, intact or corrupt, moves the loop exactly as the function on bytes says, with the carried-over bytes in the buffer |
| TocResync.Resynchronises | valuestorefile_GEN_.go:396-457 | for any entry size and any corrupt chunks, as long as the reader realigns: it crashes if and only if the last full chunk is corrupt and what follows is shorter than what it skips; otherwise it returns the written entries that neither touch a corrupt chunk nor start right after one, then the phantoms of a missed terminator, and counts the corrupt chunks |
| TocDamage.ReadDamaged | valuestorefile_GEN_.go:396-457 | for any damage, aligned or not, the reader does what a description in terms of the written bytes alone says |
| TocResync.PlaceExactly | valuestorefile_GEN_.go:409 | a corrupt chunk met while resuming leaves the reader on an entry boundary if and only if it starts where the reader realigns |
| TocResync.LosesPlace | valuestorefile_GEN_.go:396-457 | where the first such chunk does not realign, the reader returns the kept entries up to it and then, if no further one is met, only windows that start inside entries, or crashes |
| TocResync.GroupFirstChunk | groupstorefile_GEN_.go:408-418 | with a corrupt first chunk of a group TOC, and no two in a row, nothing the reader returns starts where an entry does |
| ValueFile.Writer.constructor | valuestorefile_GEN_.go:85-105 | a new file's buffer holds the 32-byte header |
| ValueFile.Writer.Write | valuestorefile_GEN_.go:158-184 | after any values the disk and buffer are the framing of everything written, and the block's file offset is the logical length before it, modulo 2^32 |
| ValueFile.Writer.CloseWriting | valuestorefile_GEN_.go:196-228 | the closed file is the framing of header, blocks and a full terminator block, the last chunk without a checksum |
| ValueFile.ClosedFileReads | valuestorefile_GEN_.go:158-248 | dropping the checksums gives the data; a block's offset plus an in-block offset and length selects exactly the value written; the physical length |
| ValueFile.PhysicalPosition | valuestorefile_GEN_.go:135-156 | logical byte k is at k plus 4 for each full interval before it |
| ParallelWriter.StepKeepsInv | valuestorefile_GEN_.go:271-320 | every step of filler, checksummers and writer keeps each buffer in exactly one place and the disk a prefix of the fill order |
| ParallelWriter.OrderedWriting | valuestorefile_GEN_.go:283-320 | under every schedule buffers reach disk in fill order; when the writer has stopped all have, and none is left in any channel; no queue exceeds its capacity |
| ParallelWriter.DiskIsClose | valuestorefile_GEN_.go:172-184 | under every schedule at most all but one of the buffers are full and not on disk while the filler has one in hand; with one worker everything filled is on disk then |
| ParallelWriter.NoSendBlocks | valuestorefile_GEN_.go:172-184 | no send between filler, checksummers and writer, the re-queueing, the freed buffer and the closing nil included, ever finds its channel full |
| ParallelWriter.WriterAdvances | valuestorefile_GEN_.go:286-317 | once the closing nil is sent the writer can always go on, and each step brings the end nearer |
| ParallelWriter.Drain | valuestorefile_GEN_.go:196-206 | left alone after the nil, the writer stops with everything on disk in fill order |
| Audit.ChecksumVerify | valuestorefile_GEN_.go:499-526 | the scan loop reports exactly the reference ranges of a file of up to 2^32 bytes, bad headers and short files included |
| Audit.RangesExact | valuestorefile_GEN_.go:499-526 | a byte lies in a reported range exactly when its chunk fails its checksum or it is past the last full chunk |
| Audit.ReportExact | valuestorefile_GEN_.go:499-526 | for any file: a position is reported if and only if the header is unreadable, the file is shorter than one chunk, or the position is suspect |
| Audit.UnreadableIsHit | valuestorefile_GEN_.go:499-510 | in such a file every stored value is hit |
| Audit.InCorruptRange | valuestorefile_GEN_.go:528-545 | the loop is true exactly when an end point of a nonempty value off the header lies in a range |
| Audit.AuditExact | valuestorefile_GEN_.go:499-545 | for a value that spans at most two chunks the test is true exactly when one of its bytes is suspect |
| Audit.ShortValuesSpanTwo | valuestorefile_GEN_.go:528-545 | a value up to one byte longer than the interval does |
| Audit.MissedExactlyWhen | valuestorefile_GEN_.go:499-545 | the test is right about a value on every file with this interval if and only if the value spans at most two chunks |
| Audit.MiddleChunkMissed | valuestorefile_GEN_.go:537-542 | for every value over three chunks or more, a file with one bad middle chunk that the scan reports and the test misses |
| Audit.CleanFilePasses | valuestorefile_GEN_.go:207-228 | the scan of a cleanly closed file hits no value stored in it, of any length |
| PushAck.StepKeepsInv | valuebulksetack_GEN_.go:162-192 | every step of clients, pushes, pull replies, receipts, acks and marker clearing keeps the protocol invariant |
| PushAck.RemovalIsSafe | valuebulksetack_GEN_.go:176-188 | in every run, for every copy a node gave up because of an ack, some responsible node holds the key at least as new and unmarked |
| PushAck.NothingIsLost | valuebulkset_GEN_.go:229-257 | in every run, for every write or delete ever accepted anywhere, some node holds the key at least that new and unmarked, with a value written for the timestamp it reports |
| PushAck.MessagesAreClean | valuepushreplication_GEN_.go:173-196 | no message ever carries the local-removal or the rewrite bit, and every acked stamp is held by a responsible node |
| PushAck.PushExactly | valuepushreplication_GEN_.go:144-196 | a push can carry a key if and only if the node is not responsible for it and holds a value a client wrote, older than the cutoff and no expired tombstone; and it carries exactly that version and changes nothing else |
| PushAck.ClientsExactly | valuestore_GEN_.go:460-532 | a client's write or delete puts a value, or a tombstone of its microsecond, in the place of anything older at that node and changes nothing else |
| PushAck.MovesToResponsible | valuepushreplication_GEN_.go:173-196 | write, push, receipt, ack and clearing form a run that moves a value from a node that is not responsible to the one that is, and off the first |
| PushAck.AckedKeeps | valuebulksetack_GEN_.go:176-188 | a marker for an acked stamp displaces no newer copy, and what it displaces is covered |
| PushAck.ClearIsSet | valuestore_GEN_.go:577-614 | clearing a marker in the protocol is the location map's Set with block id 0 |
| Versions.PutIsWrite | valuestore_GEN_.go:686-702 | the replicas' and the compaction's map of versions takes a write exactly when the location map does, and stays in agreement with it |
| BulkSet.CodecRoundTrip | valuebulkset_GEN_.go:229-252 | decoding what add packed gives every entry in order except a last one with an empty value, and never panics |
| BulkSet.WholeUnlessLastEmpty | valuebulkset_GEN_.go:229-252 | it gives all entries back if and only if there are none or the last value is not empty |
| BulkSet.Outgoing.Add | valuebulkset_GEN_.go:308-322 | accepts exactly when at least one byte of capacity stays unused; the body is the encoding of the accepted entries and never exceeds the capacity |
| BulkSet.AckRoundTrip | valuebulksetack_GEN_.go:174-188 | every ack comes back, whatever fewer than 24 bytes trail |
| BulkSet.InBulkSet | valuebulkset_GEN_.go:229-257 | the receiving loop handles exactly the decoded entries, one that reaches into the buffer's spare capacity before the panic included: each deletion, and each value while writes are enabled, is held at its stamp or newer afterwards, nothing else changes and nothing gets older; and the acks are those of the written entries this node is responsible for, in order, as many as fit |
| BulkSet.MessageIsRun | valuebulkset_GEN_.go:210-261 | receiving a whole message is a run of the push/ack protocol, entry by entry, touching no other node |
| BulkSet.MessageTakesEffect | valuebulkset_GEN_.go:210-261 | after some run of the protocol the node holds what the message's entries say, by their deletion bits alone, and exactly the due acks that fit are on their way |
| Bloom.Filter.Add | valuektbloomfilter_GEN_.go:68-91 | afterwards the filter answers yes for the element and everything before, and only bits the element selects were set |
| Bloom.Filter.MayHave | valuektbloomfilter_GEN_.go:93-121 | yes exactly when every bit the element selects is selected by one added since the reset; so never no for an added one |
| Bloom.Filter.Reset | valuektbloomfilter_GEN_.go:123-130 | all bits cleared, new salt |
| Bloom.HasGrows | valuektbloomfilter_GEN_.go:68-121 | setting more bits never turns a yes into a no |
| Bloom.HasIsCovered | valuektbloomfilter_GEN_.go:68-121 | a filter built by adds has set no bit that no added element selects |
| Bloom.ScratchTells | valuektbloomfilter_GEN_.go:75-80 | two elements, salts or rounds that hash the same bytes are the same: key, timestamp, salt and round all count |
| Bloom.WordsAreTheHash | valuektbloomfilter_GEN_.go:81-90 | the four words that select bits are the whole 128-bit hash, each 32 bits of it |
| Bloom.CanTellExactly | valuektbloomfilter_GEN_.go:93-121 | for some hash the filter of a set answers no for an element if and only if there is a round, the element is not in the set, and there is more than one bit or the set is empty |
| Pull.MessageRoundTrip | valuepullreplication_GEN_.go:512-564 | every header field and the filter survive the wire |
| Pull.Requests | valuepullreplication_GEN_.go:432-458 | the requests tile the worker's range, each with a filter, built by adds during the scan, that answers yes for everything matching in its part and only for what that covers |
| Pull.TiledOnce | valuepullreplication_GEN_.go:432-458 | every key of the range lies in exactly one request |
| Pull.ScansCoverOnce | valuepullreplication_GEN_.go:299-310 | the responder's two scans cover the requested range once and nothing else |
| Pull.StartsSpread | valuepullreplication_GEN_.go:292-303 | the replicas' first scans start evenly spread over the range, and at different keys if and only if it has more keys than there are replicas |
| Pull.PickExact | valuepullreplication_GEN_.go:280-291 | the callback picks, in scan order, all that the filter lacks while the budget lasts, and a first part of it otherwise; what is left of the budget is exact |
| Pull.RespondExact | valuepullreplication_GEN_.go:255-310 | of both scans together, first the one from the replica's start and then the front part, the responder picks the first items the filter lacks until their bytes use up the budget: all of them if they do not |
| Pull.AllButLastFit | valuepullreplication_GEN_.go:280-291 | every picked item but the last fits the budget with all those before it |
| Pull.SendsWhatIsDue | valuepullreplication_GEN_.go:255-310 | after the filter has travelled in a message the responder picks only what is due: its own items of the range, older than the cutoff and no expired tombstones, that the requester's items do not cover; all of them if they stay below the budget |
| Pull.NothingHeldIsSent | valuepullreplication_GEN_.go:255-310 | nothing the requester holds in a request's range is chosen for sending, after its filter has travelled in a message |
| KeySpace.NoWraparound | valuepushreplication_GEN_.go:115-143 | with no more workers than keys in a partition the 64-bit bounds are the plain ones |
| KeySpace.ExactlyOneRange | valuepushreplication_GEN_.go:127-143 | then a key is in a range exactly for its one partition and worker |
| KeySpace.TilesExactlyWhen | valuetombstonediscard_GEN_.go:124-147 | the ranges tile the key space if and only if there are no more workers than keys in a partition |
| KeySpace.WrappingLoop | valuepushreplication_GEN_.go:200-223 | the wrapping loop ends and visits the partitions in walking order |
| KeySpace.TwoLoops | valuepullreplication_GEN_.go:461-485 | the two loops visit the same walk |
| KeySpace.WalkVisitsOnce | valuetombstonediscard_GEN_.go:153-168 | a walk visits every partition exactly once |
| KeySpace.FirstsSpread | valuetombstonediscard_GEN_.go:153-168 | the workers' walks start evenly spread, at different partitions if and only if there are no more workers than partitions |
| Compaction.StepKeepsInv | valuecompaction_GEN_.go:322-372 | every look-up, read and rewrite, and every drop and client write that no pending record can undo, keeps the compaction invariant |
| Compaction.ReadsPreserved | valuecompaction_GEN_.go:322-372 | at any moment of any such interleaving a key that was not dropped has no lower stamp than before and reads as it did unless a client wrote it newer; an absent or dropped key is there only as a client wrote it |
| Compaction.FileIsUnused | valuecompaction_GEN_.go:423-452 | when every entry has been handled no live value is located in the file to be removed |
| Compaction.HandledExactly | valuecompaction_GEN_.go:336-366 | what handling one entry comes to: a value no newer than it is moved out of the file under the entry's stamp; for a key that is gone, newer, deleted or marked nothing changes |
| Compaction.FlaggedStays | valuecompaction_GEN_.go:339-360 | whatever the compaction does, a tombstone or removal marker whose key no pending record can bring back stays as it is |
| Compaction.ComesBackExactlyWhen | valuecompaction_GEN_.go:336-366 | a dropped key can come back through the compaction if and only if one of its entries had been read and not yet rewritten |
| Compaction.RestampedExactlyWhen | valuecompaction_GEN_.go:336-366 | a client's value can get a stamp nobody wrote it with if and only if a newer record of the key is still to be handled and was read already or will find the value live |

## Left out

- I/O errors, restart requests, cancelled compactions and disabled writes (except that a receiving node may refuse a bulk-set entry): they depend on the environment.
- Launchers, timers, notification channels, logging, statistics, the flusher and the disk and memory watcher.
- Internals of locmap, brimio, msgring, devicering and murmur3; the contracts assumed of them are stated above.
- Floating-point sizing of the bloom filter and the compaction threshold are parameters.
- Concurrent flushes: they share one countdown in the source; the pipeline starts a flush or shutdown only when none is in flight.
- Sends of several messages in one step: in `PipelineLimits` fileWriter passes its tokens to the memClearers when all their channels have room, not one after the other; appending a page to a file is one step, and its full buffers reach disk in later ones. The channels inside one file's writer are in `ParallelWriter`.
- Which memWriter gets a request: the pipeline lets any take any key; the runs use one. A page's turn among the memClearers is counted as if fileWriter and the file's writer did not race for the counter.
- Tombstone expiry and the discard scratch array; only the range split and the partition walks of the discard passes are modelled.
- The group store, apart from the TOC reader and its entry size.
- PipelineReads.ReadsAreLastWrites: for a key with no removal marker taken and no record lost, and whose equal stamps carry equal values, as a compaction's rewrites do; a restart undoes markers and lost records, exactly as PipelineReads.RestartExactly says.
- PipelineReads.RestartExactly: equal stamps of the key carry equal values; otherwise the recovered one of two may differ.
- PipelineReads.FlushIsDurable: the case of a lost record stays in the conclusion, because PipelineAnew.FlushCanMiss shows that it occurs; with one worker PipelineSingle.OneWorkerFlush does without it.
- PipelineDrain.DrainCanComplete: some schedule completes; that every fair one does is not stated. A request in hand is written with some value, if only of no bytes. That full pages hold a buffer's worth of bytes is sufficient; configurations in which they do not and which still never jam are not told apart.
- Restart.RestartFromDisk: every record must fit its 32- and 64-bit fields and every TOC's terminator must fit.
- PushAck.RemovalIsSafe: the ring is fixed, no node crashes and no tombstone expires; messages are modelled one entry at a time, and BulkSet.MessageIsRun shows a whole message to be such steps.
- Compaction.ReadsPreserved: over runs whose drops and client writes no pending record can undo; what happens otherwise is stated by the two lemmas named above. Tombstones are not rewritten by the source and may still point at the removed file.
- PipelineRequests.UndisturbedWrite: a memWriter that has a page with room; waiting for one is in PipelineDrain.PageIsFree.
- PipelineAnswers.ReadsAreAtomic: a read that a restart ends is not covered, as its process is gone.
- Bloom.ScratchTells: salt and round are told apart below 2^16 rounds, above which the source ors the one into the other; elements always are.
- Pull.SendsWhatIsDue: what is picked; the values are read again before they are sent, which is the step PullReply of PushAck. The budget is positive, as the configured message capacity is.
- KeySpace.TilesExactlyWhen: rings of 1 to 63 partition bits; in a store without a ring the discard workers are not split, each scans the whole key space.
- Audit.ChecksumVerify: the result is stated for files of at most 2^32 bytes, above which the source's 32-bit positions wrap.
- Audit.InCorruptRange: the result is stated for values that end within 32 bits.
- TocResync.Resynchronises: the file's length and its 32 header bytes are intact, and entries are between 32 bytes and an interval long, so group TOCs with an interval below 48 are not covered.
- TocResync.LosesPlace: after the first chunk that does not realign, no further corrupt chunk is met while resuming; TocDamage.ReadDamaged covers the rest in general.
- ParallelWriter.OrderedWriting: the checksum bytes are part of a buffer's contents; what they are is in module ValueFile.
- ParallelWriter.NoSendBlocks: the writer's sends of released pages to the memClearers' channels are not covered; they may wait for a memClearer.
- Layout.FileWriter.Append: sequential; in the source a released page may be recycled before its length is added at valuestore_GEN_.go:791-793, and then the count falls behind the offset. The file's bytes are kept as a list of pages; their framing is in module ValueFile.
