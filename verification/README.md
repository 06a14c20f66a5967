# A verified model of a WiscKey/LevelDB store and its flash simulator

This project models, in Dafny, the parts of the repository whose correctness depends on several functions
together, and proves what they are for:

- **The level structure** (`Keys`, `Tables`, `Overlaps`, `Picking`, `DropRule`, `LsmStates`, `LsmProofs`, `Compacting`,
  `VersionBuilder`, `Reads`, `DbImpl`). Writes, memtable switches, flushes, trivial moves, automatic compactions and reopening are
  the steps of a state machine. "Entries never hop across levels" is an invariant of every run, and `Get` therefore returns
  the last write. The methods of `DbImpl.DBImpl` are the background and foreground operations; each is proved to be a step, or
  a sequence of steps where other threads run in between.
- **The write path** (`WriteBatch`, `WriteQueue`, `LogFormat`, `LogReading`, `EditCodec`, `Durable`). The writer queue is a state
  machine over its steps; the log, batch and MANIFEST formats are byte-exact.
- **Recovery** (`Manifest`, `LogFiles`, `Recovery`, `RecoveryDisk`, `RecoveryProofs`, `ManifestReplay`, `Reopening`). The same
  database together with its disk: log files, tables with their contents and MANIFEST records. Every step of flushing, compacting,
  installing, deleting files, crashing and opening is a step of one machine. In every state the disk alone stands for a database
  with the whole history of logged batches, and `Reopening.Open` gets it back from the bytes.
- **Tables** (`Coding`, `Block`, `BlockIter`, `Separators`, `Bloom`, `FilterBlock`, `Table`, `TableBuilding`): prefix-compressed
  blocks, shortened separators and filters, built and looked up byte for byte.
- **Iterators** (`DbIter`, `Merger`, `TwoLevel`), the **skip list** with one writer and many readers (`SkipList`) and the
  **LRU cache** with its hash table and reference counts (`Cache`).
- **Flash translation layers** (`Flash`, `Ftl`, `Nftl`): page mapping with garbage collection, and primary/replacement merging.

## Conventions

- The level structure, the iterators and the skip list use nothing of a user key but how it compares, so a key is there the real
  number `Rank`; `Keys.RankIsComparison` shows that comparing ranks is comparing byte strings, and `Separators.InternalLessIsBefore`
  that the byte-level internal comparator is the order used above it.
- CRC and hash functions are parameters, of which nothing is assumed but that they are functions.
- Random choices (block order, node heights), when files are cut, and the outcome of I/O are parameters or left open.
- Sizes that the formats store in 32 or 64 bits are assumed to fit.

## Where the code and its comments differ

- `VersionEdit::Clear` keeps `compact_pointers_` (version_edit.cc:26-39), so decoding is the identity exactly when the
  target edit has none (`EditCodec.IdentityIffNoPointers`).
- A failed write still advances LastSequence (db_impl.cc:1553-1556); intervals stay disjoint and gapless because of it.
- FTL garbage collection reaches its goal exactly if fewer clusters are live than fit in all blocks above the reserve but one
  (`Ftl.FTL.GarbageCollection`, `Ftl.NoTurnMakesRoom`). Otherwise its turns end up only doubling the divider, a 32-bit int that is zero
  after 32 doublings; then the test of FTL.c:171 divides by zero (`Ftl.LoopDividesByZero`, `Flash.DividerOverflows`). `Ftl.StuckAfterTwoWrites`
  is the smallest case. The simulator sets MaxCluster to all blocks above the reserve (flash.c:293-298), so a trace that writes every
  cluster comes to this.
- An NFTL write does not come to an end exactly when it needs a block, the list is at its reserve and no other logical block that has both
  blocks has an invalid page in one of them (`Nftl.NFTL.WriteOneCluster`); its scans are in vain until the divider is zero and NFTL.c:224
  divides by it (`Nftl.StuckDividesByZero`). `Nftl.StuckWithAPair` is a case with a logical block that could be merged but never is.
- NFTL.c:224-225 reads the counters of block -1 before it asks whether a logical block has both blocks; the model asks first.
- `DBIter` moving backwards may stand further back than "just before all entries" of the key (db_iter.cc:44-45): it passes over
  entries that are too new. The invariant used here says exactly what it passes over.
- `Block::Iter` counts a restart point to the block before it (block.cc:247-250); `Prev` relies on that.

## Model

| member | source | states |
|---|---|---|
| Keys.RankIsComparison | WiscKey/util/comparator.cc:25-27 | comparing ranks is memcmp-then-length comparison of byte strings, both ways, and equal ranks mean equal strings |
| Keys.BeforeIsStrictTotalOrder | WiscKey/db/dbformat.cc:50-66 | increasing user key, then decreasing tag is a strict total order of internal keys |
| Tables.NewestIsLargest | WiscKey/db/version_set.cc:268-281 | in a sorted table a linear scan for a key at a snapshot finds the visible entry with the largest sequence number, or there is none |
| Tables.LevelLaidOut | WiscKey/db/version_set.cc:759-772 | files of a level below 0 that share no user key lie from left to right |
| Overlaps.FindFile | WiscKey/db/version_set.cc:86-105 | the binary search splits the files at the first whose largest key is not before the target |
| Overlaps.SomeFileOverlapsRange | WiscKey/db/version_set.cc:121-156 | true exactly if some file meets the range, by scan or by binary search, with NULL bounds |
| Overlaps.GetOverlappingInputs | WiscKey/db/version_set.cc:531-572 | terminates; at level 0 returns exactly the files meeting the least range closed under overlap, and that range grew without gaps |
| Picking.GetRange | WiscKey/db/version_set.cc:1224-1245 | the bounds contain every input and are attained |
| Picking.ExpansionKeepsNextLevel | WiscKey/db/version_set.cc:1365-1387 | an accepted expansion meets exactly the same level+1 files as before |
| Picking.TryExpand | WiscKey/db/version_set.cc:1345-1389 | an accepted expansion keeps all seed files and is again a gap-free choice of inputs |
| Picking.SetupOtherInputs | WiscKey/db/version_set.cc:1345-1411 | the inputs of both levels form one gap-free interval, the level+1 inputs are those meeting the seed's range, the compact pointer is a largest input key |
| Picking.PickCompaction | WiscKey/db/version_set.cc:1291-1343 | whatever triggers it, the chosen inputs are gap-free and disjoint from the files of their levels that are left out |
| Picking.PickLevelForMemTableOutput | WiscKey/db/version_set.cc:502-528 | a flushed table goes to a level only past levels that have no key of its range |
| DropRule.DropRuleKeepsView | WiscKey/db/db_impl.cc:1214-1263 | for every sorted input, every key and every snapshot at or above the smallest held one, dropping hidden entries and base-level deletions leaves the visible value unchanged over outputs and deeper levels |
| DropRule.KeptSorted | WiscKey/db/db_impl.cc:1183-1278 | the survivors stay in internal key order |
| DropRule.SurvivorIsNewest | WiscKey/db/db_impl.cc:1232-1241 | with no snapshot held a survivor is the newest merged entry of its key |
| DropRule.NewestSurvives | WiscKey/db/db_impl.cc:1237-1255 | the newest merged entry of a key survives unless it is a deletion with nothing below it |
| DropRule.CompactionCursor.IsBaseLevelForKey | WiscKey/db/version_set.cc:1484-1503 | for non-decreasing queries the monotone cursors answer as a stateless search of all deeper files |
| DropRule.CompactionCursor.SearchLevel | WiscKey/db/version_set.cc:1488-1500 | the cursor of one level finds a covering file exactly if there is one |
| DropRule.CompactionCursor.ShouldDrop | WiscKey/db/db_impl.cc:1214-1263 | the decision from current_user_key, last_sequence_for_key and the cursors is the drop rule of the merged list |
| Compacting.MergeInputs | WiscKey/db/version_set.cc:1258-1289 | the merged input is sorted and holds exactly the entries of all inputs |
| Compacting.FinishOutputFile | WiscKey/db/db_impl.cc:1035-1127 | closing an output changes nothing that has been written |
| Compacting.AddToOutput | WiscKey/db/db_impl.cc:1257-1276 | a survivor is appended to what has been written, wherever files are cut |
| LsmProofs.FlushKeepsVersion | WiscKey/db/db_impl.cc:744-775 | a table placed by PickLevelForMemTableOutput keeps levels disjoint and newer entries above older ones |
| LsmProofs.FlushKeepsRunning | WiscKey/db/db_impl.cc:1186-1194 | a flush during a compaction never lands where it overlaps the compaction's gap-free inputs |
| LsmProofs.OutsideOutputs | WiscKey/db/db_impl.cc:1129-1149 | no file of the output level outside the inputs can touch an output |
| LsmProofs.InstallKeepsVersion | WiscKey/db/db_impl.cc:1129-1149 | installing the outputs keeps levels disjoint and newer entries above older ones |
| LsmProofs.FinishKeepsComplete | WiscKey/db/db_impl.cc:1129-1149 | after a compaction the last write of every key is still stored, or was a deletion and the key is gone |
| LsmProofs.TrivialMoveInv | WiscKey/db/db_impl.cc:933-950 | moving one file down keeps the whole invariant |
| LsmProofs.RecoverInv | WiscKey/db/db_impl.cc:466-519 | starting over from version and logs, with any last sequence number and next file number that cover what is stored, keeps the whole invariant |
| LsmProofs.RecoverTableInv | WiscKey/db/db_impl.cc:563-642 | while opening, the oldest entries of the replayed memtable may become a table of level 0 |
| LsmProofs.StepInv | WiscKey/db/version_set.cc:346-348 | every step keeps: levels disjoint, newer entries above older ones, every last write stored, unique file numbers; among the steps are numbers taken for anything in any order, reopening, and tables rebuilt from logs |
| LsmProofs.RunInv | WiscKey/db/version_set.cc:346-348 | that invariant holds in every state of every run, through any number of reopenings |
| VersionBuilder.MergeLevel | WiscKey/db/version_set.cc:711-757 | the merge of base and added files is sorted and holds exactly those that are not deleted |
| VersionBuilder.Builder.Apply | WiscKey/db/version_set.cc:665-708 | one edit changes each level's set of files as a deletion followed by additions |
| VersionBuilder.Builder.SaveTo | WiscKey/db/version_set.cc:711-772 | each level of the saved version is sorted and is exactly the set the edits produced |
| VersionBuilder.SortedIsUnique | WiscKey/db/version_set.cc:606-618 | a sorted level is determined by its set of files |
| VersionBuilder.Replay | WiscKey/db/version_set.cc:939-1009 | all file edits through one builder and one SaveTo give, per level, the fold of the edits over file sets |
| VersionBuilder.ReplayRebuildsLastVersion | WiscKey/db/version_set.cc:905-1014 | replaying all edits at once gives exactly the version that installing them one at a time produced |
| Reads.SeekGetIsScan | WiscKey/table/table.cc:226-255 | seeking to (key, snapshot) in a sorted table finds what the linear scan finds |
| Reads.SearchLevel0 | WiscKey/db/version_set.cc:357-372 | newest file first and a stop at the first hit compute the hit of the file with the greatest number |
| Reads.SearchLevel | WiscKey/db/version_set.cc:373-390 | the one file found by binary search decides: it computes the first hit of the level |
| Reads.VersionGet | WiscKey/db/version_set.cc:332-429 | level by level with a stop at the first hit computes the first hit from the top, which is the newest visible entry of the version |
| Reads.FirstHitIsNewest | WiscKey/db/version_set.cc:346-348 | a hit at a level is newer than anything deeper |
| Reads.Level0HitIsNewest | WiscKey/db/version_set.cc:357-372 | in level 0 the hit in the file with the greatest number is the newest visible entry |
| Reads.LevelHitIsNewest | WiscKey/db/version_set.cc:373-390 | in a deeper level the first hit is the newest visible entry |
| Reads.VersionHitIsNewest | WiscKey/db/version_set.cc:332-429 | the first hit from the top down is the newest visible entry of the version |
| Reads.Get | WiscKey/db/db_impl.cc:1379-1416 | memtable, immutable memtable and version in that order compute the function GetOf of the state, and that is the last write of the key |
| Reads.GetIsLastWrite | WiscKey/db/db_impl.cc:1379-1416 | in every state with the invariant GetOf is the value of the last write to the key, or nothing after a deletion or without a write |
| Reads.EveryRunReadsLastWrite | WiscKey/db/db_impl.cc:1379-1416 | in every state of every run, reopenings included, GetOf is the last write of the key |
| DbImpl.LogAndApply | WiscKey/db/version_set.cc:820-841 | builder and SaveTo produce exactly the version the edit describes, level by level |
| DbImpl.WriteLevel0Table | WiscKey/db/db_impl.cc:644-742 | the memtable becomes one well-formed table at a permitted level |
| DbImpl.IsTrivialMove | WiscKey/db/version_set.cc:1466-1474 | true exactly if there is one input file, none below, and the files two levels down that meet its range are within the limit in total |
| DbImpl.DBImpl.Write | WiscKey/db/db_impl.cc:1520-1556 | a group of updates gets the next sequence numbers and is published; a step of the state machine |
| DbImpl.DBImpl.SwitchMemTable | WiscKey/db/db_impl.cc:1664-1686 | the full memtable becomes the immutable one; a step |
| DbImpl.DBImpl.CompactMemTable | WiscKey/db/db_impl.cc:744-775 | the immutable memtable is replaced by its table, also while a compaction runs; a failure uses up a file number and changes nothing else |
| DbImpl.DBImpl.BackgroundCompaction | WiscKey/db/db_impl.cc:897-961 | pick, then trivially move or start a compaction; a step |
| DbImpl.DBImpl.FlushBetween | WiscKey/db/db_impl.cc:1186-1194 | writes, memtable switches and a flush in the middle of a compaction leave its outputs so far apart from the version |
| DbImpl.DBImpl.KeepEntry | WiscKey/db/db_impl.cc:1257-1276 | a surviving entry goes to the open output, which takes the next file number when it is opened |
| DbImpl.DBImpl.CompactEntries | WiscKey/db/db_impl.cc:1180-1290 | whatever is flushed meanwhile, the outputs concatenate to the survivors of the drop rule and have numbers that no file of the version has |
| DbImpl.DBImpl.DoCompactionWork | WiscKey/db/db_impl.cc:1129-1316 | merge, drop, cut into files and install, or fail and drop the outputs, is a sequence of steps of the state machine |
| DbImpl.DBImpl.Get | WiscKey/db/db_impl.cc:1379-1416 | computes GetOf of the state, which is the last write of the key |
| Coding.FixedRoundTrip | WiscKey/util/coding.cc:9-33 | a number that fits n little-endian bytes decodes to itself |
| Coding.PutVarint32 | WiscKey/util/coding.cc:47-79 | the five written-out cases append the same bytes as the general varint |
| Coding.PutVarint64 | WiscKey/util/coding.cc:81-96 | the loop appends exactly the varint of v |
| Coding.VarintLength | WiscKey/util/coding.cc:103-110 | the length of the varint |
| Coding.DecodeVarintLoop | WiscKey/util/coding.cc:112-158 | the shifting loop decodes at most n bytes, truncated to the result's width at every step |
| Coding.DecodeOfVarint | WiscKey/util/coding.cc:81-158 | decoding an encoded number, followed by anything, gives the number and what follows |
| Coding.SliceRoundTrip | WiscKey/util/coding.cc:98-192 | a length-prefixed slice followed by anything reads back |
| Coding.UnmaskOfMask | WiscKey/util/crc32c.h:31-40 | unmasking undoes masking for every 32-bit checksum |
| LogFormat.Writer.AddRecord | WiscKey/db/log_writer.cc:36-82 | appends exactly the fragments of the record, including empty first fragments and block padding, and keeps the log that of its records |
| LogFormat.Writer.EmitPhysicalRecord | WiscKey/db/log_writer.cc:84-109 | appends header and payload of one fragment |
| LogFormat.BlockBoundary | WiscKey/db/log_writer.cc:22-31 | a writer at a block start and one at the end of the block before write the same bytes |
| LogReading.Reader.ReadPhysicalRecord | WiscKey/db/log_reader.cc:199-281 | the loop computes, on any file, the fragment, end of file or bad record and the reports of the specification |
| LogReading.Reader.ReadRecord | WiscKey/db/log_reader.cc:60-182 | the loop assembles fragments and counts reports as the specification does, on any file |
| LogReading.Reader.ReadRecords | WiscKey/db/db_impl.cc:563-606 | reading until the first failure gives the specified list of records |
| LogReading.FragmentAnywhere | WiscKey/db/log_reader.cc:199-281 | a fragment whose bytes are all there is read; one that is cut off reads as end of file, without a report |
| LogReading.ReadEmitted | WiscKey/db/log_reader.cc:60-182 | the same for a whole record from any block offset |
| LogReading.PrefixReadsBack | WiscKey/db/log_reader.cc:60-182 | any byte prefix of the log of any records reads back exactly the records wholly inside it, with no report |
| LogReading.LogReadsBack | WiscKey/db/log_writer.cc:36-109 | the whole log reads back exactly the list, with no report |
| WriteBatch.DecodeOfEncodedOps | WiscKey/db/write_batch.cc:42-109 | encoded updates decode to themselves |
| WriteBatch.BatchRoundTrip | WiscKey/db/write_batch.cc:42-96 | iterating over an encoded batch gives its updates, count and sequence number |
| WriteBatch.Batch.Put | WiscKey/db/write_batch.cc:98-103 | the patched header and appended record encode the batch with one more update |
| WriteBatch.Batch.Delete | WiscKey/db/write_batch.cc:105-109 | the same for a deletion |
| WriteBatch.Batch.SetSequence | WiscKey/db/write_batch.cc:94-96 | the patched header encodes the same updates under the new sequence number |
| WriteBatch.Batch.Append | WiscKey/db/write_batch.cc:141-145 | appending another batch encodes the concatenation of the updates |
| WriteBatch.Batch.Iterate | WiscKey/db/write_batch.cc:42-80 | on any bytes: the updates handed over before the end or the first error, and which error |
| WriteBatch.Batch.InsertInto | WiscKey/db/write_batch.cc:128-134 | every update enters the memtable exactly once, numbered from the batch's sequence |
| WriteQueue.BuildBatchGroup | WiscKey/db/db_impl.cc:1579-1624 | the group is the longest prefix of the queue without a sync write behind a non-sync leader and within the size limit; the result is the concatenation of its batches |
| WriteQueue.NextInv | WiscKey/db/db_impl.cc:1504-1575 | every step of leader, followers, log, sync, memtable and background errors keeps the invariant |
| WriteQueue.IntervalsInQueueOrder | WiscKey/db/db_impl.cc:1521-1556 | batches get disjoint intervals of sequence numbers in queue order, without gaps |
| WriteQueue.OkMeansExactlyOnce | WiscKey/db/db_impl.cc:1532-1568 | each update of a batch reported OK is in the log and in the memtable exactly once, and synced if asked for |
| WriteQueue.ReadersSeeWholeBatches | WiscKey/db/db_impl.cc:1555-1555 | in every run a reader at any LastSequence ever published sees, then and later, exactly the batches reported OK before it, whole |
| WriteQueue.PublishedNeverSplits | WiscKey/db/db_impl.cc:1524-1556 | no published LastSequence lies inside the interval of any batch, even of one that failed |
| EditCodec.BodyRoundTrip | WiscKey/db/version_edit.cc:41-199 | every tagged field decodes to itself, whatever follows |
| EditCodec.AppendEncoded | WiscKey/db/version_edit.cc:41-86 | EncodeTo appends the fields in its fixed order |
| EditCodec.DecodeFrom | WiscKey/db/version_edit.cc:109-210 | the loop computes, on any bytes, the decoded edit and status of the specification |
| EditCodec.EditRoundTrip | WiscKey/db/version_edit.cc:26-210 | decoding an encoded edit gives it back, with compaction pointers already in the target kept in front |
| EditCodec.IdentityIffNoPointers | WiscKey/db/version_edit.cc:26-39 | the round trip is the identity exactly if the target has no compaction pointers, as a fresh edit |
| Durable.CutLogHoldsWholeBatches | WiscKey/db/db_impl.cc:563-606 | a log of batches cut after any byte yields the first ones, each whole, with no report; the whole log yields all |
| Durable.CutManifestHoldsWholeEdits | WiscKey/db/version_set.cc:941-983 | a MANIFEST cut after any byte decodes to the first of its edits, field by field; the whole one to all |
| Manifest.DescribesNext | WiscKey/db/version_set.cc:820-882 | appending the record of an edit to the MANIFEST and installing the edit keeps the MANIFEST a description of the version |
| Manifest.SnapshotDescribes | WiscKey/db/version_set.cc:1102-1130 | the record that WriteSnapshot writes describes the version it was taken of |
| Manifest.DescribedOnce | WiscKey/db/version_set.cc:905-1025 | MANIFEST records and tables on disk determine the version, with the contents of its files |
| Manifest.FreshRecordsAreFreshRun | WiscKey/db/version_set.cc:665-708 | if each record adds files under numbers new to their level, one builder may take them all |
| ManifestReplay.KeyOfInternalKey | WiscKey/db/dbformat.cc:12-21 | the key read from the bytes of an encoded internal key has the rank of its user key, its sequence number and its type |
| ManifestReplay.Recover | WiscKey/db/version_set.cc:905-1025 | on any file: the version, log number, next file number, last sequence and compaction pointers that its records leave, or an error for a report, a bad record, another comparator or a number that no record sets |
| ManifestReplay.CutManifestRebuilds | WiscKey/db/version_set.cc:905-1025 | a MANIFEST cut after any byte is read, decoded and replayed to the version after one of the edits installed one at a time; the whole file to the one after the last |
| ManifestReplay.EveryRunReadsItsManifest | WiscKey/db/version_set.cc:905-1025 | in every state of every run the bytes of the MANIFEST replay to the version that opening starts from, and the file numbers the run has handed out meet what the builder needs |
| LogFiles.ReplayIsSuffix | WiscKey/db/db_impl.cc:466-512 | replaying the logs from a number on yields the history from where the first of them starts |
| RecoveryProofs.LogBatchInv | WiscKey/db/db_impl.cc:1532-1541 | a batch in the log that is not yet in the memtable is already safe |
| RecoveryProofs.SwitchMemTableInv | WiscKey/db/db_impl.cc:1664-1686 | a new log and memtable lose nothing |
| RecoveryProofs.FinishTableInv | WiscKey/db/db_impl.cc:644-742 | the table of a flush is written under a number that no live version and no MANIFEST record knows |
| RecoveryProofs.WriteFlushEditInv | WiscKey/db/version_set.cc:820-903 | once its record is in the MANIFEST a flush counts, whether the write was reported as failed or not, and its log is no longer needed |
| RecoveryProofs.InstallFlushInv | WiscKey/db/db_impl.cc:759-771 | dropping the immutable memtable after LogAndApply leaves every batch in the version, the memtable or the log |
| RecoveryProofs.WriteCompEditInv | WiscKey/db/db_impl.cc:1129-1149 | the same for the record of a compaction or a trivial move |
| RecoveryProofs.InstallCompInv | WiscKey/db/db_impl.cc:1129-1149 | installing it keeps the invariant; old versions stay readable while they are held |
| RecoveryProofs.DeleteTableInv | WiscKey/db/db_impl.cc:374-428 | a deleted table is in no live version, is no pending output and is not in the version the MANIFEST describes |
| RecoveryProofs.DeleteLogInv | WiscKey/db/db_impl.cc:393-396 | a deleted log is below the log number that the MANIFEST asks for |
| RecoveryProofs.CrashInv | WiscKey/db/db_impl.cc:430-519 | starting over from the disk alone keeps the invariant, also in the middle of opening |
| RecoveryProofs.RecoverTableInv | WiscKey/db/db_impl.cc:521-642 | replayed batches become tables of level 0, which may have the number of a log that is still to be replayed |
| RecoveryProofs.OpenInstallInv | WiscKey/db/db_impl.cc:1825-1870 | the new MANIFEST, a snapshot and the edit with the rebuilt tables, describes everything |
| RecoveryProofs.NextInv | WiscKey/db/db_impl.cc:374-519 | every step of writing, switching, flushing, compacting, MANIFEST writes (also failing), installing, deleting files, crashing and reopening keeps the invariant |
| RecoveryProofs.RunInv | WiscKey/db/db_impl.cc:374-519 | so it holds in every state of every run |
| RecoveryDisk.DiskStands | WiscKey/db/db_impl.cc:430-519 | in every such state the disk stands for a database with the level-structure invariant whose history is every batch ever logged: tables hold one part, the logs from the MANIFEST's number on the rest |
| RecoveryDisk.RecoveredIsRecover | WiscKey/db/db_impl.cc:430-519 | whatever is recovered from the MANIFEST's version, the tables' contents and these logs is that database; its last sequence number covers every stored one |
| RecoveryDisk.RecoverySucceeds | WiscKey/db/db_impl.cc:477-495 | no table that the version expects is missing |
| RecoveryProofs.EveryRunRecovers | WiscKey/db/db_impl.cc:430-519 | in every state of every run, crashes included, the recovered database has every logged batch in its history and a read of any key returns its last logged write |
| RecoveryProofs.EveryRunOpens | WiscKey/db/db_impl.cc:430-519 | and there always is a recovered database |
| RecoveryProofs.MemoryIsHistory | WiscKey/db/db_impl.cc:744-775 | while running, after any number of crashes, a read returns the last write of the logged batches, apart from one that is still to be inserted |
| Reopening.RecoverLogFile | WiscKey/db/db_impl.cc:521-642 | from the bytes of a log of batches: exactly their entries join the memtable, and the largest sequence number covers them |
| Reopening.Open | WiscKey/db/db_impl.cc:430-519 | from the bytes of MANIFEST and logs and the tables that a run has left at any of its states: a database with the whole logged history, in which a read of any key returns its last logged write |
| SkipList.ReaderStepOk | WiscKey/db/skiplist.h:262-302 | a reader's load is safe at any point of an insertion, and the load that ends its search yields the true successor or predecessor at that instant |
| SkipList.PublishOk | WiscKey/db/skiplist.h:363-369 | one release store links the node at its place and every level stays a sorted sublist of those below |
| SkipList.NextInv | WiscKey/db/skiplist.h:337-370 | every interleaved step of the writer and of any reader keeps the invariant |
| SkipList.EverySearchIsRight | WiscKey/db/skiplist.h:262-281 | in every interleaving each finished search is right at the instant of its last level-0 load |
| SkipList.List.FindGreaterOrEqual | WiscKey/db/skiplist.h:262-281 | the successor on level 0 and the predecessor on every level in use |
| SkipList.List.FindLast | WiscKey/db/skiplist.h:304-322 | the last node of level 0, or the head |
| SkipList.List.Insert | WiscKey/db/skiplist.h:337-370 | level 0 gains the key at its place in the order, for every height |
| DbIter.YieldsIsShown | WiscKey/db/db_iter.cc:173-203 | an entry that the iterator may stop on is the newest visible one of its key and a value |
| DbIter.DBIter.FindNextUserEntry | WiscKey/db/db_iter.cc:173-203 | stops on the first visible, not deleted, not skipped key from where it stands |
| DbIter.DBIter.FindPrevUserEntry | WiscKey/db/db_iter.cc:232-272 | stops on the last such key before, holding its newest visible value |
| DbIter.DBIter.Next | WiscKey/db/db_iter.cc:146-171 | from either direction, moves to the smallest shown key greater than the current one, or becomes invalid if there is none |
| DbIter.DBIter.Prev | WiscKey/db/db_iter.cc:205-230 | from either direction, moves to the greatest shown key smaller than the current one, or becomes invalid |
| DbIter.DBIter.Seek | WiscKey/db/db_iter.cc:274-286 | moves to the smallest shown key at or above the target |
| DbIter.DBIter.SeekToFirst | WiscKey/db/db_iter.cc:288-297 | moves to the smallest shown key |
| DbIter.DBIter.SeekToLast | WiscKey/db/db_iter.cc:299-304 | moves to the greatest shown key |
| DbIter.DBIter.OnEntry | WiscKey/db/db_iter.cc:66-73 | key() and value() are those of the ordered map of keys visible at the sequence number |
| Merger.MergingIterator.FindSmallest | WiscKey/table/merger.cc:155-168 | with the children split at a cut, current_ is on the least entry of the union above it |
| Merger.MergingIterator.FindLargest | WiscKey/table/merger.cc:170-183 | with the children split at a cut, current_ is on the greatest entry of the union below it |
| Merger.MergingIterator.Next | WiscKey/table/merger.cc:59-83 | from either direction, moves to the next entry of the sorted union |
| Merger.MergingIterator.Prev | WiscKey/table/merger.cc:85-112 | from either direction, moves to the previous entry of the sorted union |
| Merger.MergingIterator.Seek | WiscKey/table/merger.cc:51-57 | moves to the first entry of the union at or after the target |
| Merger.MergingIterator.SeekToFirst | WiscKey/table/merger.cc:35-41 | moves to the first entry of the union |
| Merger.MergingIterator.SeekToLast | WiscKey/table/merger.cc:43-49 | moves to the last entry of the union |
| TwoLevel.SeekBoth | WiscKey/table/two_level_iterator.cc:91-96 | seeking the index and then its block is seeking the concatenation |
| TwoLevel.TwoLevelIterator.Seek | WiscKey/table/two_level_iterator.cc:91-96 | lands on the first entry of the concatenation at or after the target, past empty blocks |
| TwoLevel.TwoLevelIterator.Next | WiscKey/table/two_level_iterator.cc:112-116 | moves one entry forward in the concatenation |
| TwoLevel.TwoLevelIterator.Prev | WiscKey/table/two_level_iterator.cc:118-122 | moves one entry back in the concatenation |
| TwoLevel.TwoLevelIterator.SeekToFirst | WiscKey/table/two_level_iterator.cc:98-103 | moves to the first entry of the concatenation |
| TwoLevel.TwoLevelIterator.SeekToLast | WiscKey/table/two_level_iterator.cc:105-110 | moves to the last entry of the concatenation |
| TwoLevel.TwoLevelIterator.SkipEmptyDataBlocksForward | WiscKey/table/two_level_iterator.cc:125-136 | keeps the position in the concatenation while passing over any number of empty blocks |
| TwoLevel.TwoLevelIterator.SkipEmptyDataBlocksBackward | WiscKey/table/two_level_iterator.cc:138-149 | the same backwards |
| Block.DecodeOfEntry | WiscKey/table/block.cc:53-74 | an encoded entry decodes to itself on the fast path and on the slow one |
| Block.BlockBuilder.Add | WiscKey/table/block_builder.cc:73-107 | for any restart interval the buffer stays the encoding of the entries, restart points sharing nothing |
| Block.BlockBuilder.Finish | WiscKey/table/block_builder.cc:63-71 | appends the restart array and its length |
| BlockIter.BlockTail | WiscKey/table/block.cc:18-38 | the reader finds the number and the offsets of the restart points |
| BlockIter.DecodeAt | WiscKey/table/block.cc:226-253 | an entry decodes at its offset from any key that agrees on the shared part |
| BlockIter.Iter.ParseNextKey | WiscKey/table/block.cc:226-253 | reads the next entry or becomes invalid at the end; corruption is unreachable on a built block |
| BlockIter.Iter.Next | WiscKey/table/block.cc:139-142 | moves one entry forward |
| BlockIter.Iter.Prev | WiscKey/table/block.cc:144-163 | moves one entry back by scanning from a restart point, or becomes invalid before the first |
| BlockIter.Iter.SeekToFirst | WiscKey/table/block.cc:205-208 | moves to the first entry |
| BlockIter.Iter.SeekToLast | WiscKey/table/block.cc:210-215 | moves to the last entry |
| BlockIter.Iter.FindRestart | WiscKey/table/block.cc:166-191 | every entry before the chosen restart point is smaller than the target |
| BlockIter.Iter.Seek | WiscKey/table/block.cc:165-203 | lands on the first key that is not less than the target, for any ordered comparator |
| Separators.FindShortestSeparator | WiscKey/util/comparator.cc:29-51 | start itself, or a string no longer than it and strictly between it and limit |
| Separators.FindShortSuccessor | WiscKey/util/comparator.cc:53-65 | the key itself, or a larger string that is no longer |
| Separators.FindInternalSeparator | WiscKey/db/dbformat.cc:68-85 | start itself, or an internal key whose user key is strictly between |
| Separators.FindInternalSuccessor | WiscKey/db/dbformat.cc:87-99 | the key itself, or an internal key with a larger user key |
| Separators.InternalIsOrdered | WiscKey/db/dbformat.cc:50-66 | the byte-level internal comparator is an order as the block iterator needs it |
| Separators.InternalLessIsBefore | WiscKey/db/dbformat.cc:12-66 | on packed keys it is the order of (user key, sequence, type) used by the level structure |
| Bloom.AddKey | WiscKey/util/bloom.cc:50-60 | sets exactly the probed bits of one key |
| Bloom.CreateFilter | WiscKey/util/bloom.cc:35-61 | exactly the probed bits of all keys are set, and the number of probes is stored behind them |
| Bloom.KeyMayMatch | WiscKey/util/bloom.cc:63-87 | on any bytes: true exactly if all probed bits are set or the probe count is reserved |
| Bloom.NoFalseNegatives | WiscKey/util/bloom.cc:35-87 | a key the filter was built from always matches, for every hash function |
| FilterBlock.FilterBlockBuilder.GenerateFilter | WiscKey/table/filter_block.cc:52-76 | the next filter is built from exactly the pending keys |
| FilterBlock.FilterBlockBuilder.StartBlock | WiscKey/table/filter_block.cc:22-28 | afterwards keys go to the filter of the block's offset; pending keys go to the filter before |
| FilterBlock.FilterBlockBuilder.Finish | WiscKey/table/filter_block.cc:36-50 | the contents are a filter block of all filters |
| FilterBlock.MayMatch | WiscKey/table/filter_block.cc:78-109 | true for every key that the filter of the offset was built from; total on any contents |
| FilterBlock.FilterFound | WiscKey/table/filter_block.cc:95-109 | the reader finds the filter of an offset and it matches the keys it was built from |
| Table.HandleRoundTrip | WiscKey/table/format.cc:15-33 | an encoded block handle decodes to itself |
| Table.SeparatorOk | WiscKey/table/table_builder.cc:100-107 | a shortened key separates a block from everything that can follow |
| Table.ClosedFilter | WiscKey/table/table_builder.cc:123-137 | starting the next block leaves every key of every block in the filter of that block's offset |
| Table.IndexFindsAnswer | WiscKey/table/table.cc:226-255 | looking only into the block that the index points to gives the answer of a scan of the whole table |
| Table.PastBlock | WiscKey/table/table.cc:240-246 | if the key lies past the whole block, its separator was shortened and no later entry has the user key |
| Table.AnswerIsNewest | WiscKey/db/version_set.cc:268-281 | that answer is the newest entry of the user key visible at the snapshot, or there is none |
| TableBuilding.TableBuilder.Add | WiscKey/table/table_builder.cc:92-121 | index, filter (with a filter policy) and data block stay those of the entries added so far |
| TableBuilding.TableBuilder.Flush | WiscKey/table/table_builder.cc:123-137 | the data block is written, its index entry pending, its keys filtered; or the status is an error |
| TableBuilding.TableBuilder.Finish | WiscKey/table/table_builder.cc:199-239 | the result is a table of all entries added, with a filter block exactly if there is a filter policy |
| TableBuilding.InternalGet | WiscKey/table/table.cc:226-255 | index seek, filter (if the table has one) and block seek together give the answer of a scan of the whole table, for every key |
| Cache.HandleTable.Lookup | WiscKey/util/cache.cc:76-78 | finds the entry of key and hash exactly if the table maps them |
| Cache.HandleTable.Insert | WiscKey/util/cache.cc:80-94 | maps key and hash to the new entry, returns the one it replaces, and keeps the load below one entry a bucket |
| Cache.HandleTable.Remove | WiscKey/util/cache.cc:96-104 | unmaps exactly that key and hash |
| Cache.HandleTable.Resize | WiscKey/util/cache.cc:125-150 | every lookup gives the same after rehashing into any number of buckets |
| Cache.RefInv | WiscKey/util/cache.cc:221-227 | a new reference of a client keeps the invariant: exact counts, exact usage, unreferenced entries and only they on the LRU list |
| Cache.ReleaseInv | WiscKey/util/cache.cc:229-240 | so does a release, which frees the entry if it was the last reference |
| Cache.EraseInv | WiscKey/util/cache.cc:307-316 | so does dropping a cached entry, whoever still refers to it |
| Cache.EvictedFits | WiscKey/util/cache.cc:293-300 | eviction takes the oldest part of the LRU list until the usage fits or clients hold all that is left |
| Cache.FreedWhenUnused | WiscKey/util/cache.cc:229-240 | an entry has been freed, once, exactly when neither the cache nor a client refers to it |
| Cache.RunInv | WiscKey/util/cache.cc:155-333 | in every run of inserts, lookups, releases, erases and prunes the usage is the charges of the cached entries and every count is exact |
| Cache.LRUCache.Insert | WiscKey/util/cache.cc:269-303 | replaces, adds and evicts as specified; afterwards the usage is within capacity or nothing unreferenced is cached |
| Cache.LRUCache.Lookup | WiscKey/util/cache.cc:255-262 | returns the cached entry with one more reference, or nothing |
| Cache.LRUCache.Release | WiscKey/util/cache.cc:264-267 | gives up one reference |
| Cache.LRUCache.Erase | WiscKey/util/cache.cc:318-321 | drops the entry if it is cached |
| Cache.LRUCache.Prune | WiscKey/util/cache.cc:323-333 | drops every entry that nobody refers to |
| Flash.SetPageCounted | WiscKey/Flash/FTL.c:57-72 | one page change with its counter updates keeps both counters equal to the page counts |
| Flash.DividerOverflows | WiscKey/Flash/FTL.c:179-183 | the 32-bit divider is a power of two for 30 doublings, negative after 31 and zero after 32 |
| Flash.FlashMemory.GetFreeBlock | WiscKey/Flash/flash.c:394-450 | takes the first block of the list, or -1 at the reserve; the array stays the linked list |
| Flash.FlashMemory.PutFreeBlock | WiscKey/Flash/flash.c:555-564 | appends to the end of the list |
| Flash.FlashMemory.CheckFreeBlock | WiscKey/Flash/flash.c:522-528 | the first block if the list is above its reserve |
| Flash.InitializeFlashMemory | WiscKey/Flash/flash.c:172-312 | a list of all good blocks in the drawn order, all clean, exact counters |
| Ftl.WrittenOk | WiscKey/Flash/FTL.c:54-87 | a write keeps FTLTable and flash memory inverse, counters exact, free blocks clean, and adds exactly the cluster |
| Ftl.FTL.ReadOneCluster | WiscKey/Flash/FTL.c:37-46 | true exactly for clusters that are mapped |
| Ftl.FTL.WriteOneCluster | WiscKey/Flash/FTL.c:54-87 | invalidates the old page and programs the current one, which is free |
| Ftl.FTL.EraseOneBlock | WiscKey/Flash/FTL.c:95-144 | no live cluster is lost, at most one fresh block is used, GetFreeBlock never fails, the victim is never handed out, invalid pages strictly decrease |
| Ftl.FetchWhileCopying | WiscKey/Flash/FTL.c:103-110 | room runs out at most once per erase, and the block then fetched is not the victim |
| Ftl.FTL.FindVictim | WiscKey/Flash/FTL.c:163-177 | one turn of the scan finds a victim exactly if there is one |
| Ftl.SomethingToCollect | WiscKey/Flash/FTL.c:153-192 | with slack and the list at its reserve, some full block has an invalid page |
| Ftl.LargeDividerFinds | WiscKey/Flash/FTL.c:174-187 | past MaxPage the scan succeeds exactly if some block that is neither free nor current has an invalid page |
| Ftl.FTL.CollectOnce | WiscKey/Flash/FTL.c:160-191 | one turn erases a block and lowers the invalid pages, or doubles a divider that stays within 2 MaxPage; past MaxPage a fruitless turn means that nothing can be collected and there is no slack |
| Ftl.FTL.GarbageCollection | WiscKey/Flash/FTL.c:153-192 | comes to its goal exactly if fewer clusters are live than fit in all blocks above the reserve but one; then the list is one above its reserve; every cluster is kept either way |
| Ftl.RoomNeedsSlack | WiscKey/Flash/FTL.c:153-192 | a state with the list above its reserve and a page to write to fits its clusters in all blocks above the reserve but one |
| Ftl.NoTurnMakesRoom | WiscKey/Flash/FTL.c:160-191 | without that slack no number of turns of the loop lifts the list above its reserve |
| Ftl.LoopDividesByZero | WiscKey/Flash/FTL.c:171-183 | where nothing can be collected the turns only double the divider, and after 32 of them from 1 the test divides by zero |
| Ftl.StuckAfterTwoWrites | WiscKey/Flash/FTL.c:198-227 | two blocks of two pages, one in reserve: after clusters 0 and 1 nothing can be collected and there is no slack |
| Ftl.FTL.SecureWriteOneCluster | WiscKey/Flash/FTL.c:198-227 | a write comes to an end exactly if a page of the current block stays free, a block is above the reserve, or there is slack with the cluster; it keeps the whole invariant and adds exactly its cluster |
| Ftl.FTL.WriteRequest | WiscKey/Flash/FTL.c:325-331 | a request adds exactly its clusters, or those up to a write that does not end, which happens only without slack |
| Ftl.InitializeFTL | WiscKey/Flash/FTL.c:235-252 | starts with no cluster mapped and a page to write to |
| Nftl.LogicalIsDivision | WiscKey/Flash/NFTL.c:32-33 | the repeated subtraction used for cluster numbers is division and remainder |
| Nftl.OneLivePage | WiscKey/Flash/NFTL.c:24-101 | a cluster can be read exactly if it has a live page, and it has at most one in the whole memory |
| Nftl.CasesCover | WiscKey/Flash/NFTL.c:338-392 | one of the write cases always applies, and in case 3 the cluster is in the replacement block |
| Nftl.MergedOk | WiscKey/Flash/NFTL.c:109-192 | a merge keeps the invariant and exactly the readable clusters, and leaves the list one longer |
| Nftl.VictimIsStale | WiscKey/Flash/NFTL.c:224-228 | a victim has an invalid page in one of its two blocks, and past MaxPage that is enough |
| Nftl.BlocksConserved | WiscKey/Flash/NFTL.c:109-192 | free list, primary and replacement blocks together are the good blocks, each once |
| Nftl.NFTL.ReadOneCluster | WiscKey/Flash/NFTL.c:24-101 | true exactly if the cluster is live in one of its two blocks |
| Nftl.NFTL.MergeBlocks | WiscKey/Flash/NFTL.c:109-192 | copies every live page to its own offset of a clean block that is neither of the two; the write mark stays |
| Nftl.NFTL.GarbageCollection | WiscKey/Flash/NFTL.c:200-252 | one turn merges a logical block that passes the victim test, exactly if one does, or doubles the divider |
| Nftl.NFTL.FindVictim | WiscKey/Flash/NFTL.c:217-233 | one turn of the cyclic scan finds a victim exactly if there is one |
| Nftl.NFTL.CollectOneBlock | WiscKey/Flash/NFTL.c:279-282 | the turns end with a merge exactly if some other logical block with both blocks has an invalid page |
| Nftl.NFTL.MakeRoom | WiscKey/Flash/NFTL.c:303-335 | ends with a free page in the replacement block, at most one merge later |
| Nftl.NFTL.StoreInReplacement | WiscKey/Flash/NFTL.c:338-392 | cases 2 to 4: never falls through, never reaches the error exit |
| Nftl.NFTL.WriteOneCluster | WiscKey/Flash/NFTL.c:259-405 | completes exactly if it is not stuck, and then exactly its cluster becomes readable besides those before |
| Nftl.NFTL.WriteTrace | WiscKey/Flash/NFTL.c:462-475 | after any writes exactly the clusters written can be read; a trace stops only at a stuck write, and never if the good blocks above the reserve are twice the logical blocks touched |
| Nftl.StuckMeansHalfFull | WiscKey/Flash/NFTL.c:259-335 | a write is stuck only if primary and replacement blocks take all good blocks above the reserve, so only if the logical blocks in use, with its own, counted twice exceed them |
| Nftl.StuckFindsNoVictim | WiscKey/Flash/NFTL.c:217-233 | a stuck write finds no victim with any positive divider |
| Nftl.StuckDividesByZero | WiscKey/Flash/NFTL.c:224-239 | a stuck write scans in vain with each of the 32 values of the divider before it is zero |
| Nftl.StuckWithAPair | WiscKey/Flash/NFTL.c:259-335 | four blocks of two pages, one in reserve: after clusters 1, 0 and 3 cluster 4 is stuck although a logical block has both blocks and only two are in use |

## Left out

- Client snapshots in the whole-run claim of the level structure: outputs may be cut between versions of one key; snapshots are in the drop rule and in DBIter.
- Manual compaction (CompactRange): its inputs may leave gaps, so the gap-free argument does not apply.
- Seek counters and level scores: which compaction is picked is left open, what it picks is not.
- The WiscKey bookkeeping maps, VTable and Operations in db_impl.cc: raw addresses and truncated C strings.
- The sixteen shards and the mutexes of util/cache.cc, Env, file I/O, snappy, CRC and hash bodies, memory barriers.
- The metaindex block, the footer and block trailers of a table file: blocks are found by their offsets.
- Resynchronising a log reader from a non-zero initial offset, and the reuse_logs option.
- repair.cc, db_bench.cc, c.cc, dumpfile.cc, leveldbutil.cc and the other drivers.
- BEYONDADDR, LRUListSRAM, FAST, STRIPE, BL and DFTL: not compiled in, absent, or an easier form of the FTL claims.
- Per-chip counters, FreePageCnt, subpage counters, erase counts and timing statistics of the flash simulator.
- The random initial writes of InitializeFTL and NFTLSimulation.
- Ftl.FTL.GarbageCollection: gives up where the original goes on doubling the divider to zero; MaxPage is taken to be far below 2^31.
- Nftl.NFTL.CollectOneBlock: gives up in the same way after a fruitless turn with a divider past MaxPage.
- Flash.InitializeFlashMemory: list marks of bad blocks are taken as "not in list"; the source leaves them uninitialised.
- RecoveryProofs.NextInv: a failing AddRecord or Sync of the log is in WriteQueue, not in the recovery machine; a record is on disk when AddRecord returns.
- RecoveryProofs.WriteFlushEditInv: after a MANIFEST write that failed but had reached the file the model writes no further record; the source could, if a compaction was running around the failed flush.
- DbImpl.LogAndApply: the MANIFEST write and its failure are steps of Recovery, not of this method.
- WriteQueue.NextInv: the memtable switch and the delays of MakeRoomForWrite are in the level structure and in Recovery; here it only grants or denies room.
- LogFormat.Writer.AddRecord: appending to the file does not fail; a crash in the middle is covered by the prefix theorem.
- SkipList.NextInv: loads and stores are sequentially consistent.
- Merger.MergingIterator.Next: children hold pairwise different internal keys.
- DbIter.DBIter.Next: internal keys parse; the read sampling is left out.
- TableBuilding.TableBuilder.Add: when a block is full is left to the caller, and appending may fail at any time.
- TableBuilding.InternalGet: requires index and filter contents below 2^32 bytes.
- Block.BlockBuilder.Add: keys and values are shorter than 2^32 bytes.
- VersionBuilder.Builder.Apply: file numbers are new to their level, as VersionSet hands them out; the compaction pointers of an edit are in ManifestReplay.Recover.
- ManifestReplay.Recover: requires that, too; in the runs of Recovery it is proved.
- Reopening.RecoverLogFile: requires a log as the writer left it; what a cut one yields is Durable.CutLogHoldsWholeBatches. All logs go into one memtable before tables are built from it.
- Cache.HandleTable.Resize: hash & (length - 1) is written as a remainder; the lengths are powers of two.
