# A verified model of the LSM storage engine

A Dafny model of a multi-version log-structured merge engine, in three layers that meet in one
statement: in every run, whatever the interleaving of writes, freezes, flushes and compactions, reads and
scans answer as the plain map of all writes does, exactly as long as no compaction to the bottom has
brought an old value back to the reader (`MachineReads.ReadsAreWrites`, `MachineReads.ScansAreWrites`).
What is stored is that map less exactly the tombstones left out (`MachineReads.ReachableStateHoldsWrites`);
without compactions to the bottom it is that map itself (`MachineReads.UpperRunsAreExact`).

* **Engine.** `machine.dfy` is a transition system: batches written record by record and then
  published, freezes, flushes, and compactions in several steps (task generated, outputs
  written one by one, result applied), in any interleaving. `machine_safety.dfy`, `machine_progress.dfy` and
  `machine_reads.dfy` prove what every run keeps, when a compaction gets stuck, and what readers may
  rely on; `machine_example.dfy` shows concrete runs. `empty_tables.dfy` is about tables without entries,
  which compactions can leave. `engine.dfy` is the engine as an object whose methods are steps of that system.
  `leveled*.dfy`, `simple_leveled.dfy` and `tiered.dfy` are the three controllers; `compaction.dfy`,
  `contents.dfy`, `install.dfy`, `jobs.dfy`, `compactor.dfy` and `compaction_runs.dfy` are what they share.
* **Read path.** `mvcc.dfy` says what a read means. `two_merge_iterator.dfy`, `merge_iterator.dfy`,
  `concat_iterator.dfy`, `lsm_iterator.dfy`, `mem_table.dfy`, `serving.dfy` and `snapshot_reads.dfy`
  show that the iterators, with all pruning and seeking, compute it; `txn.dfy` lays a transaction's
  own writes over it.
* **Table format.** `block.dfy`, `block_iterator.dfy`, `table.dfy`, `table_builder.dfy`,
  `table_iterator.dfy` and `bloom.dfy` work on bytes, with every 16- and 32-bit truncation written
  out. The engine's invariant connects this layer to the others: every live table is backed
  by an object and a file whose blocks hold exactly the table's entries, and
  `Engine.LsmStorageInner.SeekTableToKey` shows that the block-wise iterator finds in them what reads rely on.

`runs.dfy` holds the theory of sorted runs that all layers use; `bytes.dfy` and `keys.dfy` the orders.

## How to read the model

* An iterator is specified by the run it has still to yield (`Rest()`): valid means the run is not
  empty, the current entry is its head, and moving on drops the head. An iterator that owns other
  iterators is given their remaining runs.
* In the engine a table is its sorted entries, its file size and its Bloom filter, next to the object with
  its bytes.
* A panic of the source is a result of its own: no iterator for a scan, `false` for a compaction.
* A memtable's skip map is its sorted content, and the heap of the k-way merge is one slot for each
  input index, popped with the order of `HeapWrapper`.
* Checksum, key hash, Bloom bits per key and number of hash functions are arbitrary parameters.
* Size ratios are compared as exact fractions.

## Where the code does not do what one may expect

The model follows the code. These are proved as they are, with exact conditions:

* A bottom compaction drops a tombstone but keeps older versions of its key, so a deleted key can
  read as its old value again (`Contents.BottomReadChangesIff`, `MachineExample.DeletedValueReturns`).
* The tiered controller marks its last kind of compaction as reaching the bottom although tiers may
  stay behind (`TieredCompaction.BottomFlagWrongIff`, `TieredCompaction.BottomFlagExample`).
* A bottom compaction whose merged input ends in tombstones can write a table without entries
  (`Compaction.EmptyOutputIff`, `MachineExample.EmptyTableWritten`). Gets pass over it. Scans without lower
  bound, or from the empty key on, panic (`Engine.LsmStorageInner.ScanWithTs`,
  `MachineExample.ScansMeetEmptyTable`), and so do later simple, tiered or forced compactions that read it
  (`MachineProgress.TaskOpensIff`, `MachineExample.CompactionMeetsEmptyTable`).
* A transaction that writes the empty key hides all its writes from scans that reach down to it
  (`Txn.ScanShowsAllIff`, `Txn.EmptyKeyExample`).
* Keys and values above 65535 bytes are truncated in a block (`Blocks.EntryRoundTripIff`,
  `Blocks.LongValueExample`).
* A reopened table can report a smaller `max_ts` than the builder did (`TableBuilder.ReopenedMaxTs`,
  `TableBuilder.ReopenedMaxTsExample`).
* The leveled controller compacts L0 only above its trigger, not at it
  (`LeveledTermination.NoTaskIff`); the simple one compacts at it (`SimpleLeveled.NoTaskIff`).

## Model

| member | source | states |
|---|---|---|
| MachineReads.ReachableStateHoldsWrites | src/lsm_storage.rs:533-661 | In every state of every run (single records, publishing, freezing, flushing, compactions of every kind, in any interleaving) the memtables and tables together hold exactly the versions ever put, less the tombstones that a bottom compaction left out since they were last put, each version in exactly one source, with all id, order and filter invariants |
| MachineReads.ContentsAreWrites | src/lsm_storage.rs:533-551 | In every run the stored map is, version by version, the plain map of everything put so far if and only if no tombstone has been left out without being put again |
| MachineReads.StoredIff | src/compact.rs:140-150 | Version by version, in every run and from any of its states on: a version is stored if and only if it was there or has been put, and has not been left out as a tombstone since; its value is the last one put |
| MachineReads.ReadsAreWrites | src/lsm_storage.rs:456-530 | Refinement, for every run and every read at any timestamp: the answer is that of the map of all writes if and only if no value that a bottom compaction resurrected for this reader is still the newest for it; if one is, the reader gets that value and should get nothing |
| MachineReads.ScansAreWrites | src/lsm_storage.rs:677-765 | The same for range scans: exactly if no read within the bounds is stale in this way |
| MachineReads.UpperRunsAreExact | src/compact.rs:148-150 | Corollary: along runs without bottom compactions the stored map is the map of all writes and no read is stale |
| LeveledCompaction.L0TaskIsBottomIff | src/compact/leveled.rs:79-111 | Such runs are short: a leveled L0 task goes straight to the bottom if and only if there is one level only, or the bottom level is at most of base size or too small to give the level above a target |
| MachineReads.OnlyTombstonesVanish | src/compact.rs:140-150 | In every run, with bottom compactions and tables without entries, no version is made up and nothing but tombstones is ever lost |
| MachineReads.ReadChangesIff | src/compact.rs:131-174 | For every step of the engine, also when it writes a table without entries: a read at a published timestamp changes if and only if the step applies a bottom compaction that drops the visible tombstone while an older value lies below it |
| MachineReads.SnapshotReadsAreStable | src/lsm_storage.rs:456-530 | In every run, a read at a published timestamp keeps its answer if and only if no step in between resurrects an old value for it; if one does, the read goes from nothing to that value |
| MachineReads.SnapshotScansAreStable | src/lsm_storage.rs:677-765 | In every run, the answer of a scan at a published timestamp stays the answer if and only if no key within its bounds is resurrected |
| MachineReads.BatchIsAtomic | src/lsm_storage.rs:533-551 | For every batch of every run, whatever happens during it: between its start and its publication a read at a published timestamp changes exactly by resurrection; afterwards a read at the new timestamp sees every record, the last one winning for a repeated key, if and only if no resurrected value is still the newest for it |
| MachineReads.PublishShowsBatch | src/lsm_storage.rs:549-550 | Publishing lays the whole batch over what readers saw before, except exactly for a deletion whose tombstone a bottom compaction has already left out over an older value |
| MachineReads.LastWriteIsLast | src/lsm_storage.rs:539-546 | The value that a batch gives to a key is that of the record with the greatest index |
| MachineSafety.StepKeepsInv | src/lsm_storage.rs:533-661 | Every step (record, publish, freeze, flush, generating a task, writing one output table, applying the result) keeps the whole invariant: each stored version in exactly one source, ids, filters, and every level in order apart from tables without entries, which lie in the last level only or, with tiers, anywhere |
| MachineSafety.ReachableInv | src/lsm_storage.rs:53-72 | The invariant holds in every state of every run from the initial state, for each compaction strategy |
| MachineSafety.FinishKeepsInv | src/compact.rs:353-375 | Applying a compaction to a state that has moved on since its task was generated keeps the invariant: exactly the inputs leave, the outputs come, empty ones included, and every level stays in order |
| MachineSafety.JobLists | src/compact.rs:86-105 | For all strategies alike: applying a finished compaction replaces exactly its input ids by the output ids and keeps the tables with entries of every level sorted without overlaps |
| MachineSafety.JobOutputs | src/compact.rs:131-174 | The outputs of a running compaction, in order, are the surviving merged input, form a level in order apart from empty ones, have ids that nothing else uses, and none is empty unless the compaction reaches the bottom |
| MachineSafety.LaterInput | src/compact.rs:176-181 | Reading the inputs of a running task from any later state gives the same merged input as reading them from the state it was generated from |
| MachineExample.DeletedValueReturns | src/compact.rs:140-150 | A run from the initial state, with tables and cutting rule as the table builder makes them: a put, a deletion, a flush and the generated bottom compaction; its last step changes the read of the deleted key from absent to the old value |
| MachineExample.BuiltIsSound | src/table/builder.rs:76-132 | The tables of these runs are ones that the builder makes: sound, with the filter over their keys, and backed by their files |
| MachineExample.EmptyTableWritten | src/compact.rs:136-173 | A run from the initial state to the generated compaction of a flushed deletion, which writes a table without entries |
| MachineExample.ScansMeetEmptyTable | src/table.rs:211-214 | That run goes on to a state in which a scan without bounds panics |
| MachineExample.CompactionMeetsEmptyTable | src/iterators/concat_iterator.rs:46-64 | After one more write and flush the controller generates a task that panics on that table |
| MachineProgress.TaskOpensIff | src/iterators/concat_iterator.rs:35-64 | In every reachable state a generated task names existing tables only, and opening its inputs panics (in `check_sst_valid` or on the first block) if and only if one of them has no entries, which never happens to a leveled task |
| MachineProgress.FinishEnabled | src/compact/leveled.rs:180-221 | In every reachable state a compaction that has written its outputs can be applied: none of the assertions in the three `apply_compaction_result` can fail, whatever was flushed in between |
| MachineProgress.WriteEnabled | src/compact.rs:131-174 | A compaction that has not written all its outputs can write the next one with the next id, and then has one less to write |
| MachineProgress.TierNamesDistinct | src/compact/tiered.rs:126-147 | Tier ids are distinct in every reachable state, so the map of tiers to remove loses none |
| EmptyTables.OpensIff | src/iterators/concat_iterator.rs:35-64 | A level, in order apart from empty tables, can be opened at its first table if and only if it has no empty table |
| EmptyTables.OpensAtKeyIff | src/iterators/concat_iterator.rs:66-88 | A level without empty tables can be opened at any key, and at the least key only then |
| EmptyTables.RangeMeetsEmptyIff | src/lsm_storage.rs:122-147 | A range passes `range_overlap` for a table without entries if and only if its lower bound is missing or the included empty key, and its upper bound is not the excluded empty key |
| EmptyTables.SortedIsSparse | src/compact.rs:131-174 | Tables whose entries in turn are sorted form a level in order apart from the empty ones |
| Engine.LsmStorageInner.constructor | src/lsm_storage.rs:53-72 | A new engine has one empty memtable with id 0, no tables, as many empty numbered levels as its strategy asks for, next id 1, is the initial state of its strategy and satisfies the invariant |
| Engine.LsmStorageInner.GetWithTs | src/lsm_storage.rs:456-530 | A get, also past tables without entries, returns what the stored map says: the newest version at or below the timestamp, nothing for a tombstone or an absent key |
| Engine.LsmStorageInner.Get | src/lsm_storage.rs:450-454 | A get without timestamp reads at the latest published one |
| Engine.LsmStorageInner.ScanWithTs | src/lsm_storage.rs:677-765 | Draining the returned iterator gives exactly the keys within the bounds whose newest version at or below the timestamp is not empty, ascending, once each, with that value; the scan panics exactly if some table of a level has no entries and the bounds let such a table pass |
| Engine.LsmStorageInner.Scan | src/lsm_storage.rs:667-675 | A scan without timestamp reads at the latest published one, under the same conditions |
| Engine.LsmStorageInner.SeekTableToFirst | src/table/iterator.rs:38-54 | The file layer under the engine: iterating over the blocks of any live table's file yields exactly the entries that reads and compactions take it to hold |
| Engine.LsmStorageInner.SeekTableToKey | src/table/iterator.rs:63-88 | Seeking through block index and blocks of a live table's file lands on the lower bound of these entries |
| Engine.LsmStorageInner.ReopenedTable | src/table.rs:144-188 | Opening a live table's file below 4 GiB again gives its filter, its first and last key, and blocks with the same entries |
| Engine.LsmStorageInner.WriteBatch | src/lsm_storage.rs:533-551 | Exact new state; the memtable is frozen if and only if its size before, plus 8 and the lengths of key and value of every record, reaches the target size; the batch, of non-empty keys and of keys and values within 16-bit lengths, is visible as a whole at the next timestamp and earlier timestamps read as before |
| Engine.PutAllBytes | src/mem_table.rs:141-142 | Putting a batch adds to the size of a memtable exactly 8 and the lengths of key and value for every record |
| Engine.LsmStorageInner.Put | src/lsm_storage.rs:562-565 | A put within 16-bit lengths is what later reads of the key return (nothing if the value is empty); other keys read as before |
| Engine.LsmStorageInner.Delete | src/lsm_storage.rs:567-570 | After a deletion the key reads as absent; other keys read as before |
| Engine.LsmStorageInner.StampBatch | src/lsm_storage.rs:538-545 | Every record of a batch gets the batch timestamp; deleting is an empty value |
| Engine.LsmStorageInner.TryFreeze | src/lsm_storage.rs:553-560 | Freezes exactly when the approximate size has reached the target |
| Engine.LsmStorageInner.ForceFreezeMemtable | src/lsm_storage.rs:594-619 | The memtable becomes the first in the list of immutable ones and an empty one with the next id takes its place |
| Engine.LsmStorageInner.ForceFlushNextImmMemtable | src/lsm_storage.rs:622-661 | The oldest immutable memtable, if any, becomes a table with its id and its entries, at the front of L0 or as a tier of its own, backed by blocks that hold them; what is stored does not change |
| Engine.LsmStorageInner.Compact | src/compact.rs:176-298 | For every kind of task the new tables hold, in order, the priority merge of the inputs, without empty values when compacting to the bottom; every table but the last has at least the target size in bytes in front of its last block and none would have with fewer of its entries; ids come from the counter in order, and each table is backed by its file |
| Engine.LsmStorageInner.TriggerCompaction | src/compact.rs:343-382 | Without a task nothing changes. With one it panics, leaving the state as it was, exactly if an input table has no entries; otherwise exactly the inputs are replaced by the outputs, also by empty ones, the stored map loses nothing but the tombstones dropped at the bottom, and the invariant holds |
| Engine.LsmStorageInner.ForceFullCompaction | src/compact.rs:300-341 | The same for compacting all of L0 and L1 of any engine that has a single level below L0; then L0 is empty and L1 is the new tables, in the order of their ids |
| Batches.CommitKeeps | src/lsm_storage.rs:533-551 | A whole batch, with or without a freeze before publication, keeps the invariant and becomes visible atomically |
| Batches.PutPendingKeeps | src/mem_table.rs:150-155 | Putting the records of a batch one by one keeps the invariant and no published read changes |
| SnapshotReads.GetWithTs | src/lsm_storage.rs:456-530 | On one snapshot, with empty tables in the levels too: opening, pruning, seeking, merging and skipping newer versions together answer the read |
| SnapshotReads.ScanWithTs | src/lsm_storage.rs:677-765 | On one snapshot: the iterator returned for any pair of bounds yields exactly the answer of the scan; there is none, because the engine panics, exactly if the scan meets a table without entries |
| SnapshotReads.OpenAll | src/lsm_storage.rs:688-762 | The merged iterator holds every stored version that the read asks for and nothing below the lower bound; opening panics exactly if the read wants empty tables and a level has one |
| SnapshotReads.OpenMemtables | src/lsm_storage.rs:688-693 | The memtable iterators, which stop at an empty key, offer everything asked for from all memtables, as no stored key is empty |
| SnapshotReads.OpenL0 | src/lsm_storage.rs:493-502 | The L0 tables that are opened offer everything asked for from all L0 tables |
| SnapshotReads.KeepTables | src/lsm_storage.rs:505-513 | The tables of a level that are kept are still in order, the others hold nothing asked for, and an empty one is among the kept ones exactly if there is one and the read wants empty tables |
| SnapshotReads.OpenLevels | src/lsm_storage.rs:726-759 | The level iterators offer everything asked for from all levels; opening them panics exactly if the read wants empty tables and there is one |
| SnapshotReads.OpenTable | src/lsm_storage.rs:704-720 | A table opened at a lower bound offers exactly its versions from that bound on, none of an excluded key |
| SnapshotReads.OpenLevel | src/lsm_storage.rs:741-757 | A level opened at a lower bound offers exactly its versions from that bound on, none of an excluded key |
| SnapshotReads.Keep | src/lsm_storage.rs:477-491 | A table is kept exactly if the key lies between its first and last key and its filter may contain it, or for a range if its last key is not before and its first key not behind the bounds; one passed over holds nothing asked for; an empty table passes exactly the ranges that reach down to the empty key and no single key |
| SnapshotReads.HeadAnswers | src/lsm_storage.rs:521-529 | After the too new versions of the key, the head of the merged run is the visible version or another key |
| SnapshotReads.GetIsScanOfOneKey | src/lsm_storage.rs:456-530 | Getting a key gives what scanning just that key gives |
| SnapshotReads.ScanIsUnique | src/lsm_storage.rs:677-765 | A scan has one answer only |
| ReadPath.ScanAnswers | src/lsm_iterator.rs:28-114 | A merged run that holds every version of every selected key, filtered by timestamp, tombstones and end bound, is the answer to the scan |
| ReadPath.PrunedHasNothing | src/lsm_storage.rs:122-147 | A table with a key within the bounds is never skipped by `range_overlap` |
| ReadPath.RangeOverlapIff | src/lsm_storage.rs:122-147 | A table passes if and only if its last key is above the lower bound and its first key below the upper bound |
| ReadPath.UserWithinTable | src/lsm_storage.rs:149-151 | A table with an entry of the key is never skipped by `key_within` |
| ReadPath.SeekServes | src/lsm_storage.rs:705-708 | Seeking to the newest possible version of a key keeps exactly the keys from it on |
| ReadPath.SeekAfterServes | src/lsm_storage.rs:709-718 | Seeking and stepping over a key keeps exactly the keys after it |
| ReadPath.MergeAllParts | src/iterators/merge_iterator.rs:43-59 | Sources that agree with one store merge to their union |
| Serving.EverySource | src/lsm_storage.rs:34-46 | Every stored version is in a memtable, an L0 table or a level |
| Serving.KeptServes | src/lsm_storage.rs:727-739 | Dropping tables without anything asked for from a level loses nothing |
| Mvcc.VisibleScanReads | src/lsm_iterator.rs:49-114 | Filtering the merged versions by timestamp and tombstones yields ascending keys, once each, with the value that a read returns, and no others |
| Mvcc.Newest | src/key.rs:186-190 | The newest version at or below a timestamp, or that there is none |
| Mvcc.ReadAgrees | src/lsm_storage.rs:521-529 | A read depends only on the versions of its own key that are not too new |
| LsmIter.LsmIterator.constructor | src/lsm_iterator.rs:28-43 | The new iterator stands at the first visible key of the merged versions |
| LsmIter.LsmIterator.SkipTombstone | src/lsm_iterator.rs:49-73 | Skipping too new versions and deleted keys leaves what the scan yields unchanged and stops at a visible version |
| LsmIter.LsmIterator.IsValid | src/lsm_iterator.rs:87-89 | Valid exactly when something is left to yield within the end bound |
| LsmIter.LsmIterator.Next | src/lsm_iterator.rs:99-114 | Moving on drops exactly the current key, with all its versions |
| LsmIter.TakeInRangeMembers | src/lsm_iterator.rs:75-89 | Stopping at the end bound keeps exactly the keys within it |
| Keys.KeyOrderIsTotal | src/key.rs:180-190 | Bytes ascending, then timestamp descending, is a strict total order |
| Bytes.LessTrichotomy | src/key.rs:186-190 | Of two different byte strings exactly one is below the other, none is below itself |
| Bytes.LessIff | src/key.rs:186-190 | The order is lexicographic: one string is below another if and only if they agree up to a position where the first ends and the second does not, or where the first has the smaller byte |
| Bytes.PutIsBigEndian | src/table/builder.rs:101-118 | Read in base 256 from the most significant byte on, the 2, 4 or 8 bytes written for a number are that number |
| Bytes.GetIsBigEndian | src/table.rs:144-170 | Reading a number takes its leading bytes in the same way |
| Runs.MergeIsUnion | src/iterators/two_merge_iterator.rs:54-94 | The two-way merge is the strictly ascending union of both inputs, the first preferred on equal keys |
| Runs.MergeAllIsUnion | src/iterators/merge_iterator.rs:26-34 | The k-way merge is the strictly ascending union of all inputs, each key with the value of the lowest-index input that holds it |
| Runs.MergeAllConcat | src/lsm_storage.rs:693-762 | However memtable, L0 and level iterators are nested, as long as their order is kept, they yield one priority merge of all of them |
| Runs.SortedUnique | src/iterators/merge_iterator.rs:87-118 | A strictly ascending run is determined by its entries |
| TwoMerge.TwoMergeIterator.IsValid | src/iterators/two_merge_iterator.rs:78-80 | Valid exactly when the merge has something left |
| TwoMerge.TwoMergeIterator.Key | src/iterators/two_merge_iterator.rs:54-64 | The current key is the head of the merge |
| TwoMerge.TwoMergeIterator.Value | src/iterators/two_merge_iterator.rs:66-76 | The current value is that of the head of the merge |
| TwoMerge.TwoMergeIterator.Next | src/iterators/two_merge_iterator.rs:82-94 | Moving on drops exactly the head of the merge |
| KWayMerge.PopHeap | src/iterators/merge_iterator.rs:26-34 | Popping gives the smallest key, among equal keys the smallest index, or nothing when all are exhausted |
| KWayMerge.MergeIterator.constructor | src/iterators/merge_iterator.rs:43-59 | Over any number of sorted inputs the iterator is about to yield their merge |
| KWayMerge.MergeIterator.Key | src/iterators/merge_iterator.rs:67-73 | The current key is the head of the merge |
| KWayMerge.MergeIterator.Value | src/iterators/merge_iterator.rs:75-81 | The current value is that of the head of the merge |
| KWayMerge.MergeIterator.Next | src/iterators/merge_iterator.rs:87-118 | Moving on advances every input at the old key, terminates, and drops exactly the head of the merge |
| Concat.SstConcatIterator.SeekToFirst | src/iterators/concat_iterator.rs:46-64 | The iterator is about to yield all tables of the level, one after the other |
| Concat.SstConcatIterator.SeekToKey | src/iterators/concat_iterator.rs:66-88 | Partition point, seek and fall-through land on the lower bound of the flattened level |
| Concat.SstConcatIterator.MoveUntilValid | src/iterators/concat_iterator.rs:90-109 | Passing exhausted tables changes nothing about what is left to yield |
| Concat.SstConcatIterator.Next | src/iterators/concat_iterator.rs:128-136 | Moving on drops exactly the head |
| Runs.LowerBoundFlatten | src/iterators/concat_iterator.rs:66-88 | Searching the run found by partition point and then the following ones is a linear search of the whole |
| Runs.PartitionPoint | src/table.rs:249-253 | How many leading first keys are not above the key |
| MemTables.MapBoundsExact | src/mem_table.rs:45-71 | The widened bounds select a version exactly when its user key is within the original bounds |
| MemTables.ScanMembers | src/mem_table.rs:164-178 | A memtable scan yields, in order, every version of every key within the bounds and no others |
| MemTables.MemTable.Put | src/mem_table.rs:133-148 | Afterwards there are the new entry and all old ones with another key or timestamp, and the size counter has grown by the lengths of key and value and 8 |
| MemTables.MemTable.PutBatch | src/mem_table.rs:150-155 | The records go in one after the other |
| Steps.PutKeepsInv | src/mem_table.rs:133-148 | A write changes the stored map at its key only and keeps the invariant |
| Steps.FreezeKeepsInv | src/lsm_storage.rs:594-619 | Freezing a non-empty memtable changes no content and keeps the invariant |
| Steps.FlushKeepsInv | src/lsm_storage.rs:622-661 | Flushing moves versions from memory to a table and keeps the invariant, for both places a table may go |
| Compaction.CompactInputExact | src/compact.rs:181-297 | For every kind of task the merged input is exactly the union of the input tables, in order |
| Compaction.OutputsFlatten | src/compact.rs:131-174 | Whatever the cutting rule, the output tables in order are the surviving merged input |
| Compaction.OutputsAreCut | src/compact.rs:136-173 | Whatever counts as full, every output but the last is full, and none would have been full with fewer of its entries |
| Compaction.SurvivorsMembers | src/compact.rs:144-150 | Compacting to the bottom leaves out exactly the empty values; otherwise nothing is left out |
| Compaction.EmptyOutputIff | src/compact.rs:136-173 | A table without entries is written if and only if, compacting to the bottom, everything from some cut (or the start) on is tombstones |
| Compaction.UpperOutputsFilled | src/compact.rs:136-173 | A compaction that does not reach the bottom writes no table without entries |
| Contents.BottomReadChangesIff | src/compact.rs:144-147 | A bottom compaction changes a read if and only if its visible version is a dropped tombstone with a value below it, past dropped tombstones only |
| Contents.BottomPreservesReadsIff | src/compact.rs:144-147 | No read changes at all if and only if no dropped tombstone covers an older value |
| Contents.UpperKeepsContents | src/compact.rs:353-375 | A compaction that does not reach the bottom leaves memtables and tables together holding exactly the same map, each version in exactly one source |
| Contents.ContentsAfter | src/compact.rs:353-375 | Replacing the inputs by the outputs leaves every version in exactly one source and drops exactly the dropped tombstones from the stored map |
| Install.InstallKeepsInv | src/compact.rs:356-375 | If exactly the inputs leave, the outputs come and the levels are in order apart from empty tables, the invariant holds for the compacted contents |
| Jobs.TaskIsReadable | src/compact.rs:71-84 | A generated task can be read if and only if none of its input tables is empty, and a leveled one always |
| Jobs.ReachesBottomIff | src/compact.rs:51-60 | A generated task leaves out tombstones if and only if it is for the last level, or tiered and not triggered by a ratio, or forced |
| Jobs.LeveledInputs | src/compact/leveled.rs:34-62 | No input of a leveled task is empty: an empty table of the bottom level overlaps no key range and is never picked |
| Jobs.LeveledTaskPersists | src/compact/leveled.rs:160-206 | A leveled task stays applicable while tables are flushed |
| Jobs.ForceFullLists | src/compact.rs:319-333 | A forced full compaction replaces exactly L0 and L1 of its snapshot, leaving tables flushed since |
| Compactor.OpenInput | src/compact.rs:181-297 | The iterator stack built for a task yields its merged input |
| Compactor.GenerateSstFromIter | src/compact.rs:131-174 | Draining that iterator into builders writes the surviving input, with consecutive ids, each table backed by its file; every table but the last has at least the target size in bytes in front of its last block, and none would have with fewer of its entries |
| Compactor.CutByFull | src/compact.rs:153 | The cutting rule on the written files: the offset of the last block against the target size |
| Compactor.FinishTable | src/table/builder.rs:76-132 | A built table holds what was added, its filter answers yes for every key in it and no to everything if there is none, its blocks are exactly these entries, and its file, if below 4 GiB, opens to the same table |
| CompactionRuns.ApplyCompactionResult | src/compact.rs:86-105 | The controller's result is the specified one for the configured strategy, and the removed ids are the inputs |
| CompactionRuns.Generate | src/compact.rs:71-84 | The controller's task is the one specified for the configured strategy, there is no other, and it can start |
| CompactionRuns.TaskDone | src/compact.rs:343-382 | Generating, compacting, applying and installing is one started and finished job of the engine's transition system, and keeps its invariant, with empty outputs too |
| LeveledCompaction.ComputeTargets | src/compact/leveled.rs:79-96 | Target sizes and base level are those of the recursive definition from the bottom up |
| LeveledCompaction.TargetsShape | src/compact/leveled.rs:83-96 | With a non-zero bottom target the positive targets are exactly those from the base level down, each the floor quotient of the one below |
| LeveledCompaction.FirstPriority | src/compact/leveled.rs:113-125 | The first priority is the level with the greatest ratio above one, the deepest of equals |
| LeveledCompaction.PickIsGreatest | src/compact/leveled.rs:113-125 | No level above its target has a greater ratio than the picked one, no deeper one an equal ratio, and if any is above its target one is picked |
| LeveledCompaction.BottomNeverPicked | src/compact/leveled.rs:83-84 | The bottom level is never picked as upper level |
| LeveledCompaction.FindOverlappingSsts | src/compact/leveled.rs:34-62 | The result is the tables of the level that overlap the hull of the given tables, in order |
| LeveledCompaction.OverlappingMember | src/compact/leveled.rs:53-60 | A table is selected if and only if it is in the level and overlaps |
| LeveledCompaction.GenerateCompactionTask | src/compact/leveled.rs:64-158 | The task is the specified one |
| LeveledCompaction.GenerateSound | src/compact/leveled.rs:98-155 | A task names existing, non-empty upper files, a lower level in range, exactly the overlapping lower files, and the right bottom flag; L0 is chosen only above its trigger |
| LeveledCompaction.GenerateChoice | src/compact/leveled.rs:98-155 | The choice, from sizes and targets alone: above its trigger all of L0, into the first level with a positive target or the bottom; else the least id of the level whose size is the greatest multiple above one of its target, the deepest of equals, into the next level; with exactly the tables there that neither end before all of these begin nor begin after all of these end |
| LeveledCompaction.SelectedIff | src/compact/leveled.rs:40-61 | A table of the lower level is taken if and only if it does not end before the first of the upper tables begins nor begin after the last of them ends |
| LeveledCompaction.SizesAddUp | src/compact/leveled.rs:68-77 | The size of a level is the sum of the file sizes of its tables |
| LeveledApply.ApplyCompactionResult | src/compact/leveled.rs:160-235 | The new lists are the specified ones and the files to remove are the inputs |
| LeveledApply.RetainOthers | src/compact/leveled.rs:184-190 | Filtering while emptying the hash set leaves the other ids and an empty set |
| LeveledApply.ApplyConservesIds | src/compact/leveled.rs:180-234 | As multisets: exactly the inputs leave, exactly the outputs come |
| LeveledApply.ApplyPlaces | src/compact/leveled.rs:180-234 | The upper list keeps exactly its other tables; the lower one has its other tables and the outputs, ascending by first key; all else is as before |
| LeveledApply.UntouchedIsAside | src/compact/leveled.rs:53-60 | A lower table that was not selected lies entirely on one side of all inputs |
| LeveledApply.LowerLevelStaysOrdered | src/compact/leveled.rs:211-233 | Untouched tables and outputs, sorted by first key, each end before the next one begins |
| LeveledApply.LowerLevelStaysSparse | src/compact/leveled.rs:211-233 | The same with tables without entries among them, old or new: the others stay in order |
| LeveledApply.SortAscending | src/compact/leveled.rs:223-232 | The sort by first key is ascending |
| LeveledTermination.TaskShrinks | src/compact/leveled.rs:180-234 | Whatever a task outputs, the vector of table counts from L0 to the bottom falls lexicographically |
| LeveledTermination.NoInfiniteDescent | src/compact/leveled.rs:64-158 | No infinite sequence of vectors of one length falls lexicographically forever |
| LeveledTermination.LeveledConverges | src/compact/leveled.rs:64-235 | Without new flushes every run of compactions reaches a state without a task |
| LeveledTermination.NoTaskIff | src/compact/leveled.rs:98-157 | There is no task if and only if L0 is not above its trigger and every level with a positive target is at most of that size |
| SimpleLeveled.GenerateCompactionTask | src/compact/simple_leveled.rs:48-83 | The task is the specified one: L0 first, then the first pair of levels below the ratio |
| SimpleLeveled.GenerateSound | src/compact/simple_leveled.rs:48-83 | A task takes L0 and L1 exactly if L0 has reached its trigger; else the first level, with the next one, that has files and more of them than the ratio allows; with the right bottom flag |
| SimpleLeveled.ApplyCompactionResult | src/compact/simple_leveled.rs:102-131 | The new lists are the specified ones and the removed ids are the inputs |
| SimpleLeveled.ApplyConservesIds | src/compact/simple_leveled.rs:102-131 | As multisets: exactly the inputs leave, exactly the outputs come |
| SimpleLeveled.ApplyPlaces | src/compact/simple_leveled.rs:102-131 | L0 keeps exactly its other tables, or the upper level is emptied; the lower level is the output; all else is as before |
| SimpleLeveled.NoTaskIff | src/compact/simple_leveled.rs:53-93 | There is no task if and only if L0 is below its trigger and for every level that has files 100 times the file count of the next is at least the ratio times its own |
| SimpleLeveled.SimpleConverges | src/bin/compaction-simulator.rs:314-358 | From levels within the ratio, after any flushes at most max_levels tasks run, for any output counts, and then L0 is below its trigger and all levels are within the ratio |
| SimpleLeveled.CascadeStep | src/compact/simple_leveled.rs:66-81 | A task moves the one pair of levels that may need compaction one level down |
| SimpleLeveled.ZeroTriggerNeverRests | src/compact/simple_leveled.rs:53-63 | With trigger 0 there always is a task |
| TieredCompaction.GenerateCompactionTask | src/compact/tiered.rs:45-113 | The task is the specified one of the three triggers |
| TieredCompaction.TaskCases | src/compact/tiered.rs:53-112 | By inequalities over file counts: no task below the number of tiers; all tiers, to the bottom, if 100 times the files of all but the last is at least the given percentage of the last; else the tiers before the first one that has more files than they have by more than the ratio and leaves enough to merge, not to the bottom; else as many as the width allows, said to reach the bottom |
| TieredCompaction.TaskIsPrefix | src/compact/tiered.rs:86-110 | A task always takes the newest tiers, and at least one if the merge width is at least one |
| TieredCompaction.BottomFlagWrongIff | src/compact/tiered.rs:99-112 | The bottom flag is set although tiers stay behind if and only if, by file counts, the tiers are not too amplified, none breaks the ratio, and the merge width is below their number |
| TieredCompaction.BottomFlagExample | src/compact/tiered.rs:111 | A concrete state with the wrong flag |
| TieredCompaction.ApplyCompactionResult | src/compact/tiered.rs:115-154 | Applied to newer, taken and older tiers the pass gives newer, the compacted tier, older; the files to remove are those of the taken tiers |
| TieredCompaction.ApplyConservesIds | src/compact/tiered.rs:115-154 | As multisets: exactly the taken tiers' files leave, exactly the outputs come |
| TieredCompaction.TaskRestoresBound | src/compact/tiered.rs:53-113 | With all widths at least two, one compaction after a flush from below the bound restores the bound on tiers |
| TieredCompaction.TieredConverges | src/compact/tiered.rs:53-154 | With all widths at least two and no new flushes, tiered compaction comes to rest from any number of tiers, after at most one task for each tier from the bound on |
| Blocks.ComputeOverlap | src/block/builder.rs:19-26 | The length of the longest common prefix |
| Blocks.BlockBuilder.Add | src/block/builder.rs:45-66 | An entry is accepted exactly when the block is empty or stays within the size; accepted entries are encoded behind the others |
| Blocks.AcceptsIff | src/block/builder.rs:39-50 | An entry goes into a block that has others if and only if the encoded block, with the key of the entry in full, is at most six bytes above the block size |
| Blocks.NoTruncation | src/block/builder.rs:45-66 | For block sizes below 2^16 no offset and no count is truncated, and a block of two or more entries stays within the block size |
| Blocks.EntryRoundTripIff | src/block/builder.rs:52-59 | An entry is decoded to itself if and only if its overlap, its rest and its value each fit 16 bits |
| Blocks.EncodedEntryLayout | src/block/builder.rs:51-59 | Byte by byte: two bytes overlap, two bytes length of the rest of the key, the rest, eight bytes timestamp, two bytes value length, the value |
| Blocks.LongValueExample | src/block/builder.rs:52-59 | A concrete case: a value of 65536 bytes is read back as empty, so its key as deleted |
| Blocks.Decode | src/block.rs:46-78 | Decoding gives the block that was encoded |
| Blocks.EncodedBlockLayout | src/block.rs:29-44 | Byte by byte: data, four bytes checksum of the data, two bytes for each offset in turn, two bytes number of offsets |
| Blocks.DecodeEncodeBlock | src/block.rs:29-78 | An encoded block can be decoded, and decodes to itself |
| BlockIter.BlockIterator.SeekToOffset | src/block/iterator.rs:78-95 | Prefix decoding at an entry's offset gives its key and its value range |
| BlockIter.BlockIterator.SeekTo | src/block/iterator.rs:67-76 | Seeking to an index positions on that entry, or invalidates behind the last |
| BlockIter.BlockIterator.SeekToKey | src/block/iterator.rs:97-119 | The binary search ends at the lower bound of the block |
| BlockIter.BlockIterator.Next | src/block/iterator.rs:62-65 | Moving on drops exactly the head |
| BlockIter.BlockRoundTrip | src/block/iterator.rs:67-95 | Adding, building, encoding and decoding give a block that iterates to the added entries; a block with two or more entries takes at most block size + 6 bytes |
| Tables.EncodeBlockMeta | src/table.rs:34-53 | Appends the encoding of the metas, with checksum |
| Tables.DecodeBlockMeta | src/table.rs:55-82 | The decoding loop computes the specified decoding, errors included |
| Tables.MetasRoundTrip | src/table.rs:34-82 | Metas within the integer widths are decoded to themselves |
| Tables.EncodedMeta | src/table.rs:40-48 | Byte by byte: four bytes offset, then for both keys two bytes length, the key, eight bytes timestamp |
| Tables.EncodedMetas | src/table.rs:34-53 | Four bytes number of metas, the metas in turn, four bytes checksum of all that |
| Tables.MetasChecked | src/table.rs:55-60 | Metas that do not end with the checksum of all before it are an error |
| Tables.ReadBlock | src/table.rs:211-228 | Where the slice of a block exists: if its last four bytes are not the checksum of those before, that is the error; else the block is the decoding of these |
| Tables.StoredBlockReads | src/table.rs:211-228 | Block i of a stored table is read as block i |
| Tables.BlockInData | src/table/builder.rs:56-68 | The encoding of every block is behind those of the blocks before it and followed by four bytes checksum |
| Tables.FileFormat | src/table/builder.rs:76-118 | Where everything is in a file: blocks, metas, four bytes offset of the metas, four bytes length of the filter, the filter, four bytes offset of that length |
| Tables.FindBlockIdxPlace | src/table.rs:249-253 | The block index over the metas is the partition point over the blocks |
| Tables.OpenFileBytes | src/table.rs:144-188 | Opening the built bytes gives back metas, meta offset, first and last key and Bloom filter |
| TableBuilder.CutKeepsEntries | src/table/builder.rs:37-70 | The blocks, one after the other, are exactly the added entries, and each is one that its builder accepted |
| TableBuilder.CutOnlyWhenRefused | src/table/builder.rs:37-70 | A block ends only where it refuses the next entry |
| TableBuilder.EstimateIsOffset | src/table/builder.rs:72-74 | The size estimate is the offset at which the last block of the table begins |
| TableBuilder.SsTableBuilder.Add | src/table/builder.rs:37-70 | Adding closes a full block, keeps metas, hashes, first, last key and newest timestamp, and loses no entry |
| TableBuilder.SsTableBuilder.Build | src/table/builder.rs:76-132 | The file has the fixed layout over all blocks, their metas and the filter over all key hashes |
| TableBuilder.SstRoundTrip | src/table.rs:144-228 | For sorted, non-empty input with 16-bit lengths the blocks of the built table hold exactly the input, however large the file; opening a file below 4 GiB gives the same metas, keys and filter |
| TableBuilder.ReopenedMaxTs | src/table.rs:171-175 | The reopened max_ts never exceeds the builder's and equals it if and only if some block begins or ends with a newest entry |
| TableBuilder.MaxTsIsReached | src/table/builder.rs:37-42 | The newest timestamp is that of some entry, 0 if there is none |
| TableBuilder.ReopenedMaxTsExample | src/table.rs:171-175 | A concrete case: the newest entry in the middle of a block, lost to the reopened max_ts |
| TableIter.SsTableIterator.SeekToFirst | src/table/iterator.rs:38-54 | The iterator is about to yield the whole table |
| TableIter.SsTableIterator.SeekToKey | src/table/iterator.rs:63-88 | Block index, binary search and fall-through land on the lower bound of the whole table |
| TableIter.SsTableIterator.Next | src/table/iterator.rs:151-162 | Moving on drops exactly the head, across block ends |
| BloomFilter.SetBit | src/table/bloom.rs:34-43 | Sets the given bit and no other |
| BloomFilter.BuildFromKeyHashes | src/table/bloom.rs:78-104 | The set bits are exactly those that the wrapping 32-bit probes of some key fall on |
| BloomFilter.RotatesBits | src/table/bloom.rs:88 | The step between probes is the hash with every bit moved up by 15, those at the top coming back at the bottom |
| BloomFilter.ProbeAt | src/table/bloom.rs:88-97 | Probe i is the hash plus i times the step, modulo 2^32 |
| BloomFilter.FilterBits | src/table/bloom.rs:86-98 | A bit, counted from the lowest of the first byte, is set if and only if one of the first k probes of some hash, modulo the number of bits, is on it |
| BloomFilter.BitsOfSum | src/table/bloom.rs:22-43 | What bits are: those of a number are those of its low part and, above them, those of its high part |
| BloomFilter.MayContain | src/table/bloom.rs:107-127 | Yes exactly when every probe falls on a set bit, or k is above 30 |
| BloomFilter.AnswerBits | src/table/bloom.rs:107-127 | The answer is yes if and only if k is above 30 or the bits of all k probes are set |
| BloomFilter.NoFalseNegatives | src/table/bloom.rs:78-127 | Every inserted hash is answered with yes |
| BloomFilter.DecodeEncode | src/table/bloom.rs:48-68 | A filter is decoded to itself |
| BloomFilter.EncodedFilter | src/table/bloom.rs:62-68 | Byte by byte: the filter, one byte number of probes, four bytes checksum of both |
| BloomFilter.FilterChecked | src/table/bloom.rs:48-60 | A buffer is decoded if and only if it ends with the checksum of all before it |
| Txn.Transaction.Put | src/mvcc/txn.rs:55-64 | A local write is what the transaction finds for its key, others stay |
| Txn.Transaction.Delete | src/mvcc/txn.rs:66-74 | A local deletion is an empty local write |
| Txn.Transaction.Get | src/mvcc/txn.rs:29-44 | Own writes first, then the snapshot at the transaction's timestamp |
| Txn.Transaction.Scan | src/mvcc/txn.rs:46-53 | Draining gives the snapshot with the shown local writes laid over it and local deletions removed, within the bounds, ascending, once each; all local writes are shown unless the empty key is written within the bounds, then none |
| Txn.MergedIsOverlay | src/mvcc/txn.rs:46-53 | Merging what the local iterator yields before the snapshot scan and leaving out empty values is that overlay |
| Txn.ScanShowsAllIff | src/mvcc/txn.rs:135-137 | A scan shows the snapshot under all local writes if and only if no local write of the empty key lies within its bounds, or every local write within them repeats what the snapshot says |
| Txn.EmptyKeyExample | src/mvcc/txn.rs:135-137 | A concrete case: after putting the empty key and another one, an unbounded scan shows neither, and a get of the other key does |
| Txn.GetAgreesWithScan | src/mvcc/txn.rs:29-53 | A transaction's get agrees with its scan of that one key, for every key but the empty one, of which a scan shows nothing |
| Txn.TxnIterator.constructor | src/mvcc/txn.rs:155-163 | The new iterator is about to yield the merged entries that are not deletions |
| Txn.TxnIterator.Next | src/mvcc/txn.rs:209-214 | Moving on drops exactly the head |

## Left out

- Manifest, recovery and `in_recovery`: creating and reading the manifest is not implemented in the source, and compactions never write a record.
- Write-ahead log and `MemTable::recover_from_wal`: its framing has the shape of the block meta codec, only simpler.
- `Transaction::commit`, the read set and write set of a transaction, watermarks, version garbage collection and compaction filters: not implemented in the source.
- Threads, locks, tickers and the notification channels: the steps of the transition system are atomic. Applying a compaction, which the source does without the state lock, is one such step; other steps may come between generating a task and applying its result.
- Engine.LsmStorageInner.ForceFreezeMemtable: promises the invariant only for a memtable with entries; `try_freeze` and `MiniLsm::force_flush` freeze no other.
- Freezing in the middle of a batch: the source freezes after the records of a batch, under its write lock; only `MiniLsm::force_flush`, which its own comment restricts to test cases, could do otherwise.
- Writes that reach a memtable while an iterator over it is open: an iterator sees the memtable as it was when opened; a later version has a timestamp above the reader's.
- Arc sharing of memtables and tables: the engine's lists hold table values; the memtables are objects, one of them mutable at a time.
- Engine.LsmStorageInner.ForceFullCompaction: only with a single level below L0, because the source marks it as reaching the bottom but merges only L0 and L1, and replaces the first tier of a tiered engine as if it were L1.
- I/O errors, `FusedIterator`'s error latching and `num_active_iterators`.
- The block cache: taken as transparent.
- Engine.LsmStorageInner.WriteBatch: requires non-empty user keys, because iterators use an empty key as the mark of being invalid; keys and values of at most 65535 bytes, because a flush truncates longer ones; and a next 64-bit timestamp, because the source adds one without a check.
- Engine.LsmStorageInner.Put: requires a non-empty key of at most 65535 bytes and a value of at most 65535 bytes, for the same reasons.
- Engine.LsmStorageInner.Delete: requires a non-empty key of at most 65535 bytes, for the same reasons.
- Engine.LsmStorageInner.constructor: requires a block size of at most 65535, because block offsets are 16-bit, and a target size of at least one.
- Engine.LsmStorageInner.ReopenedTable: requires a file below 4 GiB, where the 32-bit offsets on disk end; live tables keep their offsets in memory and need no such limit.
- MachineSafety.JobOutputs: that the Bloom filter of an output knows the keys of the table is part of the transition system's step; `Compactor.GenerateSstFromIter` proves it of the builder.
- Floating point: false-positive rates of the Bloom filter, and rounding in the size ratios and in the number of hash functions.
- `SsTableIterator::range_overlap`, `MemTable::get`, `Bloom::key_hash`, printing, `debug.rs`, the command line and the simulator's display.
- KWayMerge.PopHeap: the internal array order of the binary heap is not modelled, only what popping yields.
