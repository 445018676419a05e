# A verified model of lsm-rs

lsm-rs is an LSM-tree key-value store. Writes go to a write-ahead log and a memtable; a full memtable becomes immutable
and is flushed to a table on level 0; compactions merge tables of one level with the overlapping tables of the next.
This project models the default build (values stored in the tables) in Dafny and proves what the store relies on. Check
it with `dafny verify dfyconfig.toml`.

The model has four connected parts.

1. **The store as a step machine.** `Levels` has the levels and the compactions that run on them. A step is one atomic
   action of the code: a compare-and-swap on a table's compaction flag, looking at one child table, creating a
   placeholder, taking a level's write lock, an install under the locks of two levels, a flush, a reload from the
   manifest. Any number of compactions interleave. `LevelSafety` and `LevelSteps` prove the invariant every step keeps;
   `LevelMotion` says how versions move, `LevelOrder` how tables are ordered on a level, `LevelProgress` that
   compactions neither deadlock nor run forever, and `LevelContention` that they give up exactly on contention. `Store`
   adds the memtables, flush, point reads that visit one layer per step, and crashes after which the log's bytes are
   replayed. `StoreSafety`, `StoreTheorems`, `StoreRecovery` and `StoreIterate` prove that it refines a plain map, that
   reads are atomic, that iteration yields what the map holds, and exactly when reopening works, in which case it loses
   nothing. `StoreProgress` proves that writes and reads never wait in vain. `LevelCode` has the level's code itself:
   the closure loop on level 0, the single-pass overlap scan, placeholders and the two ways to install a result.
   `Manifest` has the lists of table ids, kept in files that are changed in place.
2. **The table format.** `Codec`, `Blocks`, `BlockReads`, `IndexBlocks`, `TableBuilders`, `Tables` and `TableRoundTrip`:
   prefix-compressed blocks with restart points, the index block, the two builders, the nested searches, and the
   iterators.
3. **The merges.** `Merge` is the compaction loop, `Iterate` the database iterator, `Memtable` the sorted vector below
   both.
4. **The write-ahead log.** `WalPages` (page files, writer, reader), `WalRecovery` (records, recovery of whole and of
   cut-off logs), `WalRoundTrip` (writer and reader together) and `WalProtocol` (callers and the background writer as a
   step machine, over all interleavings).

## Where the code and its documentation disagree

The model follows the code. Each of these has an exact condition and an input.

- A deletion in the memtable is handed out by the database iterator (src/memtable.rs:155-160), though the iterator
  interface says it is not (src/sorted_table/iterator.rs:21): `Iterate.OnlyLiveKeys`, `Iterate.DeletedKeyShown`.
- `sync_pos <= write_pos` (src/wal/mod.rs:80) does not always hold, because the writer raises `sync_pos` before it
  publishes `write_pos`: `WalProtocol.RunSafe`, `WalProtocol.SyncAssertionCanFail`.
- Reopening does not return if the log ends on a page boundary, as the log of a new store does, and it panics on an
  empty key or value: `WalRecovery.RecoveryIsExact`, `StoreRecovery.RecoveryCondition`, `StoreRecovery.EmptyStoreLoops`,
  `StoreRecovery.EmptyLogLoops`, `StoreRecovery.EmptyKeyPanics`. A crash step of the store machine is possible exactly
  when the replay comes to an end.
- A record that was only partly written is not skipped: `WalRecovery.TornTail`, `WalRecovery.TornValue`.
- In the build with `std::fs`, a log file that is reopened is not positioned at its end: `WalPages.UnseekedWrite`.
- Levels are not kept sorted by key, neither by a fast compaction (src/logic.rs:976-982) nor by reopening, which loads
  tables in the order of their ids (src/level.rs:83-91): `LevelOrder.InstallSorted` and `LevelOrder.ReloadSorted` say
  when they are, `LevelOrder.FastMoveUnsorts` and `LevelOrder.ReloadUnsorts` are runs after which they are not.
  Disjointness is what lookups need, and what is proved.
- Recovery may renumber the operations it replays, but only if the crash fell between adding a flushed table and
  dropping its part of the log: `StoreTheorems.RecoveryKeepsMap`, `StoreRecovery.RenumberingRun`.

## Assumptions

- A flush's table and its manifest entry are added in one step, and so are truncating the log and storing the new offset
  (the code does each pair in sequence). A crash happens between steps and keeps all log records written so far.
- Disk, memory maps and compression are maps from ids to bytes. A filter may answer "maybe" wrongly but never "no"
  wrongly.
- Log files are written at the position the writer keeps, as the io_uring builds do.
- Callers of the log's `set_offset` pass an offset that has been written. The code does not check this;
  `StoreRecovery.TruncateWithinLog` proves it of the store.
- Keys and values are shorter than 2^64 bytes. Other sizes must fit the fields that store them; where that matters it is
  a precondition.
- A lock is free for whoever asks while nobody holds it. The order in which waiting tasks get it is not modelled.

## Model

| member | source | states |
|---|---|---|
| `Keys.LessTransitive` | src/sorted_table/mod.rs:119-124 | the byte order on keys, on which all range tests rest, is transitive |
| `Keys.LessTotal` | src/sorted_table/mod.rs:119-124 | any two different keys are ordered one way or the other |
| `Keys.LessAsymmetric` | src/sorted_table/mod.rs:119-124 | and never both ways |
| `Keys.LessIsLexicographic` | src/sorted_table/mod.rs:119-124 | a key is less than another if and only if they agree up to some place where it ends or has the smaller byte |
| `Keys.MeetsIfShared` | src/sorted_table/mod.rs:119-124 | two ranges meet if and only if some key lies in both |
| `Versions.LastDecides` | src/memtable.rs:290-326 | what a plain map holds for a key is decided by the last operation on it |
| `Versions.NeverWritten` | src/memtable.rs:259-268 | and it holds nothing for a key that no operation names |
| `Keys.HullIsUnion` | src/level.rs:297-335 | a range apart from two meeting ranges is apart from their hull |
| `LevelSteps.StepInv` | src/logic.rs:691-1008 | every step of flush, selection, overlap scan, reservation, abort, locking, install and reload keeps the level invariant and the locks exclusive, with any number of compactions in flight |
| `LevelSafety.InstallInv` | src/logic.rs:876-918 | installing a merged or moved table keeps it: unique ids, disjoint levels, recency, ownership of flags and placeholders, and the manifest |
| `LevelSafety.InstallDisjoint` | src/logic.rs:879-904 | after an install the child level's tables are pairwise disjoint, because everything that meets the placeholder is the compaction's own |
| `LevelSafety.InstallRecent` | src/logic.rs:876-918 | after an install, versions found earlier in a search are still newer |
| `LevelSafety.InstallListed` | src/manifest.rs:454-491 | at every install the manifest lists every table it must remove and not the one it must add, so it does not panic |
| `LevelSafety.FastTable` | src/logic.rs:952-1008 | on the fast path the table installed is the table that was selected |
| `LevelSafety.FreshInv` | src/logic.rs:81-178 | an empty database meets the level invariant |
| `LevelSteps.StartInv` | src/level.rs:172-224 | starting a compaction at any unflagged table keeps the invariant |
| `LevelSteps.GrowInv` | src/level.rs:226-276 | so does flagging one more level 0 table that overlaps the selection |
| `LevelSteps.CloseDoneInv` | src/level.rs:226-276 | when no unselected table overlaps, every other table that meets a selected one is newer |
| `LevelSteps.ScanInv` | src/level.rs:291-325 | looking at one child table, taking it if it overlaps, keeps the invariant |
| `LevelSteps.ScanWidens` | src/level.rs:297-325 | widening the range by a child table never reaches a child table that was passed over |
| `LevelSteps.HoldInv` | src/level.rs:327-345 | reserving the range keeps it; placeholders stay apart from each other and from other compactions' tables; when the range is reserved and when not is stated by `LevelContention.HoldOutcome` |
| `LevelSteps.UnflagInv` | src/logic.rs:727-735 | an aborting compaction gives back its flags one by one |
| `LevelSteps.LockInv` | src/logic.rs:876 | taking the parent level's write lock keeps the invariant |
| `LevelSteps.StepLocks` | src/logic.rs:876-877 | a level locked for writing is locked by one compaction and read by none |
| `LevelSteps.StepScans` | src/level.rs:297-325 | in every state, no table that a scan has yet to look at is one that it has taken |
| `LevelSteps.AddL0Inv` | src/logic.rs:609-626 | adding a flushed table to level 0 keeps the invariant if it is newer than everything there |
| `LevelSteps.ReloadInv` | src/logic.rs:180-221 | reloading from the manifest keeps it: ascending ids give back the age order of level 0 |
| `LevelSteps.ReloadHas` | src/level.rs:83-91 | reloading finds the same tables on the same levels |
| `LevelMotion.StepSinks` | src/logic.rs:876-993 | no step loses a version or moves it up: what is found from a level down is found from there down afterwards |
| `LevelMotion.StepDraws` | src/logic.rs:876-993 | no step makes up a version |
| `LevelMotion.SearchLevelNewest` | src/level.rs:117-151 | what a search of one level finds is the newest version there and below |
| `LevelMotion.SearchFromNewest` | src/logic.rs:478-499 | what a search of all levels from some level down finds is the newest version from there down |
| `LevelOrder.InstallSorted` | src/logic.rs:894-982 | an install keeps a level sorted by key if and only if it is a merge, there is no other table, or some table starts above the new one |
| `LevelOrder.ReloadSorted` | src/level.rs:83-91 | after reopening a level is sorted by key if and only if on it higher ids have higher keys |
| `LevelOrder.FastMoveUnsorts` | src/logic.rs:976-982 | a run in which a fast compaction leaves a level unsorted |
| `LevelOrder.ReloadUnsorts` | src/logic.rs:180-221 | a run in which reopening unsorts a level |
| `LevelProgress.NoDeadlock` | src/logic.rs:876-954 | from every compaction, following the table locks that are waited for leads to a compaction that can take a step; the two write locks of an install are taken one after the other |
| `LevelProgress.StepUnlessBlocked` | src/logic.rs:876-954 | a compaction has no step to take if and only if another one holds the lock it needs next |
| `LevelProgress.WaitsGoDown` | src/logic.rs:876-877 | whoever holds a lock that is waited for, and waits itself, waits for a deeper level |
| `LevelProgress.CompactionEnds` | src/logic.rs:691-946 | in every infinite run, a compaction that never ended would take only finitely many steps |
| `LevelProgress.OwnStepCloser` | src/level.rs:172-346 | each step of its own brings a compaction closer to its end: selection, scan and abort loops all terminate |
| `LevelProgress.OtherStepKeeps` | src/level.rs:350-358 | no step of another compaction or of a flush sets it back, because it holds the lock of the level it is counting |
| `LevelProgress.MergeExists` | src/logic.rs:783-868 | whatever tables were selected, there is a merge of them to install |
| `LevelContention.StartCondition` | src/level.rs:172-224 | a compaction can start at a table if and only if there is a level below, no compaction holds the table and none has its level locked for writing |
| `LevelContention.GrowOutcome` | src/level.rs:226-276 | on level 0 a compaction gives up on an overlapping table if and only if another compaction holds it, and otherwise takes it and widens its range to hold it |
| `LevelContention.ScanOutcome` | src/level.rs:297-325 | a scan passes over a table that does not meet its range, gives up if and only if it meets the range and another compaction holds it, and otherwise takes it and widens its range |
| `LevelContention.HoldOutcome` | src/level.rs:327-345 | a compaction gives up at its placeholder if and only if another one is building a table for the same level and some key lies in both ranges; otherwise it reserves its range, under its table's id if it has only one and else under the next id |
| `LevelContention.UnflagOutcome` | src/logic.rs:727-735 | an aborting compaction lets go of one table at a time, and ends with the last |
| `LevelContention.AbortHasRival` | src/level.rs:172-346 | no step makes a compaction give up that is the only one |
| `LevelContention.LoneCompactionsInstall` | src/logic.rs:691-946 | in every run, while compactions run one at a time none gives up, and each that ends has installed its table |
| `StoreSafety.WriteInv` | src/logic.rs:509-555 | a write batch, with or without rotating the memtable, keeps the store invariant |
| `StoreSafety.AddTableInv` | src/logic.rs:558-626 | so does adding the flushed table |
| `StoreSafety.AddTableEnabled` | src/logic.rs:558-626 | in every reachable state the memtable being flushed is newer than everything on the levels |
| `StoreSafety.TruncateInv` | src/logic.rs:626-629 | so does moving the log and sequence offsets |
| `StoreSafety.PopInv` | src/logic.rs:630-636 | so does dropping the flushed memtable |
| `StoreSafety.CompactInv` | src/logic.rs:691-1008 | so does every compaction step |
| `StoreSafety.ReadMemOk` | src/logic.rs:444-462 | a read that misses the memtable will find, further down, a version at least as new as when it started |
| `StoreSafety.ReadNextOk` | src/logic.rs:462-499 | the same after each further layer, whatever ran in between; a result was current since the read started |
| `StoreSafety.CrashInv` | src/logic.rs:180-221 | replaying every operation from the log offset on leads to a state that meets the invariant |
| `StoreSafety.ReopenExact` | src/wal/reader.rs:86-227 | reading the log's bytes from the log offset on ends if and only if no operation there has an empty key or value and the log does not end on a page boundary; it then finds exactly these operations |
| `StoreTheorems.RunInv` | src/logic.rs:444-1008 | the store invariant holds in every state of every run |
| `StoreTheorems.StoreRefinesMap` | src/logic.rs:444-555 | in every state of every run, reading a key through all layers gives what a plain map holds after the batches of all write steps so far, in order |
| `StoreTheorems.OnlyWritesChange` | src/logic.rs:509-1008 | a write step changes what is read as it changes the map; no other step changes it, nor does a crash, which is followed by a reopened store only if the log is replayable |
| `StoreTheorems.LookupIsCurrent` | src/logic.rs:444-499 | reading through all layers gives the newest version ever written, with its sequence number |
| `StoreTheorems.ReadsAreAtomic` | src/logic.rs:444-499 | a read that takes one layer per step, among writes, rotations, flushes and compactions, returns what the store held at one moment between its first and last step |
| `StoreTheorems.LevelsStayOrdered` | src/level.rs:291-346 | in every reachable state levels below 0 are disjoint and versions found earlier in a search of the levels are newer |
| `StoreTheorems.LayersStayOrdered` | src/logic.rs:444-645 | in every reachable state the memtable is newer than a full one that waits, that one than the immutable one, and all of them than the levels; only a memtable that is on level 0 already shares versions with them |
| `StoreTheorems.CompactionsNeverStick` | src/logic.rs:691-1008 | in every reachable state of the store every compaction can take a step or waits for one that can |
| `StoreProgress.WriterGoesOn` | src/logic.rs:509-555 | in every reachable state any batch can be written at once, unless a writer waits with a full memtable; that one can queue it, or the flush can go on, or a compaction that holds level 0 can |
| `StoreProgress.FlushMakesRoom` | src/logic.rs:558-636 | each step of the flush brings it one step closer to making room, and no other step sets it back or takes the waiting memtable away |
| `StoreProgress.CompactionBegins` | src/logic.rs:691-725 | the same in every reachable state of the store, next to any number of other compactions |
| `StoreProgress.ReadBegins` | src/logic.rs:444-462 | a read can begin unless a writer waits, which then goes on |
| `StoreProgress.ReadGoesOn` | src/logic.rs:462-499 | a read can visit its next layer, or a compaction can take a step while that level is locked for writing |
| `StoreProgress.ReadEnds` | src/logic.rs:462-499 | each step of a read returns a result or moves it one layer on, it returns after the last level, and no other step changes it |
| `StoreTheorems.RecoveryKeepsMap` | src/logic.rs:180-221 | a store that can be reopened has a replayable log, and reopening gives back the same keys and values; sequence numbers too if and only if the crash did not fall between adding a table and dropping its log |
| `StoreRecovery.RecoveryCondition` | src/logic.rs:180-221 | every reachable store can be reopened if and only if no operation to be replayed has an empty key or value and the log does not end on a page boundary |
| `StoreRecovery.ReopenLog` | src/wal/mod.rs:210-236 | reading the page files from the manifest's offset on ends exactly then, and leaves the reopened store's memtable and the end of the log |
| `StoreRecovery.TruncateWithinLog` | src/logic.rs:628-629 | the offset the store truncates to is in the log and after the one before |
| `StoreRecovery.RenumberingRun` | src/logic.rs:622-629 | a run in which a crash renumbers an operation |
| `StoreRecovery.EmptyLogLoops` | src/wal/reader.rs:180-223 | replaying the empty log does not return |
| `StoreRecovery.EmptyKeyPanics` | src/wal/reader.rs:175-178 | replaying a deletion of the empty key panics |
| `StoreRecovery.EmptyStoreLoops` | src/wal/reader.rs:180-223 | a store that was created and not written to cannot be reopened |
| `StoreIterate.IterationIsCurrent` | src/iterate.rs:246-291 | iterating over the layers of a reachable store yields, for the keys of the range, exactly the newest versions that have a value and the deletions a memtable holds |
| `StoreIterate.IterationIsPlain` | src/iterate.rs:246-291 | the live keys it yields, and their values, are those of a plain map after all writes, forwards from `min` up to but not `max`, in reverse from `max` down to but not `min` |
| `StoreIterate.IterateStore` | src/iterate.rs:246-291 | running the iterator over a reachable store puts out, in the byte order of the keys or in reverse, exactly what a read finds for each key of that range, except deletions that only tables hold |
| `StoreTheorems.OffsetsIncrease` | src/manifest.rs:326-395 | the manifest's offsets only increase, so its checks never panic |
| `LevelCode.SortedTable.MaybeStartCompaction` | src/sorted_table/mod.rs:64-71 | sets the flag and says whether it was clear |
| `LevelCode.SortedTable.AbortCompaction` | src/sorted_table/mod.rs:75-85 | clears a flag that is set |
| `LevelCode.Level.AddL0Table` | src/level.rs:107-113 | a flushed table goes to the end of level 0 |
| `LevelCode.Level.Get` | src/level.rs:117-151 | the search loop gives what `SearchLevel` specifies |
| `LevelCode.Level.MaybeStartCompaction` | src/level.rs:172-276 | on level 0 selects exactly the closure of the chosen table's range; on contention, and only then, no flag changes |
| `LevelCode.OnePass` | src/level.rs:297-325 | one pass finds every table that meets the final, widened range |
| `LevelCode.Level.ScanOverlaps` | src/level.rs:297-325 | flags exactly the overlapping tables and computes their hull; on contention no flag changes |
| `LevelCode.Level.GetOverlaps` | src/level.rs:291-346 | finds exactly the tables that meet the range; fails, and changes nothing, if and only if one of them is flagged or a placeholder meets the smallest range that holds them all; otherwise flags exactly them and reserves that range |
| `LevelCode.BeginCompaction` | src/logic.rs:698-735 | a compaction gives up, and leaves flags and placeholders of both levels as they were, if and only if a table it needs is flagged or a placeholder meets its range; otherwise it holds exactly the chosen tables and the child tables that meet their range, and has reserved the hull of all |
| `LevelCode.Level.RemoveTablePlaceholder` | src/level.rs:71-81 | drops the one placeholder with the id |
| `LevelCode.RemoveTables` | src/logic.rs:879-892 | removes exactly the given tables and keeps the order of the others |
| `LevelCode.FindPlace` | src/logic.rs:894-901 | the position before the first table that starts above the key, or the default |
| `LevelCode.InstallMerged` | src/logic.rs:876-918 | the merged table replaces the tables it was made from, and the placeholder goes |
| `LevelCode.FastCompaction` | src/logic.rs:952-1008 | the table moves down and is unflagged; the default position is the first |
| `LevelCode.FinishCompaction` | src/logic.rs:737-1008 | both ways to end a compaction do to the two levels what the level machine's install step does; a moved table is unflagged |
| `Manifest.ReadList` | src/manifest.rs:72-79 | the ids read back from the file are those in the list |
| `Manifest.ListLayout` | src/manifest.rs:82-126 | the file's bytes are the number of ids and then the ids, each in eight bytes, lowest first |
| `Manifest.LevelMetadata.GetTableIds` | src/manifest.rs:72-79 | returns the list |
| `Manifest.LevelMetadata.Insert` | src/manifest.rs:82-126 | adds the id at its place, and grows the file by a page of 4096 bytes exactly if the list would fill it; false and no change if the id is there |
| `Manifest.LevelMetadata.Remove` | src/manifest.rs:129-147 | removes the id; false and no change if it is not there |
| `Manifest.UpdateTableSet` | src/manifest.rs:454-491 | applies additions and removals in order; fails exactly where the code panics |
| `Manifest.CompactionUpdate` | src/logic.rs:872-943 | a compaction's update never fails and leaves the lists the level machine has after its install step |
| `Merge.MergeTables` | src/logic.rs:783-868 | the merge loop ends with a strictly sorted sequence drawn from the inputs that has, for every key of an input, an entry at least as new as any |
| `Merge.MergeIsMerge` | src/logic.rs:783-868 | that sequence is exactly what an install of the level machine may use |
| `Merge.FindNewest` | src/logic.rs:816-848 | picks, among iterators at the smallest key, one with the greatest sequence number |
| `Merge.FindMin` | src/logic.rs:786-810 | advances every iterator past the last key and finds the smallest key left |
| `Iterate.DbIterator.ParseIter` | src/iterate.rs:132-242 | skips exactly what is done and lets the iterator compete for the next entry |
| `Iterate.DbIterator.Next` | src/iterate.rs:246-291 | returns the first visible key after the last one, with its newest version, and passes no other; which keys are in the range is stated by `Iterate.ForwardRange` and `Iterate.ReverseRange` |
| `Iterate.Collect` | src/iterate.rs:246-291 | running an iterator to its end yields, in the byte order of the keys or in reverse, exactly the visible keys from `min` up to but not `max`, or in reverse from `max` down to but not `min` |
| `Iterate.ForwardRange` | src/iterate.rs:186-242 | a forward iteration covers the keys not less than `min` and less than `max` |
| `Iterate.ReverseRange` | src/iterate.rs:132-185 | a reverse iteration covers the keys greater than `min` and not greater than `max` |
| `Iterate.PrepareIter` | src/logic.rs:246-373 | leaves out exactly the tables whose key range lies below `min` or above `max`, which changes nothing about what is yielded, in either direction |
| `Iterate.OnlyLiveKeys` | src/memtable.rs:155-160 | iteration hands out only keys that have a value if and only if no key of the range has its newest version as a deletion in a memtable |
| `Iterate.DeletedKeyShown` | src/memtable.rs:155-160 | an input where a deleted key is handed out |
| `Memtable.Memtable.Get` | src/memtable.rs:259-268 | finds the entry of the key, if there is one |
| `Memtable.Memtable.GetMinMaxKey` | src/memtable.rs:248-257 | every key lies between the two keys returned, which are in the table |
| `Memtable.Memtable.GetKeyPos` | src/memtable.rs:270-287 | removes the key's old entry, subtracts the length of its key and value from the size, and returns where the new one belongs |
| `Memtable.Memtable.Put` | src/memtable.rs:290-308 | the table then maps the key to the value under the next sequence number, and stays sorted and distinctly numbered; the size grows by the lengths of key and value, less those of the entry replaced |
| `Memtable.Memtable.Delete` | src/memtable.rs:310-326 | likewise for a deletion, which counts the length of its key |
| `Memtable.Memtable.IsFull` | src/memtable.rs:329-332 | true exactly if the size, which is the sum over all entries, has reached the limit |
| `Memtable.Memtable.ApplyBatch` | src/logic.rs:514-549 | a batch leaves what replaying its operations gives |
| `Memtable.MemtableIterator.Step` | src/memtable.rs:98-133 | moves to the next entry in the iterator's direction, or past the end |
| `Memtable.Enumerate` | src/memtable.rs:72-142 | iterating yields the vector, forwards or backwards |
| `Codec.Le32RoundTrip` | src/data_blocks/block.rs:97-116 | 32-bit fields read back |
| `Codec.Le64RoundTrip` | src/data_blocks/block.rs:125-165 | 64-bit fields read back |
| `Codec.LeByte` | src/data_blocks/builder.rs:77-93 | byte `i` of a field is the number divided by 256^i, modulo 256: the lowest byte comes first |
| `Blocks.PrefixLen` | src/sorted_table/builder.rs:114-131 | the prefix is the longest that is shared with the key before, and empty at a restart point |
| `Blocks.EntryLayout` | src/data_blocks/builder.rs:77-98 | the bytes of an entry, field by field: prefix and suffix length, type 1 for a value and 2 for a deletion, sequence number, value length, suffix, value |
| `Blocks.BlockLayout` | src/data_blocks/builder.rs:105-158 | the bytes of a block: start of the restart list, number of entries and filter in 1077 bytes, then the entries and the restart list |
| `Blocks.DecodeEntry` | src/data_blocks/block.rs:125-165 | an encoded entry decodes to its key, its version and the offset of the next, given the previous key |
| `Blocks.LoadedBlock` | src/data_blocks/block.rs:97-116 | a block loaded from its bytes is the block that was written |
| `Blocks.RestartsAre` | src/data_blocks/builder.rs:64-67 | the restart list has the offset of every entry whose index is a multiple of the interval |
| `Blocks.EncodeRepresents` | src/data_blocks/builder.rs:105-158 | a finished block has every entry and restart offset in its place |
| `BlockReads.ReadEntry` | src/data_blocks/block.rs:125-165 | at a restart point an entry decodes from nothing, elsewhere from the key before it |
| `BlockReads.GetEntryAtIndex` | src/data_blocks/block.rs:176-192 | decoding from the nearest restart point reaches the entry with the given index |
| `BlockReads.BinarySearch` | src/data_blocks/block.rs:221-261 | finds the entry, or a range of at most two restart intervals that contains every entry with the key |
| `BlockReads.GetByKey` | src/data_blocks/block.rs:265-294 | finds the entry of a key exactly when there is one |
| `IndexBlocks.PadOffset` | src/lib.rs:46-66 | the next multiple of the word size |
| `IndexBlocks.HeadFields` | src/index_blocks.rs:12-20 | the header's 24 bytes, field by field |
| `IndexBlocks.EntryFields` | src/index_blocks.rs:22-28 | an entry's bytes, field by field |
| `IndexBlocks.OffsetListPlace` | src/index_blocks.rs:61-75 | the offset list begins at the next multiple of 8 after the key range, with room for the number of entries rounded up to a multiple of 8 |
| `IndexBlocks.New` | src/index_blocks.rs:45-96 | the layout loop puts header, key range, offsets and entries in their places |
| `IndexBlocks.ReadHead` | src/index_blocks.rs:115-181 | size, range and number of blocks read back |
| `IndexBlocks.ReadIndexEntry` | src/index_blocks.rs:119-151 | every entry's key and block id read back |
| `IndexBlocks.BinarySearch` | src/index_blocks.rs:183-217 | nothing exactly for keys outside the table's range, otherwise the one block that can hold the key; the assertion on the way holds |
| `TableBuilders.DataBlockBuilder.AddEntry` | src/data_blocks/builder.rs:55-103 | appends the row; the assertion that a restart point has no prefix holds |
| `TableBuilders.DataBlockBuilder.Finish` | src/data_blocks/builder.rs:105-158 | none if empty, otherwise a block that represents the rows |
| `TableBuilders.RestartsAgree` | src/sorted_table/builder.rs:114-137 | the table builder's restart counter and the block builder's position mark the same restart points |
| `TableBuilders.SharedPrefix` | src/sorted_table/builder.rs:124-130 | the loop computes the longest common prefix |
| `TableBuilders.TableBuilder.AddEntry` | src/sorted_table/builder.rs:103-156 | the rows so far grow by the row; a block that has its maximum of entries is finished and entered in the index |
| `TableBuilders.TableBuilder.AppendEntry` | src/sorted_table/builder.rs:111-137 | the current block grows by the row, and all counters stay right |
| `TableBuilders.TableBuilder.EndBlock` | src/sorted_table/builder.rs:141-153 | the full block is stored under a new id and entered in the index under its first key; no row is lost |
| `TableBuilders.TableBuilder.Finish` | src/sorted_table/builder.rs:159-193 | index and blocks represent exactly the rows that were added |
| `Tables.Get` | src/sorted_table/mod.rs:109-116 | index search and block search together are lookup in the map of the rows |
| `Tables.OneBlock` | src/index_blocks.rs:183-217 | the block the index search returns is the only one that can have the key |
| `Tables.TableIterator.constructor` | src/sorted_table/iterator.rs:43-105 | starts at the first row, or at the last in reverse |
| `Tables.TableIterator.AtEnd` | src/sorted_table/iterator.rs:116-122 | true exactly after the last row in the iterator's direction |
| `Tables.TableIterator.Step` | src/sorted_table/iterator.rs:161-226 | moves by one row across blocks |
| `Tables.ReadForward` | src/sorted_table/iterator.rs:190-223 | decodes a row and finds where the next one begins, in this block or the next |
| `Tables.ReadBackward` | src/sorted_table/iterator.rs:162-189 | decodes a row and finds the one before, in this block or the one before |
| `Tables.Enumerate` | src/sorted_table/iterator.rs:115-226 | iterating yields exactly the rows, or exactly their reverse |
| `TableRoundTrip.BuildTable` | src/sorted_table/builder.rs:103-193 | building a table gives blocks that hold exactly the rows and an index with the first key of every full block; all that must fit is each block and that index |
| `TableRoundTrip.RoundTrip` | src/sorted_table/iterator.rs:43-226 | building and then iterating gives the rows back, in order or in reverse |
| `TableRoundTrip.LookupBuilt` | src/sorted_table/mod.rs:109-116 | building from sorted rows and then looking up a key gives what the rows say |
| `WalPages.WalWriter.WriteAll` | src/wal/writer.rs:215-263 | appends to the log whatever pages the data spans; page files hold exactly the log |
| `WalPages.WalWriter.SetOffset` | src/wal/writer.rs:183-200 | removes exactly the page files before the new offset, all of which exist |
| `WalPages.WalWriter.ContinueFrom` | src/wal/writer.rs:51-78 | a reopened log goes on where it ended |
| `WalPages.UnseekedWrite` | src/wal/writer.rs:97-99 | writing to a reopened file from its beginning appends if and only if the log ends on a page boundary |
| `WalPages.AppendChunk` | src/wal/writer.rs:217-260 | one chunk extends the current page, and filling it starts the next |
| `WalPages.ByteInPage` | src/wal/writer.rs:215-263 | byte `x` of the log is byte `x % 4096` of page file `x / 4096` |
| `WalPages.WalReader.ReadFromLog` | src/wal/reader.rs:175-227 | reads the next bytes across pages; at the end the rest stays zero, on a page boundary it never returns, and it panics on length 0 |
| `WalRecovery.ParseWriteEntry` | src/wal/reader.rs:115-134 | what parsing an entry does to the position and the memtable, in every case |
| `WalRecovery.Run` | src/wal/reader.rs:86-112 | recovery leaves in the memtable the replay of the operations `Recover` finds, and ends as it says |
| `WalRecovery.ParseRecord` | src/wal/mod.rs:352-383 | a record is parsed into its operation, or panics if the key or value is empty |
| `WalRecovery.RecordLayout` | src/wal/mod.rs:352-383 | the bytes of a record: entry type 0, operation type 1 or 2, and key and value, each after its length in eight bytes |
| `WalRecovery.RecordExample` | src/wal/mod.rs:352-383 | the twenty bytes of one record |
| `WalRecovery.RecoverLog` | src/wal/reader.rs:86-227 | from any record boundary, recovery finds exactly the operations up to the first with an empty key or value; how it ends in each case |
| `WalRecovery.RecoveryIsExact` | src/wal/reader.rs:86-227 | recovery returns all operations and the end of the log if and only if no key or value is empty and the log does not end on a page boundary |
| `WalRoundTrip.RoundTrip` | src/wal/writer.rs:215-263 | records written page by page, with or without dropping the pages before, are replayed from any record boundary up to the first empty key or value; all of them, ending at the end of the log, if and only if there is none and the log does not end on a page boundary |
| `WalRecovery.TornTail` | src/wal/reader.rs:115-227 | if the last record was cut off, recovery fails or applies one operation more than there are whole records |
| `WalRecovery.TornValue` | src/wal/reader.rs:115-134 | a put cut off in its value is applied with zeros for the missing bytes |
| `WalProtocol.StepInv` | src/wal/writer.rs:107-181 | every step of callers and writer keeps the protocol invariant |
| `WalProtocol.RunSafe` | src/wal/mod.rs:386-494 | in every state of every run: flush_pos <= offset_pos <= write_pos <= position <= queue_pos, which counts every byte; page files are removed one after the other, none with a byte at or after the offset, nor the one being written; the assertions of `update_log` hold, and that of `sync` if and only if the writer has not synced bytes it has yet to publish; what returned calls have achieved is in the rows below |
| `WalProtocol.StoreReturned` | src/wal/mod.rs:386-418 | in every run, a `store` that returned has its records in the log, right after everything queued before it, all of them before write_pos; the position it hands back is where they end |
| `WalProtocol.SyncReturned` | src/wal/mod.rs:443-475 | in every run, once a `sync` has returned, sync_pos has reached what write_pos was when it was called |
| `WalProtocol.SetOffsetReturned` | src/wal/mod.rs:477-511 | in every run, once a `set_offset` has returned, flush_pos has reached its offset and no page file before the offset's is left |
| `WalProtocol.LogIsStored` | src/wal/writer.rs:107-175 | in every run the log is what it was when opened, followed by the records of all stores in order up to some point; all of them once the writer is idle with nothing to do |
| `WalProtocol.CallsServed` | src/wal/writer.rs:107-175 | in every run, whatever was asked for before the writer grabs its work can return when the writer has next published |
| `WalProtocol.NoSyncUnasked` | src/wal/writer.rs:149-155 | without a `sync` the sync position never moves |
| `WalProtocol.FlagTakenDown` | src/wal/writer.rs:114-134 | a request to sync is taken up once: after it was grabbed the flag is down until the next `sync` |
| `WalProtocol.SyncAssertionCanFail` | src/wal/mod.rs:443-452 | a run that reaches a state in which the assertion of `sync` fails |
| `WalProtocol.WriterCanStep` | src/wal/writer.rs:107-148 | while a caller waits or the writer is busy, the writer has a step to take: no request is lost |
| `WalProtocol.WriterFinishes` | src/wal/writer.rs:142-181 | a busy writer comes closer to idle with each of its steps, and no caller sets it back |
| `WalProtocol.PublishServes` | src/wal/writer.rs:163-175 | publishing lets every caller return whose request the writer had taken up |
| `WalProtocol.LogGrows` | src/wal/writer.rs:142-175 | along a run the log is only extended, in the order of the queue, and no position goes back |

## Left out

- The `wisckey` build: value log, value index and their garbage collection.
- Scheduling of background tasks, shutdown (`stop_flag`) and notification; a step may happen whenever its condition
  holds.
- Which table a compaction starts at, seek counters and level size limits: any unflagged table may be chosen.
- I/O errors and early returns that leave flags or placeholders set.
- Durability: `sync` syncs only the current page file; positions are accounted for, not the state of the disk.
- The block cache, memory maps and compression; a block id stands for its block.
- The bits of the bloom filter; the builder keeps its bytes as they are and the reader takes its answer as a parameter.
- Iterators over a memtable that is being written; sources are frozen.
- The assertion `min < max` when an iteration is set up; the model yields nothing for an empty range.
- `src/database.rs`, `sync/`, `src/level_logger.rs`: wrappers, a second copy of the merge iterator, and statistics.
- Levels.Enabled: a level 0 selection may add any overlapping table next, where the code scans in order;
  `LevelCode.Level.MaybeStartCompaction` has the loop itself.
- Store.Step: any batch that leaves the memtable non-empty may rotate it, where the code compares its size with a limit.
- WalPages.WalWriter.ContinueFrom: models writes at a position, where the `std::fs` build writes from the beginning of
  the reopened file; `WalPages.UnseekedWrite` says when that makes a difference.
- WalProtocol.StepInv: `set_offset` is called with an offset that has been written; the code relies on its caller for
  that, see `StoreRecovery.TruncateWithinLog`.
- LevelCode.BeginCompaction: is not tied to a sequence of the level machine's selection steps, because it runs on its
  own while those interleave.
