# Tektite in Dafny

A Dafny model of the parts of Tektite that are hardest to get right, with proofs of what they promise.
Tektite is a streaming database on a log-structured merge tree. The model covers:

- **Keys** (`Bytes`, `KeyEncoding`): the order-preserving encoding of rows, with a version at the end.
- **Merging** (`MergeSpec`, `MergeRounds`, `KeptRounds`, `MergingIterator`, `CompactionMerge`): the k-way
  merge over versions, in query and compaction mode, what becomes of deleted keys and of the largest
  version in it, and the cutting of its output into tables.
- **The level index** (`LevelSpec`, `LevelIndex`, `MasterRecord`): segments and table entries, and the
  batches of registrations and de-registrations that change them.
- **Compaction** (`CompactionSpec`, `CompactionQueue`, `CompactionDrops`, `LevelManager`,
  `CompactionWorker`, `CompactionReads`, `LiveReads`, `CompactionRuns`): jobs over locked tables, created,
  dispatched, cancelled and applied in any order; the worker that carries them out; the blocking queue of
  level 0; which jobs may drop tombstones; and what reads across all levels see of it, job by job and over
  whole runs.
- **Persistence of the index** (`SegmentStore`, `StructCodec`): caches, flush and rollback of segments,
  and their byte format.
- **The memtable** (`SkiplistLevel`, `Skiplist`, `Memtable`): lock-free insertion into the skiplist one
  atomic access at a time, and the space reservation over the arena.
- **Cluster state** (`ClusterManager`): replicas and leaders over a history of membership changes.
- **Consumer groups** (`GroupCoordinator`): the join, sync and leave protocol with its timers.
- **Windows** (`Windows`): assignment of rows to windows and closing by watermark.

`dafny verify dfyconfig.toml` checks everything.

## How it is put together

Code that the source writes as methods on mutable objects is a class here, and each method is proved
to take the step that a function on values describes. Concurrent protocols are state machines whose
steps are the source's atomic steps: one method under its lock, or one atomic load, store or
compare-and-swap. A *run* is any sequence of steps, and the main results hold of every state of every
run.

The layers meet. The key encoding proves the premise of the storage layers: keys of all slab
partitions together are prefix-free and each has a successor of its own length
(`CompactionSpec.StoreKeysAreKeys`). Merging, the order of stored keys and the overlap search rest on
that premise. The worker's output (`CompactionWorker.ProcessJob`) is what the scheduler assumes of a
finished job. The level manager's methods are the steps of the machine in `CompactionQueue`. A job from
the worker's merge to the changed index is one theorem over all levels (`CompactionReads.Compact`), and
the reads it speaks of are what a query merge yields (`CompactionReads.ReadIsLatest`). Over any run of the
machine, with workers that ran at earlier states, no read at or above the bounds changes while no table
arrives and the jobs applied keep tombstones (`CompactionRuns.ReadsStay`).

Jobs that drop tombstones are those with no level below their destination when they are scheduled
(`CompactionDrops.KeptIffLevelBelow`), and until they are applied no table below it shares a key with them
(`CompactionDrops.NothingBelowShares`). They leave no tombstone in what is applied for them, merged or moved
(`CompactionRuns.NoneWritten`). Whatever jobs are applied, a value that a read shows at or above
the bounds is still shown (`CompactionRuns.LiveStay`). Where tables arrive at level 0 with nothing older
of a key than the levels hold, reads show exactly the same values, with jobs that drop tombstones among
those applied, as long as those jobs delete for good what they read as deleted
(`CompactionRuns.ShownStay`).

A consumer group runs through `GroupCoordinator.Run`, any sequence of requests and timers up to the first
panic. Two answers of one generation name the same leader and protocol in every run, whatever clients
send and whenever timers fire: that is part of `Group.Valid`. That counts are true, a common protocol
exists and no answer panics is `Group.Sound`, which needs clients that send distinct protocol names with
metadata. With such clients a run ends sound if and only if no event in it was one of two that break a
group: an initial timer that ends on no members, or a sync that panics.

Clocks, random numbers, UUIDs, the network, the object store's failures and the heap that picks
a waiting poller are parameters or events. New ids are assumed not to be in use. Integers are
unbounded except where the width matters (versions, the sign bit of encoded integers, the
32- and 64-bit fields of the file format).

## Where the code does less than it seems to promise

- A query merge treats the largest 64-bit version as not compactable. Handing one out leaves a flag up
  that keeps older versions from being dropped, until a source is met at another key. So a key with that
  version comes out again with an older one (`CompactionMerge.QueryShowsMaxVersionTwice`), and so can the
  key that comes next (`CompactionMerge.QueryShowsNextKeyTwice`). With tombstones kept the result is exactly
  the newest eligible version of each key if and only if every key with the largest version has no other
  eligible version, and, at the turn of a key without it that comes right after one with it, no source
  before the first that stands at another key still holds a version of the key once its newest one has
  been handed out (`CompactionMerge.Query`, `KeptRounds.KeptExactIff`). Without an eligible largest version
  that is always so.
- A merge that drops tombstones can bring a deleted key back, because passing a tombstone moves only its
  own source on, and by one entry (`CompactionMerge.QueryShowsDeleted`: a delete followed in its table by
  an older value). The result is exact if and only if, at the turn of each key whose newest version is a
  tombstone, tombstones win all ranks of what the sources then hold of it
  (`MergeRounds.ExactIffDeletesHold`): of the first, second, and so on, versions in the sources, the
  newest is a tombstone each time. Scans for smaller keys take versions away before that turn, so the
  ranks of the sources as given neither suffice (`MergeRounds.RanksDoNotSuffice`) nor are needed
  (`MergeRounds.RanksAreNotNeeded`). They decide where no smaller key lies to the right of two sources
  that hold the key, hence always with two sources (`MergeRounds.RanksAsGiven`, `MergeRounds.TwoSources`).
  In every case it is enough that all versions of a deleted key but the first in each source are
  tombstones (`MergeRounds.OlderTombstonesSuffice`).
- A compaction that drops tombstones can do the same. A value is kept if no newer version below the last
  flushed version replaces it, also where a newer tombstone, not below that version, was dropped
  (`CompactionMerge.CompactShowsDeleted`). Whoever saw the key deleted then reads a value
  (`CompactionMerge.ValueReturns`). A delete is done, and its key gone, if the tombstone is the newest
  version, is below the last flushed version, and each table has at most one value of the key, before all
  its tombstones (`CompactionMerge.MergeSSTables`). Keys that are not deleted read the same in every case.
- A chain of sources stops at an empty one. It yields everything exactly when nothing follows the
  first empty source (`CompactionMerge.ChainYieldsAll`).
- With unversioned keys where one is a prefix of another, byte order and merge order differ
  (`MergeSpec.PrefixKeysBreakTheOrder`).
- The overlap search can return a table that lies just after the source, namely if and only if that
  table's first stored key is a proper prefix of the incremented end (`CompactionSpec.TouchesExactly`,
  with `CompactionSpec.SearchReturnsNeighbour` as a case). That needs the first key to carry the largest
  64-bit version (`CompactionSpec.OnlyLargestVersion`); without it the search is exact. It never skips
  over another table (`CompactionSpec.LeftExact`, `CompactionSpec.RightExact`), and that is enough.
- When a batch of index changes fails, the rollback restores the master record but not the segment
  cache. Every segment id still resolves if and only if it did before and the failed batch had not
  replaced a segment that was waiting to be flushed (`SegmentStore.Store.ApplyBatch`);
  `SegmentStore.RollbackLosesSegment` is a case where one is lost until the next flush.
- Registering a table checks for overlap only where the new table stands before some table of the segment
  it goes in, and only with the one before that. A new table is inserted if and only if its stored range
  meets none in the level, or meets the last table of the segment it goes in
  (`LevelIndex.InsertIntoSegments`, `LevelIndex.InsertedIff`). In the second case an overlap goes unnoticed:
  any two overlapping tables, registered one after the other, end up side by side
  (`LevelIndex.OverlapGoesUnnoticed`). In the first the tables may still share a key, one ending with a
  newer and the other beginning with an older version of it (`LevelIndex.UnfitIff`). Compaction registers
  only tables that fit (`CompactionQueue.FinishedJobsFit`).
- When a connection closes, its jobs are made available again while its own pollers still wait. Afterwards
  no job is in progress on it if and only if none of its pollers was given one
  (`LevelManagers.LevelManager.ConnectionClosed`, `CompactionDrops.ReleasedAll`).
- The initial-join timer of a consumer group does not look at the group's state. What the group
  promises survives the timer if and only if it does not end on an empty group
  (`GroupCoordinator.Group.InitialJoinTimerExpired`). `GroupCoordinator.TimerOnEmptyGroup` is a client
  that joins and leaves within the delay, and another whose join then panics.
- A sync panics if and only if it is of the current generation and either the group is empty, or it is the
  last one missing and the assignments then in force name someone who is not a member, or someone twice
  (`GroupCoordinator.Group.Sync`). `GroupCoordinator.SyncOnEmptyGroup` is a member that leaves and then
  syncs, `GroupCoordinator.SyncWithStranger` a leader that assigns to a member that is not there.
- A consumer group becomes active when every member has a sync completion waiting, and completions are
  not cleared when a new generation begins. `GroupCoordinator.StaleActivation` is a group that becomes
  active in its second generation although one of its two members synced only in the first. The others can
  go without a member if its completion is of an earlier generation and the leader is one of the others, or
  has left assignments that do not panic. Active means that every member synced in the generation if
  there is no such member (`GroupCoordinator.ActiveMeansSynced`), and if there is one, syncs of the others
  alone make the group active (`GroupCoordinator.GoWithout`).
- Of two writers that add the same new key to the memtable at the same time, the one that is beaten takes a
  second value. That exceeds the entry's worst-case size if and only if the value is longer than what its
  tower leaves unused (`Memtable.EntryReqsFit`), and then there are runs in which a write with a granted
  reservation finds the arena full (`Memtable.BeatenFindsArenaFull`). Without such a race none does
  (`Memtable.ReservedWritesFit`).
- Division of event times rounds towards zero. A row from before time 0 misses a window that contains it
  if and only if its distance to the grid is not zero and at most the window size
  (`Windows.NoneMissed`); with windows as long as the hop it is then in none
  (`Windows.RowBeforeZeroIsLost`).
- A watermark is stored as it comes. Closed windows stay closed if and only if it does not go back behind
  one of them (`Windows.WindowedAggregate.HandleBarrier`, `Windows.ClosedWindowReopens`).

## Model

| member | source | states |
|---|---|---|
| `Bytes.IncrementBytesBigEndian` | common/util.go:50-68 | the backward carry loop gives the big-endian successor of the same length |
| `Bytes.IncrementAbove` | common/util.go:50-68 | the successor is above every extension of the original |
| `Bytes.IncrementIsNext` | common/util.go:50-68 | nothing of the same length lies between a string and its successor |
| `KeyEncoding.IntCodec` | encoding/key_encoding.go:63-71 | encoded integers compare bytewise as the integers, and decode to them |
| `KeyEncoding.EncodeStringOrder` | encoding/key_encoding.go:144-164 | encoded strings compare bytewise as the strings, with a difference inside both |
| `KeyEncoding.KeyEncodeString` | encoding/key_encoding.go:144-164 | the group loop appends the encoding |
| `KeyEncoding.DecodeStringInverse` | encoding/key_encoding.go:166-207 | decoding a string inverts encoding whatever follows |
| `KeyEncoding.DecodeStringCanonical` | encoding/key_encoding.go:166-207 | what decodes is the encoding of what it decodes to |
| `KeyEncoding.KeyDecodeString` | encoding/key_encoding.go:166-207 | the decoding loop, from any offset, agrees with the decoder and fails when it does |
| `KeyEncoding.EncodeKeyCols` | evbatch/encoding.go:48-92 | the loop over columns appends the encoding of the row |
| `KeyEncoding.EncodeRowStrong` | evbatch/encoding.go:48-92 | a smaller row, nulls first, has a bytewise smaller key, with a difference inside both |
| `KeyEncoding.VersionedKeyOrder` | encoding/key_encoding.go:217-222 | stored keys compare bytewise exactly as rows by column and then by version, newest first |
| `KeyEncoding.SchemaKeysPrefixFree` | evbatch/encoding.go:48-92 | no key of a schema is a proper prefix of another |
| `KeyEncoding.DecodeKeyToSlice` | encoding/key_encoding.go:20-61 | the decoding loop agrees with the row decoder at any offset, errors included |
| `KeyEncoding.KeyRoundTrip` | encoding/key_encoding.go:20-61 | decoding inverts encoding of every row, at any offset and with any suffix |
| `MergeSpec.ByteOrderIsEntryOrder` | iteration/merging_iter.go:75-106 | byte order of stored keys is (key, version descending) order unless one key is a proper prefix of the other |
| `MergeSpec.ByteSortedIffSortedRun` | iteration/merging_iter.go:75-106 | on prefix-free keys a table is sorted bytewise if and only if it is sorted for the merge |
| `MergeSpec.PrefixKeysBreakTheOrder` | iteration/merging_iter.go:75-106 | a pair of keys, one a prefix of the other, for which the orders differ |
| `MergeSpec.DropKeepsInv` | iteration/merging_iter.go:105-147 | dropping an entry that another one covers loses nothing the merge still owes |
| `MergeSpec.ChooseKeepsInv` | iteration/merging_iter.go:152-170 | handing out the least entry keeps output order and accounts for it |
| `MergeSpec.UnshadowedIsChosen` | iteration/merging_iter.go:50-233 | an entry with no newer compactable version and no copy to its left is handed out |
| `MergeSpec.NonCompactableKept` | iteration/merging_iter.go:50-233 | an entry at or above the bound is handed out, itself or an exact copy from a source to its left |
| `MergeSpec.SnapshotsPreserved` | iteration/merging_iter.go:50-233 | for every key and every version at or above the bound, the latest entry is the same in output and input |
| `MergeSpec.ChosenAreLatest` | iteration/merging_iter.go:50-233 | when no key comes twice, every entry handed out is the newest eligible one of its key, leftmost on ties |
| `MergeRounds.VisitNewer` | iteration/merging_iter.go:105-127 | a newer version of the best key so far wins, and exactly the former best's source moves on |
| `MergeRounds.VisitOlder` | iteration/merging_iter.go:128-147 | an older or equal version of the best key so far loses, and exactly its source moves on |
| `MergeRounds.RoundOfSmallerKey` | iteration/merging_iter.go:53-155 | a round won by a smaller key takes from a source at most the first version of another key, and only where it was beaten |
| `MergeRounds.RoundOfTombstone` | iteration/merging_iter.go:157-162 | a round won by a tombstone takes the first version of its key from every source |
| `MergeRounds.NewestStays` | iteration/merging_iter.go:53-155 | the newest version of a key is there until its turn comes |
| `MergeRounds.OutputAtTurn` | iteration/merging_iter.go:50-171 | at its turn a key is shown if and only if some rank is won by a value, and a newest version that is a value is what is shown |
| `MergeRounds.ExactIffDeletesHold` | iteration/merging_iter.go:50-171 | with tombstones dropped the output is exact if and only if tombstones win all ranks of every deleted key at its turn |
| `MergeRounds.RanksAsGiven` | iteration/merging_iter.go:50-171 | the ranks of the sources as given decide where nothing smaller lies to the right of two sources with the key |
| `MergeRounds.TwoSources` | iteration/merging_iter.go:50-171 | with at most two sources the ranks as given decide |
| `MergeRounds.OlderTombstonesSuffice` | iteration/merging_iter.go:50-171 | a deleted key stays hidden when all its versions but the first in each source are tombstones |
| `MergeRounds.RanksDoNotSuffice` | iteration/merging_iter.go:105-162 | three sources where tombstones win all ranks as given and a deleted key is shown |
| `MergeRounds.RanksAreNotNeeded` | iteration/merging_iter.go:105-162 | three sources where a value wins a rank as given and the output is exact |
| `KeptRounds.GoneIff` | iteration/merging_iter.go:177-228 | the key handed out is gone after the round, unless the flag is up, the winner is below the bound and a source before the first at another key still holds it |
| `KeptRounds.GoneMeans` | iteration/merging_iter.go:177-228 | if it is gone, it is gone from every source and the flag says whether it was at or above the bound |
| `KeptRounds.LargerStays` | iteration/merging_iter.go:53-228 | a round keeps the newest version of every other key |
| `KeptRounds.StaysThenTwice` | iteration/merging_iter.go:177-228 | a key that is not gone comes out again with an older version |
| `KeptRounds.ExactIffFlagHolds` | iteration/merging_iter.go:50-228 | with tombstones kept, and from any position of the flag, exactly the newest versions come out if and only if the flag holds nothing back in any round |
| `KeptRounds.FlagHoldsIff` | iteration/merging_iter.go:50-228 | that is a condition on the keys that come right after one with the largest version, at their turn |
| `KeptRounds.KeptExactIff` | iteration/merging_iter.go:50-228 | so the whole output is exact if and only if those keys clear at their turn |
| `MergingIterators.ChoiceUnique` | iteration/merging_iter.go:50-171 | the entry a scan settles on is determined by the sources |
| `MergingIterators.MergingIterator.IsValid` | iteration/merging_iter.go:50-171 | ends, keeps the merge invariant, positions on the least eligible entry, which is the winner of a round or, with tombstones dropped, the first winner that is none, and changes nothing when already positioned |
| `MergingIterators.MergingIterator.Scan` | iteration/merging_iter.go:53-155 | one pass over the sources finds the least eligible head or that there is none, dropping only covered entries, and leaves exactly what a round leaves |
| `MergingIterators.MergingIterator.Visit` | iteration/merging_iter.go:60-150 | one source of the pass: every branch of the comparison with the best so far |
| `MergingIterators.MergingIterator.Next` | iteration/merging_iter.go:177-233 | hands the current entry out; exactly what is left of every source and of the no-drop flag, stale or not; if the flag is down all versions of the key go |
| `CompactionMerge.Query` | iteration/merging_iter.go:50-233 | the consumed merge is sorted and from the sources; with tombstones kept it is exactly the newest eligible version of each key if and only if each key with the largest version has no other and the flag holds back nothing of the key that follows; with tombstones dropped and no eligible largest version, if and only if deletes hold |
| `CompactionMerge.QueryShowsMaxVersionTwice` | iteration/merging_iter.go:185-192 | with a version of the largest 64-bit number, an older version of the same key is shown too |
| `CompactionMerge.QueryShowsNextKeyTwice` | iteration/merging_iter.go:185-228 | a lone largest version of one key makes both versions of the next key come out |
| `CompactionMerge.QueryShowsDeleted` | iteration/merging_iter.go:157-162 | a deleted key with an older value in the same table is shown with that value |
| `CompactionMerge.OutputMeaning` | iteration/merging_iter.go:50-233 | the rounds' output is the exact query result if and only if deletes hold |
| `CompactionMerge.KeptMeaning` | iteration/merging_iter.go:50-233 | the same with tombstones kept, for every bound on versions |
| `CompactionMerge.ChainingIterator.IsValid` | iteration/chaining_iter.go:35-43 | whether the chain has anything left to yield |
| `CompactionMerge.ChainingIterator.Next` | iteration/chaining_iter.go:20-33 | yields the chain without its head |
| `CompactionMerge.ChainYieldsAll` | iteration/chaining_iter.go:20-43 | the chain is the concatenation of its sources if and only if nothing follows the first empty one |
| `CompactionMerge.MaxSizeIterator.IsValid` | levels/iters.go:42-58 | stops where the limit is reached and a new key begins, and nowhere else |
| `CompactionMerge.MaxSizeIterator.Next` | levels/iters.go:33-40 | passes an entry on and adds its size |
| `CompactionMerge.BuildTable` | sst/sstable.go:26-95 | drains the limited iterator into a non-empty table that continues the output; it reaches the limit unless nothing is left, and no key begins in it after that |
| `CompactionMerge.MergeSSTables` | levels/compaction_worker.go:325-412 | output tables are non-empty, disjoint on unversioned keys, together sorted and from the input, each cut at the first new key after the limit; every value that nothing compactable replaces is in them; every snapshot at or above the bound reads the same of keys it does not read as deleted and, with tombstones kept, of all keys; with tombstones dropped there are none, and keys whose delete holds are gone |
| `CompactionMerge.LiveMeaning` | levels/compaction_worker.go:325-412 | tombstones kept or not, every value that nothing compactable replaces comes out, and every snapshot at or above the bound that reads a value reads it still |
| `CompactionMerge.LiveIsSame` | levels/compaction_worker.go:325-412 | and nothing else is read of a key that the snapshot does not read as deleted |
| `CompactionMerge.DeletedIsGone` | iteration/merging_iter.go:157-162 | a key whose newest version is a tombstone below the bound, with at most one value in each source and before its tombstones, does not come out |
| `CompactionMerge.ValueReturns` | levels/compaction_worker.go:325-412 | with tombstones dropped, a snapshot reads a value of any key that has one which nothing compactable replaces, deleted or not |
| `CompactionMerge.CompactShowsDeleted` | levels/compaction_worker.go:325-412 | any delete not below the last flushed version over an older value, of which the merge keeps only the value |
| `LevelSpec.VersionedLess` | levels/level_manager.go:984-1027 | on prefix-free keys a smaller unversioned key stays smaller whatever the versions |
| `LevelSpec.BoundsDecide` | levels/level_manager.go:984-1027 | tables that lie apart are told apart by their stored bounds |
| `LevelSpec.OverlapSearchComplete` | levels/compaction.go:76-92 | the version-stripped, incremented range reaches every table with any version of any key in it |
| `LevelSpec.WiderOverlaps` | levels/level_manager.go:293-325 | a segment range overlaps whatever a table inside it does |
| `LevelIndex.FindSegmentFor` | levels/level_manager.go:982-996 | finds the first segment that passes the test, or that none does; the one a fitting table belongs in, and the one that holds a registered table |
| `LevelIndex.FindInsertPoint` | levels/level_manager.go:1009-1016 | the first table that starts after the new one ends |
| `LevelIndex.InsertIntoSegments` | levels/level_manager.go:977-1133 | for every table: no segment is found exactly if none passes the test, else overlap is reported or the table inserted as the first one decides; exactly which tables are inserted, and which although they do not fit; a fitting one at its place, with segments non-empty, tight, ordered and bounded, and one more of them only where there was no room; a registered one changes nothing |
| `LevelIndex.DetectedIff` | levels/level_manager.go:1009-1027 | the test in a segment finds an overlap exactly if there is one and it is not with the segment's last table |
| `LevelIndex.InsertedIff` | levels/level_manager.go:982-1027 | a new table is inserted exactly if it meets nothing in the level or meets the last table of the segment it goes in |
| `LevelIndex.SomewhereToGo` | levels/level_manager.go:982-1002 | a table for which no segment is found overlaps the level |
| `LevelIndex.UnfitIff` | levels/level_manager.go:982-1027 | exactly which inserted tables do not fit |
| `LevelIndex.OverlapGoesUnnoticed` | levels/level_manager.go:1009-1027 | any two overlapping tables registered one after the other are both in the level |
| `LevelIndex.OverlappingTables` | levels/level_manager.go:1009-1027 | such a pair: keys b to d and c to e |
| `LevelIndex.Refill` | levels/level_manager.go:1029-1076 | the tables of the segment fill it, overflow into the next one or start a new one: none is lost, all stay bounded, and a segment is added if and only if neither this one nor the next has room |
| `LevelIndex.Spread` | levels/level_manager.go:1029-1114 | the new segments in place of the old keep the flat level, with the table at its place, and the bounds; one more of them if and only if there was no room |
| `LevelIndex.FindSegmentOf` | levels/level_manager.go:761-777 | finds the segment that holds a registered table |
| `LevelIndex.RemoveFromSegments` | levels/level_manager.go:761-858 | the flat level loses exactly the named table, empty segments go, ranges stay tight; an absent one changes nothing |
| `LevelIndex.AppendToZero` | levels/level_manager.go:914-976 | level 0 gains the table at its end and its range grows to match, unless the id is there |
| `LevelIndex.HullOf` | levels/level_manager.go:828-838 | the scan finds the overall range of the remaining tables |
| `LevelIndex.RemoveFromZero` | levels/level_manager.go:755-858 | level 0 loses exactly the named table and its range stays tight |
| `LevelIndex.GetOverlappingTables` | levels/level_manager.go:293-325 | skipping segments by range gives what a flat scan gives, newest first for level 0 |
| `LevelIndex.RenewedIds` | levels/level_manager.go:1079-1131 | a change of a level keeps segments as they are or gives new ids, and ids stay distinct |
| `MasterRecord.MasterRecord.RegisterTable` | levels/level_manager.go:887-1150 | one registration on all levels: the flat index gains the table, counts and totals stay the real ones, the highest version of its level is the higher of the two; it fails exactly if the first key is empty or the last no longer than a version |
| `MasterRecord.MasterRecord.DeregisterTable` | levels/level_manager.go:742-867 | one de-registration on all levels, counts included, highest versions kept; it fails exactly if the first key is empty or the last no longer than a version |
| `MasterRecord.MasterRecord.ApplyRegistrations` | levels/level_manager.go:887-1150 | the whole list in order, or failure at the first bad key range |
| `MasterRecord.MasterRecord.ApplyDeRegistrations` | levels/level_manager.go:742-867 | the whole list in order, or failure at the first bad key range |
| `MasterRecord.MasterRecord.DoApplyChanges` | levels/level_manager.go:691-740 | all of the batch, de-registrations first, or on failure the levels and counts as they were |
| `MasterRecord.MasterRecord.GetLevel` | levels/level_manager.go:869-885 | grows the list of levels without changing any |
| `MasterRecord.CountsFollow` | levels/level_manager.go:1134-1147 | a change of one level changes its count and the total by the same amount |
| `MasterRecord.RenewKeepsIds` | levels/level_manager.go:1079-1131 | every segment of the record has an id of its own, before and after |
| `MasterRecord.RegisterAllKeepsFlatOk` | levels/level_manager.go:887-1150 | fitting registrations keep every level above 0 ascending and disjoint |
| `MasterRecord.DeregisterAllKeepsFlatOk` | levels/level_manager.go:742-867 | de-registrations keep every level ascending and disjoint |
| `MasterRecord.RegisterDisjoint` | levels/level_manager.go:887-1150 | tables that fit and are apart from each other can be registered one after the other, and the level then holds exactly them besides |
| `MasterRecord.ReapplyChangesNothing` | levels/level_manager.go:742-1150 | applying a batch twice is applying it once |
| `CompactionSpec.StoreKeysAreKeys` | encoding/key_encoding.go:209-222 | keys of all slab partitions together are prefix-free and have successors |
| `CompactionSpec.LeftExact` | levels/compaction.go:155-169 | the search never returns a table before the source |
| `CompactionSpec.RightExact` | levels/compaction.go:155-169 | nor one with another table between it and the source |
| `CompactionSpec.TouchesExactly` | levels/compaction.go:155-169 | the search returns exactly the overlapping tables and a table just after the source whose first key is a proper prefix of the end; without the largest version, exactly the overlapping ones |
| `CompactionSpec.OnlyLargestVersion` | levels/compaction.go:155-169 | such a table's first key has the largest version |
| `CompactionSpec.SearchReturnsNeighbour` | levels/compaction.go:155-169 | two tables, one after the other, of which the search for the first returns the second |
| `CompactionSpec.SearchedJobOk` | levels/compaction.go:76-169 | everything of the destination level that a new job does not hold lies clear of all it holds |
| `CompactionSpec.SameLevelApart` | levels/compaction.go:144-190 | jobs from one level that hold different tables have disjoint key ranges |
| `CompactionSpec.AddJobKeepsCore` | levels/compaction.go:66-227 | a job whose tables are all unlocked can join the outstanding ones; level 0 has at most one |
| `CompactionSpec.JobBatchFits` | levels/level_manager.go:498-514 | the batch of a finished job always fits, so neither the overlap error nor the missing-segment panic can arise |
| `CompactionSpec.AppliedAt` | levels/level_manager.go:498-514 | applying a job leaves each level what it had, less the job's tables, and adds the output to the destination |
| `CompactionSpec.ApplyKeepsCore` | levels/level_manager.go:498-548 | applying a job keeps the levels sound and every other job's claims true |
| `CompactionSpec.RegisterZeroKeepsCore` | levels/level_manager.go:465-496 | a new level 0 table keeps every job's claims true |
| `CompactionQueue.StepKeepsInv` | levels/compaction.go:50-573 | every step keeps levels, locks, jobs, statistics and the level 0 bound consistent |
| `CompactionQueue.RunKeepsInv` | levels/compaction.go:50-573 | so does every run |
| `CompactionQueue.LevelsStayDisjoint` | levels/compaction.go:50-573 | in every reachable state the tables of each level above 0 are in order and disjoint on unversioned keys |
| `CompactionQueue.FinishedJobsFit` | levels/level_manager.go:498-548 | in every run, whenever a job in progress is applied its batch fits the levels as they are then |
| `CompactionQueue.JobsStayApart` | levels/compaction.go:298-312 | in every reachable state outstanding jobs hold different tables and, into one level, disjoint key ranges |
| `CompactionQueue.AppliedAtMostOnce` | levels/level_manager.go:498-511 | once a job is applied, every later attempt is refused and changes nothing |
| `CompactionQueue.LevelZeroBounded` | levels/level_manager.go:361-417 | level 0 tables plus adds in flight never exceed the bound; without failed replication adds are sent in order of arrival, and wait only when there is no room |
| `CompactionQueue.CancelKeepsBooks` | levels/compaction.go:541-556 | a cancelled job is still outstanding exactly once, with statistics to match |
| `CompactionQueue.PollKeepsBooks` | levels/compaction.go:487-513 | a poll moves a job from queue to progress and loses none |
| `CompactionQueue.CompleteKeepsBooks` | levels/compaction.go:459-475 | a completed job is outstanding no more and was not done before |
| `CompactionDrops.KeptIffLevelBelow` | levels/compaction.go:50-227 | in every run a job is scheduled to keep tombstones if and only if there is a level below its destination, so below one that drops them there is no table |
| `CompactionDrops.NothingBelowShares` | levels/compaction.go:50-227 | in every reachable state no table below the destination of a job that drops tombstones shares a key with the job |
| `CompactionDrops.MovesIff` | levels/compaction.go:148-227 | in every run a job above level 0 moves its table if and only if nothing in it has expired, nothing overlaps it, and there is a level below its destination or the table has no deletes; level 0 is always merged |
| `CompactionDrops.MovesAreClean` | levels/compaction.go:148-227 | in every reachable state a move that drops tombstones is of a table without any |
| `CompactionDrops.NonePassedOver` | levels/compaction.go:148-227 | in every run each table chosen gets its job, unless it or a table of its overlap is locked or in another job |
| `CompactionDrops.QueuedInOrder` | levels/compaction.go:251-279 | in every run queued jobs leave the queue in the order in which they came |
| `CompactionDrops.CancelSpares` | levels/compaction.go:541-556 | cancelling a job leaves the others in progress alone |
| `CompactionDrops.ReleasedAll` | levels/compaction.go:558-573 | after a connection closes no job is in progress on it if and only if no poller of it was given one |
| `LevelManagers.LevelManager.ScheduleLevelZero` | levels/compaction.go:50-140 | one job for all of level 0, newest first, with the overlap of its whole range, or none if any table is locked |
| `LevelManagers.LevelManager.ScheduleUpperLevel` | levels/compaction.go:141-249 | a job for each free table with its overlap, all locked first and then queued |
| `LevelManagers.LevelManager.BuildAndLock` | levels/compaction.go:141-227 | the loop over tables builds and locks exactly the jobs that are free |
| `LevelManagers.LevelManager.SearchLevel` | levels/compaction.go:155-169 | the overlap search from the smallest key to just past the largest |
| `LevelManagers.CalculateOverallRange` | levels/compaction.go:314-332 | extremes by stored key are extremes by unversioned key |
| `LevelManagers.LevelManager.QueueOrDespatchJob` | levels/compaction.go:251-279 | to a waiting poller, else to the end of the queue |
| `LevelManagers.LevelManager.LockTablesForJob` | levels/compaction.go:298-304 | locks all tables of the job and no other |
| `LevelManagers.LevelManager.UnlockTablesForJob` | levels/compaction.go:306-312 | unlocks all tables of the job and no other |
| `LevelManagers.LevelManager.PollForJob` | levels/compaction.go:487-513 | hands out the oldest queued job, or the poller waits |
| `LevelManagers.LevelManager.PollerTimedOut` | levels/compaction.go:515-530 | the poller leaves |
| `LevelManagers.LevelManager.CancelInProgressJob` | levels/compaction.go:541-556 | a job in progress becomes available again; any other is left alone |
| `LevelManagers.LevelManager.ConnectionClosed` | levels/compaction.go:558-573 | jobs of other connections are as they were; those of this one are each made available again, to a waiting poller or at the end of the queue; none is left on it if and only if none of its own pollers was given one; outstanding jobs and locks are the same, whatever order it visits them in |
| `LevelManagers.LevelManager.CompactionComplete` | levels/compaction.go:459-475 | the job is done, its tables unlocked and the statistics updated |
| `LevelManagers.LevelManager.ApplyCompactionChanges` | levels/level_manager.go:498-548 | a job in progress is applied, completed and waiting adds sent; any other is refused |
| `LevelManagers.LevelManager.RegisterL0Tables` | levels/level_manager.go:361-396 | sent at once if there is room, else queued |
| `LevelManagers.LevelManager.MaybeDespatchPendingL0Adds` | levels/level_manager.go:550-567 | sends as many waiting adds, in order, as there is room for |
| `LevelManagers.LevelManager.ApplyL0Change` | levels/level_manager.go:465-496 | the table is appended to level 0 and no longer in flight |
| `LevelManagers.LevelManager.L0Failed` | levels/level_manager.go:398-413 | the room is given back |
| `CompactionWorker.TableStats` | sst/sstable.go:43-95 | the exact version range, and a delete ratio that is zero exactly without deletes and one exactly with nothing else |
| `CompactionWorker.ChainOfTables` | levels/compaction_worker.go:332-360 | the chain of a run of ascending tables is their concatenation, sorted and over the same keys |
| `CompactionWorker.LatestOfTables` | levels/compaction_worker.go:332-360 | for every key and version the latest entry of the runs is the latest entry of the tables |
| `CompactionWorker.MakeEntries` | levels/compaction_worker.go:226-240 | the new index entries describe the tables that were written |
| `CompactionWorker.MoveTables` | levels/compaction_worker.go:282-318 | the table itself, or nothing for a table of deletes that goes to the last level |
| `CompactionWorker.MergedOutputOk` | levels/compaction_worker.go:157-280 | what a merge hands back lies within the job's keys, in order and apart |
| `CompactionWorker.ProcessJob` | levels/compaction_worker.go:157-245 | every result of the worker is fit to be applied; what a merge writes comes from the job's tables and reads, in every snapshot at or above the last flushed version, as they do of keys that are not deleted and, with tombstones kept, of all keys; with tombstones dropped none is written and keys whose delete holds are gone; a table not moved on held only deletes |
| `CompactionReads.MembersOrder` | levels/compaction.go:97-121 | the tables of a job are asked by a read in the order in which the merge prefers them |
| `CompactionReads.OutsiderOrder` | levels/compaction.go:76-169 | a table that shares a key with a job it is not in is not in the destination level |
| `CompactionReads.ReadsUnchanged` | levels/level_manager.go:498-548 | applying a finished job changes no read, over all levels, at a version where what was written reads as what was taken |
| `CompactionReads.KeyReadsUnchanged` | levels/level_manager.go:498-548 | the same key by key |
| `CompactionReads.StoredAfter` | levels/level_manager.go:498-548 | afterwards the index still describes the stored tables |
| `CompactionReads.Compact` | levels/compaction_worker.go:157-245 | a job from merge to changed index, with tombstones kept, changes no read at or above the last flushed version |
| `CompactionReads.ReadIsLatest` | levels/level_manager.go:326-354 | a read finds what a query merge over level 0 tables, newest first, and a chain for each level yields |
| `LiveReads.LiveStays` | levels/level_manager.go:498-548 | applying a job takes no value away that is shown at a version where the written tables keep the values |
| `LiveReads.VanishedShows` | levels/level_manager.go:498-548 | a key that reads as deleted and vanishes shows the same, if what other tables hold of it is in levels above and not older |
| `LiveReads.ShowsUnchanged` | levels/level_manager.go:498-548 | a job that drops tombstones changes no value shown of a key, if it reads the key as not deleted or deletes it for good, and the same is true of other tables |
| `LiveReads.AboveIsNewer` | levels/compaction.go:50-227 | which it is if newer lies above older and nothing below the destination shares a key with the job |
| `LiveReads.NewerAboveKept` | levels/level_manager.go:498-548 | applying a job keeps newer above older |
| `LiveReads.ArrivalAbove` | levels/level_manager.go:465-496 | and so does a table that arrives with nothing older |
| `CompactionRuns.StepStored` | levels/level_manager.go:465-548 | every step leaves every table of the index and on its way in the store |
| `CompactionRuns.StepReads` | levels/level_manager.go:498-548 | a step by which no table arrives changes no read at a version not below the bound of the job it applies, if that keeps tombstones |
| `CompactionRuns.ReadsStay` | levels/level_manager.go:498-548 | in every run, while no table arrives and the jobs applied keep tombstones, no read at or above their bounds changes, whenever the workers ran |
| `CompactionRuns.LiveStay` | levels/level_manager.go:498-548 | in every run, while no table arrives, a value shown at or above the bounds of the jobs applied is still shown, whichever of them drop tombstones |
| `CompactionRuns.RunKeepsAbove` | levels/level_manager.go:465-548 | in every run in which tables arrive in order, newer lies above older |
| `CompactionRuns.ShownStay` | levels/level_manager.go:498-548 | in every such run, while no table arrives, reads at or above the bounds show the same values, whichever of the jobs drop tombstones, if those delete for good what they read as deleted |
| `CompactionRuns.NoneWritten` | levels/compaction_worker.go:157-318 | in every run a job that drops tombstones leaves none in the tables applied for it, moves included |
| `CompactionRuns.Work` | levels/compaction_worker.go:157-245 | what a worker leaves in the store for a job outstanding in some state is what the run needs of it at every later one |
| `SegmentStore.Store.GetSegment` | levels/level_manager.go:1161-1178 | what cache or object store hold; one read from the object store is in the caches afterwards, and nothing else changes |
| `SegmentStore.Store.SegmentToAdd` | levels/level_manager.go:1186-1192 | the new segment resolves and waits to be flushed |
| `SegmentStore.Store.SegmentToRemove` | levels/level_manager.go:1194-1205 | an unflushed segment is forgotten, any other is to be deleted, and all others still resolve |
| `SegmentStore.Store.Flush` | levels/level_manager.go:1334-1436 | afterwards the object store holds exactly the live segments, also after a rollback that had lost one, and every id resolves |
| `SegmentStore.Store.ValidResolves` | levels/seg_cache.go:33-74 | every live id resolves to its segment and none is marked for deletion |
| `SegmentStore.Store.ApplyBatch` | levels/level_manager.go:707-729 | a batch that succeeds keeps every id resolving; after one that fails all is as before if and only if it replaced no unflushed segment |
| `SegmentStore.RollbackLosesSegment` | levels/level_manager.go:707-729 | a failed batch after which a live id resolves to nothing |
| `StructCodec.RecordUndone` | levels/structs.go:186-218 | a table entry decodes to itself without its creation time, whatever follows |
| `StructCodec.SegmentRoundTrip` | levels/structs.go:152-172 | a segment decodes to itself but for creation times, whatever follows |
| `StructCodec.SerializeSegment` | levels/structs.go:152-159 | the loop appends the encoding |
| `StructCodec.DeserializeSegment` | levels/structs.go:161-172 | the loop reads what the decoder reads |
| `StructCodec.MasterRoundTrip` | levels/structs.go:403-492 | the master record decodes to itself, whatever follows |
| `StructCodec.OrderDoesNotMatter` | levels/structs.go:414-425 | whatever order a map is written in, the same map is read back |
| `SkiplistLevel.InitKeepsInv` | arenaskl/iterator.go:173-175 | initialising the private tower disturbs no other insert |
| `SkiplistLevel.CheckPrevKeeps` | arenaskl/iterator.go:177-183 | what reading next's prev link tells |
| `SkiplistLevel.ReadNextKeeps` | arenaskl/iterator.go:184-194 | what reading prev's next link tells: help is due exactly in the first case |
| `SkiplistLevel.HelpKeepsInv` | arenaskl/iterator.go:190-194 | the helping swap moves a prev link forward only, and leaves the link step its premise whether or not it succeeds |
| `SkiplistLevel.LinkKeepsInv` | arenaskl/iterator.go:197-209 | the linking swap keeps the level sorted, without gaps or duplicate keys, for every other insert in progress |
| `SkiplistLevel.FinalKeepsInv` | arenaskl/iterator.go:198-208 | after the last swap, failed or not, the prev link is right |
| `SkiplistLevel.StepKeepsInv` | arenaskl/iterator.go:172-223 | every access of every insert keeps what all others rely on |
| `Skiplist.SeekKeepsInv` | arenaskl/iterator.go:371-393 | a read of the search keeps its splices usable however the list grows |
| `Skiplist.MissingOk` | arenaskl/iterator.go:371-393 | a key not found at the base level was met at no level |
| `Skiplist.CreateKeepsInv` | arenaskl/skl.go:140-166 | a new node is linked nowhere |
| `Skiplist.ReSeekRead` | arenaskl/iterator.go:211-222 | the repeated search cannot meet its own key above the base level |
| `Skiplist.EventKeepsInv` | arenaskl/iterator.go:120-229 | every atomic step of every goroutine keeps the list's invariant |
| `Skiplist.LevelsStaySorted` | arenaskl/iterator.go:120-229 | in every interleaving each level, walked from its head, is its linked nodes in strictly ascending order |
| `Skiplist.SubsetOfBase` | arenaskl/iterator.go:142-146 | each level's nodes are nodes of the base level, where no key comes twice |
| `Skiplist.NodesAreNeverLost` | arenaskl/iterator.go:120-229 | a node once linked on a level stays linked there |
| `Skiplist.NeverPanics` | arenaskl/iterator.go:215-219 | the panic above the base level is not reached |
| `Skiplist.QuiescentBackLinks` | arenaskl/iterator.go:172-209 | with no insert in progress on a level, prev links are exactly the reverse of next links |
| `Skiplist.SearchAnswers` | arenaskl/skl.go:204-233 | the last read of a search finds the key if and only if it is in the list at that moment |
| `Skiplist.AddAnswers` | arenaskl/iterator.go:120-229 | in every interleaving an add works on its own key, and one that is finished and did not run out of memory has left a node with that key in the list, its own or the one it found |
| `Skiplist.TowersComplete` | arenaskl/iterator.go:148-229 | in every interleaving a node belongs to the add that made it; once that is done the node is linked on exactly the levels of its tower or, if another add of the key was faster, on none |
| `Memtable.Arena.Alloc` | arenaskl/arena.go:73-93 | succeeds exactly if the padded block and its overlay fit; the block is aligned, new and inside |
| `Memtable.NodeReq` | arenaskl/node.go:56-72 | a truncated node and what is laid over it make a full node |
| `Memtable.OverheadIsTwoNodes` | mem/memtable.go:31-37 | the reserved overhead is what head and tail take |
| `Memtable.LinkedKVMap.Put` | mem/linked_kvmap.go:32-62 | keeps the order of first puts and the last entry per unversioned key |
| `Memtable.LinkedKVMap.Get` | mem/linked_kvmap.go:65-71 | the value last put, if any |
| `Memtable.Batch.AddEntry` | mem/batch.go:26-34 | the size counted covers the worst case of all entries kept |
| `Memtable.EntryReqsFit` | arenaskl/skl.go:64-66 | an entry's allocations, overlay included, need no more than its worst-case size, but for a beaten one if and only if its value is longer than what its tower leaves unused |
| `Memtable.RoomForRequest` | mem/memtable.go:74-85 | what the next allocation of a reserved write needs is there |
| `Memtable.StepKeepsAccounts` | mem/memtable.go:69-120 | every atomic step of every writer keeps counter, arena and blocks consistent |
| `Memtable.StepKeepsInv` | mem/memtable.go:69-120 | and every writer within its reservation, unless a beaten entry exceeds its worst case |
| `Memtable.ReservedWritesFit` | mem/memtable.go:69-120 | in no interleaving in which beaten entries fit does a write that got its reservation find the arena full |
| `Memtable.BeatenFindsArenaFull` | mem/memtable.go:87-104 | for every entry and height where they do not fit, a run in which a write that got its reservation finds the arena full |
| `Memtable.BlocksNeverOverlap` | arenaskl/arena.go:73-93 | every block is aligned, not at offset 0, inside the buffer with its overlay, and before any later one |
| `Memtable.RefusalsLeaveNoTrace` | mem/memtable.go:80-85 | a refused write gives back what it took |
| `Memtable.GrantedIff` | mem/memtable.go:69-85 | in every interleaving a write is let in if and only if its size and all that is held when it reserves fit the capacity |
| `Memtable.WritesAll` | mem/memtable.go:87-120 | in every interleaving a finished write has got a block for each part of each of its entries, in order, and nothing else |
| `ClusterManager.NodesToOrderedSlice` | clustmgr/mgr.go:393-401 | the nodes in ascending order |
| `ClusterManager.ChooseNode` | clustmgr/mgr.go:403-416 | the node with the lowest count, and the lowest id among those |
| `ClusterManager.ChoiceIsUnique` | clustmgr/mgr.go:393-416 | the choice is determined by counts and nodes |
| `ClusterManager.ChoiceKeepsLevel` | clustmgr/mgr.go:343-358 | choosing the least loaded keeps counts within one of each other |
| `ClusterManager.ChooseNodes` | clustmgr/mgr.go:343-358 | new replicas on distinct available nodes, each before all that remain by count and then by id, counted, with balance kept |
| `ClusterManager.KeepReplicas` | clustmgr/mgr.go:263-286 | exactly the replicas whose node stayed, in order, counted; whether a valid leader is among them, and exactly the kept valid leaders are counted |
| `ClusterManager.FillGroup` | clustmgr/mgr.go:255-316 | kept replicas, then new ones up to the number wanted, on the nodes that had the fewest replicas; counts of replicas and of kept leaders to match |
| `ClusterManager.ChooseLeaderNode` | clustmgr/mgr.go:360-391 | exactly one candidate leads, and is valid |
| `ClusterManager.FillGroups` | clustmgr/mgr.go:250-317 | every group filled by what the earlier ones took; replica counts are those of the groups, leader counts those of the kept valid leaders of all groups |
| `ClusterManager.ChooseLeaders` | clustmgr/mgr.go:318-341 | each new leader is the candidate that leads the fewest groups, kept or given so far, and the lowest id among those |
| `ClusterManager.CalculateGroupStates` | clustmgr/mgr.go:242-341 | every group as assigned, each new replica and each new leader by the load of the nodes; whether data may be lost; and from an empty state balanced replica and leader counts |
| `ClusterManager.ComputedOnce` | clustmgr/mgr.go:242-401 | there is exactly one such assignment: every node that computes it from the same state gets the same |
| `ClusterManager.AssignedOk` | clustmgr/mgr.go:242-341 | an assigned group has min(active, max) distinct active nodes and one leader, which is valid |
| `ClusterManager.LeaderKept` | clustmgr/mgr.go:277-284 | a valid leader whose node stayed is kept |
| `ClusterManager.LeaderFromValid` | clustmgr/mgr.go:320-338 | a new leader is a valid replica that stayed whenever there is one |
| `ClusterManager.UpdateValid` | clustmgr/mgr.go:164-180 | a replica that does not lead is valid exactly if marked with the version it joined at |
| `ClusterManager.ClusteredStateManager.HandleActiveNodes` | clustmgr/mgr.go:131-226 | the stored state is recalculated for the active nodes, bounced ones counted as new, from marks read earlier; reports exactly whether data may be lost |
| `ClusterManager.ClusteredStateManager.MarkGroupAsValid` | clustmgr/client.go:476-503 | the marked version only grows |
| `ClusterManager.EveryStateSound` | clustmgr/mgr.go:131-226 | over every history, with marks made between a read and its compare-and-set, each stored state gives every group min(active, max) distinct active nodes and one valid leader |
| `ClusterManager.SurvivingLeaderLeads` | clustmgr/mgr.go:263-286 | over every history a leader whose node is there unbounced leads on |
| `ClusterManager.NewLeaderHasData` | clustmgr/mgr.go:320-338 | over every history a leader comes from replicas that led or were read as marked for their own joining, whenever one stayed |
| `ClusterManager.MarkWasMade` | clustmgr/client.go:476-503 | a mark that was not there was made by an event since, at a time when its version had been reached |
| `ClusterManager.ValidWasMarked` | clustmgr/mgr.go:164-180 | over every history a valid replica that does not lead was marked with the version it joined at, after that version was reached |
| `ClusterManager.OldMarksNeverValidate` | clustmgr/mgr.go:169-177 | a replica that joins gets a version above all marks made so far, and is marked with it later only by an event after its joining |
| `GroupCoordinator.UpdateSupportedProtocols` | kafkaserver/group_coordinator.go:364-372 | one more, or one less, for each protocol of the list |
| `GroupCoordinator.Group.CanSupportProtocols` | kafkaserver/group_coordinator.go:375-383 | whether one of them is supported by all members |
| `GroupCoordinator.Group.ChooseProtocol` | kafkaserver/group_coordinator.go:385-413 | the winner is supported by all members, and no protocol has more members voting for it, where a member votes for the first in its list that all support |
| `GroupCoordinator.Group.VoteOf` | kafkaserver/group_coordinator.go:393-402 | a vote for the first protocol of the list that all support, and for no other |
| `GroupCoordinator.Group.CreateMemberInfos` | kafkaserver/group_coordinator.go:738-757 | every member's metadata for the protocol, or failure if one has none |
| `GroupCoordinator.MetaIsFirst` | kafkaserver/group_coordinator.go:738-757 | the metadata is that of the first protocol with the name |
| `GroupCoordinator.AddKeepsMembersOk` | kafkaserver/group_coordinator.go:619-641 | counts stay true and a common protocol stays when a member joins |
| `GroupCoordinator.UpdateKeepsMembersOk` | kafkaserver/group_coordinator.go:643-650 | and when one changes its protocols |
| `GroupCoordinator.RemoveKeepsMembersOk` | kafkaserver/group_coordinator.go:652-666 | and when one goes |
| `GroupCoordinator.Group.MaybeCompleteJoin` | kafkaserver/group_coordinator.go:668-686 | completes exactly when every member has joined, under the next generation, and otherwise changes nothing |
| `GroupCoordinator.Group.SendJoinResults` | kafkaserver/group_coordinator.go:688-705 | the elected protocol; every member is answered once, with the same leader, protocol and generation; panics exactly if a member has no metadata for the protocol |
| `GroupCoordinator.Group.Join` | kafkaserver/group_coordinator.go:415-502 | accepted exactly with a protocol all support; members, state, leader, generation, assignments and answers afterwards; an established group that changes must rebalance |
| `GroupCoordinator.Group.JoinAwaiting` | kafkaserver/group_coordinator.go:462-480 | the current state again for an unchanged member, else a rebalance; with no members it panics |
| `GroupCoordinator.SameInfosAgree` | kafkaserver/group_coordinator.go:550-564 | infos that compare as unchanged name the same protocols, with the same metadata, and give the same vote whatever is supported |
| `GroupCoordinator.Group.JoinActive` | kafkaserver/group_coordinator.go:481-497 | the current state again for a follower, a rebalance for the leader or a new member |
| `GroupCoordinator.Group.Leave` | kafkaserver/group_coordinator.go:878-906 | exactly those named are gone, the rest rebalances; the leader changes only if it has gone, to a member, and only then, or when none is left, are the assignments dropped |
| `GroupCoordinator.Group.Sync` | kafkaserver/group_coordinator.go:779-848 | exactly when it panics; otherwise exactly when it is heard, which assignments are then in force, and that the group becomes active exactly when every other member has a sync completion waiting, of this generation or an earlier one |
| `GroupCoordinator.Group.HandleJoinTimeout` | kafkaserver/group_coordinator.go:576-610 | exactly those that rejoined remain, under the next generation with its elected protocol and one answer each; the leader changes only if it has gone, to a member |
| `GroupCoordinator.Group.HandleSyncTimeout` | kafkaserver/group_coordinator.go:707-736 | exactly those with a sync completion waiting, of this generation or an earlier one, remain and must rejoin; the leader changes only if it has gone, to a member |
| `GroupCoordinator.Group.InitialJoinTimerExpired` | kafkaserver/group_coordinator.go:510-528 | completes the join once all are in; what the group promises survives if and only if it does not end on an empty group |
| `GroupCoordinator.Group.SessionTimeoutExpired` | kafkaserver/group_coordinator.go:914-961 | removes exactly a member that is new or waits for nothing; only that one can lose the lead; the rest begin a generation exactly if that completes their join, and an established group rebalances |
| `GroupCoordinator.Step` | kafkaserver/group_coordinator.go:415-961 | one request or timer: generations do not go back, completions stay of their generation, only a sync makes the group active; a sound group stays sound if and only if the event does not break it, and a broken one stays broken |
| `GroupCoordinator.Run` | kafkaserver/group_coordinator.go:415-961 | in every run generations are fixed and answers of one generation agree; with well-behaved clients the group ends sound if and only if no event breaks it |
| `GroupCoordinator.GenerationIsFixed` | kafkaserver/group_coordinator.go:415-961 | between any two moments of a run generations do not go back, and while one is established its members, leader and protocol are fixed |
| `GroupCoordinator.FreshAtBeginning` | kafkaserver/group_coordinator.go:688-705 | when a generation begins all sync completions are of it if and only if none is waiting |
| `GroupCoordinator.FreshThroughout` | kafkaserver/group_coordinator.go:540-831 | completions that are all of the generation stay so while it lasts |
| `GroupCoordinator.StaleSince` | kafkaserver/group_coordinator.go:540-831 | a completion that is stale at some moment has been since any earlier moment of the generation, with the same members and leader |
| `GroupCoordinator.ActiveMeansSynced` | kafkaserver/group_coordinator.go:779-831 | where the others can go without nobody, the group becomes active only when every member has synced in the generation |
| `GroupCoordinator.GoWithout` | kafkaserver/group_coordinator.go:779-831 | where they can go without a member, syncs of the others alone make the group active |
| `GroupCoordinator.StaleActivation` | kafkaserver/group_coordinator.go:540-548 | a run in which a group becomes active though one member synced only in the generation before |
| `GroupCoordinator.TimerOnEmptyGroup` | kafkaserver/group_coordinator.go:510-528 | a run in which the timer leaves a group of no members waiting for assignments, and the next join panics |
| `GroupCoordinator.SyncOnEmptyGroup` | kafkaserver/group_coordinator.go:779-831 | a run in which a member that has left syncs, which panics |
| `GroupCoordinator.SyncWithStranger` | kafkaserver/group_coordinator.go:833-848 | a run in which the leader assigns to a member that is not there, which panics |
| `Windows.FindWindow` | opers/aggregate.go:421-430 | whether a window with that start is open |
| `Windows.AddWindow` | opers/aggregate.go:432-449 | the window goes to its place and the duplicate panic is not reached |
| `Windows.StartEndIs` | opers/aggregate.go:336-338 | the first window end tried is the first on the grid after the time or, before time 0 and off the grid, the second |
| `Windows.NoneMissed` | opers/aggregate.go:336-375 | all windows that contain a time are tried if and only if it is not before 0 at a distance from the grid of at most the size |
| `Windows.RowBeforeZeroIsLost` | opers/aggregate.go:336-338 | a row that is not late, is in a window and is put in none |
| `Windows.ClosedWindowReopens` | opers/aggregate.go:505-508 | a watermark that goes back, after which a closed window is open again |
| `Windows.WindowedAggregate.ClosablePrefix` | opers/aggregate.go:519-537 | windows that can be closed come before those that cannot |
| `Windows.WindowedAggregate.AugmentRow` | opers/aggregate.go:326-375 | an accepted row goes to exactly the windows tried for it, which are the hop-aligned windows that contain it if and only if none is missed; none of them closed before |
| `Windows.WindowedAggregate.AugmentWithWindows` | opers/aggregate.go:309-380 | the rows of the batch in order, each once with each of the windows tried for it, in the order of the windows; late rows dropped; no other window is opened |
| `Windows.RowsDetermined` | opers/aggregate.go:309-380 | rows in that order are determined by which they are |
| `Windows.WindowedAggregate.HandleBarrier` | opers/aggregate.go:505-546 | closes the longest run of windows the watermark has passed; closed windows stay closed if and only if it does not go back behind one |

## Left out

- `CompactionMerge.MergeSSTables`: the filters for dead versions and expired prefixes between a table and the merge are not modelled; with tombstones dropped, one condition is stated under which a deleted key is gone and one under which it comes back, and between them it is left open, because the calls of IsValid are repeated where a table is cut and each of them drops more.
- `MasterRecord.MasterRecord.RegisterTable`: of the statistics only the table counts and their total are modelled, not bytes and entries, in total, per level or coming in.
- `MasterRecord.MasterRecord.DeregisterTable`: the same.
- `CompactionMerge.Query`: with tombstones dropped and an eligible version of the largest 64-bit number only order and origin of the result are stated.
- `CompactionReads.Compact`: a job that drops tombstones is not covered; see `CompactionRuns.LiveStay` and `CompactionRuns.ShownStay`.
- `CompactionRuns.ReadsStay`: the same; and an id stands for one table throughout a run, as ids are unique.
- `CompactionRuns.ShownStay`: that tables arrive in order is a premise; the order in which memtables are written out and registered is not modelled.
- `CompactionQueue.StepKeepsInv`: the choice of level and tables to compact, by ratio and score, is left open; any level and any of its tables may be scheduled. The follow-up check for more compaction is a step of its own.
- `LevelManagers.LevelManager.ConnectionClosed`: the order in which jobs are visited while the map changes is a parameter.
- `LevelManagers.LevelManager.PollerTimedOut`: the heap order of waiting pollers is not modelled, so nothing is said about which poller gets a job.
- `LevelManagers.LevelManager.RegisterL0Tables`: cluster versions and replication sequence numbers, which reject or skip a batch before it gets here, are not modelled.
- `GroupCoordinator.Group.Sync`: of an assignment only the member it names is modelled; what a sync is answered, the contents of its assignment or an error code, is not.
- `GroupCoordinator.Group.Join`: member ids that wait to be confirmed (JoinGroup version 4 and later) are not modelled.
- `Memtable.LinkedKVMap.Put`: the doubly linked list is a sequence; aliasing of nodes is not modelled, and neither is deletion.
- `Memtable.StepKeepsInv`: whether an entry is beaten is an event's choice and not tied to what other writers add; the panic when two writers set the same key is not modelled.
- `Memtable.Arena.Alloc`: sizes near 2^32, where the padded size could wrap, are not modelled.
- `Skiplist.EventKeepsInv`: values, deletion and re-insertion of deleted keys are not modelled; the list's height, which only decides where a search starts, is any level.
- `Windows.WindowedAggregate.HandleBarrier`: reloading open windows after a restart, and the aggregates themselves, are not modelled.
- `SegmentStore.Store.Flush`: a flush is one step that succeeds; changes during a flush and crashes inside it are not modelled.
- `LevelIndex.InsertIntoSegments`: segments are held inline instead of by id; that ids resolve is the subject of `SegmentStore`.
- Float keys, the precision and scale of decimal keys, record batches, checksums and hashing.
- Validation of the index on request, prefix retentions, dead-version ranges and their completion counters.
- Network, HTTP, command line, configuration, metrics, lifecycle and logging.
- Expressions, operators other than windowed aggregation, backfill, bridges, the fetch cache and the command manager.
