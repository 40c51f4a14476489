# dLSM in Dafny

dLSM is a log-structured merge tree whose tables live in remote memory.  Many writers insert into
memtables without a lock, flushes and compactions run side by side, and compactions may run next to the
data.  This project models the parts of it where concurrency or a data format makes correctness hard to
see, and proves what those parts promise for every input, every interleaving and every run.

- `Keys`, `ReadSets`: internal keys, and what it means for a set of entries to answer a read.
- `WritePath`, `WritePathProof`, `WritePathLimit`, `WritePathProgress`: writers that draw sequence numbers and find
  the memtable of their number, and flush threads that turn full memtables into level-0 files in order.
- `Lsm`, `LsmSteps`: the store as a state machine of insertions, flushes, picks, moves and compactions that finish
  in any order, on top of `Versions` (reading a version), `VersionBuilder` (applying edits), `Scheduler` (choosing
  files) and `Merge` (the loops that rewrite entries).
- `Refinement`: writers, flush threads and compactions side by side; every interleaving keeps write path and store
  together.
- `Snapshots`: the snapshot list and what it protects.
- `Subcompaction`, `SplitCompaction`: splitting one compaction into ranges, and what the ranges write together.
- `SuperVersions`, `SuperVersionNumbers`: the thread-local cache of super versions, its reference counts and its
  version numbers.
- `SkipList`, `SkipListProgress`: the memtable's skip list under concurrent compare-and-swap.
- `DbIter`: the two-direction database iterator.
- `Block`, `BlockBuilder`, `BlockIter`, `Log`, `LogSoundness`, `Codec`, `EditCodec`: the block format, the log
  format, and the encodings that pass between compute and memory node.

Protocols are step relations: a step is one atomic operation or one critical section.  In the write path
two mutexes guard different parts.  Switching the active memtable, searching the list and installing flush
results hold `superversion_memlist_mtx`; picking a memtable to flush holds `FlushPickMTX`.  A switch takes
three steps here, because a picker may run in the middle of it.  Fields such as `counted`, `owners`,
`chain` or `written` record history for the proofs; no step depends on them.

Points where the model had to take a position:

- User keys are reals.  They are only ever compared, and every countable linear order embeds in the reals.
- "A higher file number is newer" is a hypothesis on level 0 (`Lsm.Flush`): the number is drawn after the
  memtable is picked and outside the lock (db/db_impl.cc:781).
- The level properties are those of the merge that runs next to the data without sub-compaction, whose outputs
  never share a user key.  On a level ordered by internal key, where neighbours may share one, the pick takes the
  successor without looking at its flag, and looks only one file ahead.  `Scheduler.PickIsSound` says exactly when
  the files it takes are free and everything it leaves behind is newer; `Scheduler.TakenFileIsPicked` and
  `Scheduler.OlderStaysBehind` show the two ways in which this fails.
- Grouping the ranges of a compaction is meant to leave no more than the allowed number, and does not always: a
  file of exactly a quarter of the maximum size is small to the estimate and big to the loop.
  `Subcompaction.FewGroupsExactly` gives the counts for which the bound holds.
- A compaction is cut behind the first entry of each boundary key, so the versions of one user key may end up in
  two outputs, and a boundary that occurs twice makes two ranges take the same entries.
  `SplitCompaction.ApartExactly` and `Subcompaction.PartitionExactly` say exactly when.
- A version saved once with many edits differs from one saved after each when a base file is deleted and added
  again: the builder takes it out of the deleted files and writes it from both sides.
  `VersionBuilder.SaveBothWays` says exactly when the two agree.
- Flush and the near-data merge ignore snapshots.  `Merge.SnapshotSurvives` says exactly which snapshot reads
  survive that.
- Where a comment and the code disagree, the model follows the code: `restart_index_` is described as the index of
  the restart block in which the current entry falls, and may in fact be one behind (`BlockIter.Iter.ParseNextKey`).
- The same log byte that gives a fragment's type also carries the reader's own marks for the end and for a bad
  record (values 5 and 6), so a fragment can end the read; the model does what the code does.
- An installation that commits several flushed memtables at once is one `Lsm.Flush` step per memtable.

## Model

| member | source | states |
|---|---|---|
| `Keys.PackRoundTrip` | db/dbformat.h:115-127 | unpacking the tag of an internal key gives back its sequence number and type |
| `Keys.CompareIsTotalOrder` | db/dbformat.cc:41-57 | internal keys are totally ordered: antisymmetric, transitive, and equal only if identical |
| `Keys.NewerComesFirst` | db/dbformat.cc:41-57 | of two entries of one user key the one with the larger sequence number comes first |
| `WritePathProof.RunKeepsInv` | db/db_impl.cc:3566-3748 | in every run of writers and flush threads, with no more writers than a memtable has numbers: ranges tile, tables hold only their own numbers, every number handed out is in a table or on its way, counters and flush states are exact |
| `WritePathProof.NextTableFits` | db/db_impl.cc:3690-3722 | a number beyond the active table belongs to the table the switching writer makes next |
| `WritePathProof.SearchFinds` | db/memtable_list.cc:201-208 | a writer whose number is below the active table always finds its table in the immutable list, so the pointer it uses is never null |
| `WritePathProof.AbleIsFull` | db/memtable.h:153-162 | a table may be flushed only when it holds every number of its range, and its counter never exceeds the range |
| `WritePathProof.NoLateInsert` | db/db_impl.cc:3604-3624 | no writer still has to insert into a table that a flush may have read |
| `WritePathProof.BuildIsComplete` | db/memtable_list.cc:794-810 | what a flush writes is exactly the range of its memtable |
| `WritePathProof.PickIsNext` | db/memtable_list.cc:358-387 | memtables are picked oldest first, each once |
| `WritePathProof.CommittedInOrder` | db/db_impl.cc:1735-1817 | whatever the order in which flushes finish, level 0 receives the tables oldest first, each whole and once, and all its numbers are below those still in the list or not yet inserted |
| `WritePathProof.CountersExact` | db/memtable_list.cc:525-544 | between switches the counters are the length of the list and the number of requested tables, and the list never holds more than sixteen |
| `WritePathProof.StepKeepsInv` | db/db_impl.cc:968-1010 | every single step of a writer or a flush thread keeps all of this |
| `WritePathProgress.RunMoves` | db/memtable.h:153-162 | in every run a table that has counted its whole range is flushable or some writer is about to look at its counter, every number a table holds is counted or about to be, and a finished oldest table has a thread that is about to install |
| `WritePathProgress.FullIsAble` | db/memtable.h:153-162 | a table that holds its whole range and that no writer is at work on may be flushed, and the thread that has picked it can build |
| `WritePathProgress.FlushersGoOn` | db/memtable_list.cc:794-810 | while the list is not empty and no writer is busy with a number of an immutable table, some flush thread can go on |
| `WritePathProgress.QuietIsCommitted` | db/db_impl.cc:1735-1817 | when all flush threads rest and all tables have been picked, level 0 has every table but the active one |
| `WritePathProgress.AloneItWrites` | db/db_impl.cc:3643-3748 | from every reachable state a writer left alone, with the lock free and room in the list, finishes within eight steps, and its number is in a memtable |
| `WritePathLimit.RoutingLimit` | db/db_impl.cc:3694-3722 | writes always reach the memtable their number belongs to if and only if there are no more writers than a memtable has numbers |
| `WritePathLimit.MisroutedRun` | db/db_impl.cc:3694-3722 | with one writer more there is a run in which the switching writer is given the wrong table |
| `LsmSteps.RunKeepsInv` | db/version_set.cc:955-1010 | in every run of insertions, switches, flushes, picks, moves and compactions finishing in any order: levels stay sorted and disjoint, shallower is newer, compactions in flight stay apart, and the store reads like everything ever written |
| `LsmSteps.SealKeepsInv` | db/db_impl.cc:3698-3712 | switching to a new memtable while writers of the old one are still at work keeps the invariants |
| `LsmSteps.InsertKeepsInv` | db/db_impl.cc:3604-3624 | an insertion into the memtable its number belongs to, be that active or immutable, keeps the invariants and becomes part of the history |
| `LsmSteps.FlushKeepsInv` | db/db_impl.cc:1769-1837 | installing a flush keeps the invariants and every latest read |
| `LsmSteps.PickKeepsInv` | db/version_set.cc:1621-1733 | a new compaction takes only free files, and neither it nor those in flight can come to overlap |
| `LsmSteps.FinishKeepsInv` | db/version_set.cc:671-848 | a finished compaction replaces its inputs on two levels, whatever else was installed meanwhile, and no latest read changes |
| `LsmSteps.MoveKeepsInv` | db/db_impl.cc:1384-1409 | moving a file down a level without rewriting it keeps order, age and reads, and clears its flag |
| `LsmSteps.PickedApart` | db/version_set.cc:517-563 | two compactions in flight share no file, and on one level their key ranges do not meet |
| `LsmSteps.PickedClear` | db/version_set.cc:517-563 | no other file of the output level meets the range of a new compaction |
| `LsmSteps.VersionIsOk` | db/version_set.cc:732-848 | the invariants make every installed version one that a lookup can trust |
| `LsmSteps.ScoresNeverUnderflow` | db/version_set.cc:1259-1290 | the files under compaction never outnumber or outweigh the files of their level, so no score is computed from a negative difference |
| `LsmSteps.GetStored` | db/memtable_list.cc:156-175 | the memtables newest first, however far they are filled, and then the version answer for all that is stored |
| `LsmSteps.StoreGet` | db/db_impl.cc:3395-3438 | a lookup at or above every number inserted, through active memtable, immutable list and version, answers for everything ever written |
| `LsmSteps.LogAndApply` | db/version_set.cc:955-1010 | a builder on the current version takes the edit and saves the version, flags and in-progress lists of the next state |
| `LsmSteps.FlushIsInstallable` | db/db_impl.cc:1769-1837 | a builder on any reachable version can take the edit of a flush |
| `LsmSteps.FinishIsInstallable` | db/version_set.cc:671-729 | the same for a compaction's edit, whatever was installed since it was picked |
| `LsmSteps.MoveIsInstallable` | db/db_impl.cc:1384-1409 | the same for the edit of a trivial move |
| `Refinement.Follows` | db/db_impl.cc:3566-3748 | whatever step writers and flush threads take next to whatever compactions, the store can take its part in it |
| `Refinement.FlushesHappen` | db/db_impl.cc:1735-1817 | an installation of several flushed memtables is as many flushes of full memtables, oldest first |
| `Refinement.InsertHappens` | db/db_impl.cc:3604-3624 | a writer's insertion is one into a memtable the store still has |
| `Refinement.FlushHappens` | db/memtable_list.cc:821-896 | a full memtable that is not active can always be flushed and its file installed |
| `Refinement.CompactionsKeep` | db/db_impl.cc:1384-1409 | picks, moves and finished compactions leave the correspondence with the write path alone |
| `Refinement.InterleavingsAreSafe` | db/db_impl.cc:3566-3748 | in every interleaving of writers, flush threads, picks, moves and compactions that finish: the store is in a state its own steps reach, has the memtables of the write path and exactly the entries inserted, and reads like them |
| `Refinement.RunGoesOn` | db/db_impl.cc:3566-3748 | every such interleaving goes on with every step the write path can take |
| `Refinement.RunIsMatched` | db/db_impl.cc:3566-3748 | for every run of the write path there is a run of the store that ends with its memtables, has written exactly the entries inserted, and reads like them |
| `Refinement.FlushOldest` | db/memtable_list.cc:821-896 | building the table of the oldest full memtable and installing its file is a flush of the store |
| `Refinement.StartCompaction` | db/version_set.cc:1621-1733 | what the scheduler takes in any reachable state is a new compaction of the store; when it takes nothing every file is blocked |
| `Refinement.MoveDown` | db/db_impl.cc:1384-1409 | installing the edit of a trivial move is a move of the store |
| `Refinement.FinishCompaction` | memory_node/memory_node_keeper.cpp:585-677 | merging the inputs of a job in flight next to the data and installing the tables in their place is a compaction that finishes |
| `Refinement.InputsInOrder` | db/version_set.cc:1484-1512 | the inputs of a job in flight have different keys, so their merge always has a result |
| `Versions.SeekGet` | db/version_set.h:60-74 | seeking to the key at a sequence number and looking at one entry reads a sorted table |
| `Versions.FindFile` | db/version_set.cc:95-113 | binary search gives the first file whose largest key is not below the target |
| `Versions.GetLevelZero` | db/version_set.cc:267-291 | probing the covering level-0 files by descending number gives the newest visible entry of the level |
| `Versions.GetLevel` | db/version_set.cc:292-309 | on a deeper level the one file found by binary search answers for the whole level |
| `Versions.Get` | db/version_set.cc:311-398 | the level-by-level lookup returns the newest visible entry of all files of all levels, or nothing if there is none |
| `VersionBuilder.InsertAdded` | db/version_set.cc:608-625 | the added files stay ordered by smallest key and number |
| `VersionBuilder.SaveLevel` | db/version_set.cc:745-848 | the merge writes each file that is not deleted once for being in the base and once for being added; where the order tells base and added files apart the result is ordered and is base plus added minus deleted |
| `VersionBuilder.Builder.Apply` | db/version_set.cc:671-729 | an edit's files join the ordered added files of their levels; its deletions join the deleted ids, less those it adds again |
| `VersionBuilder.Builder.SaveTo` | db/version_set.cc:732-798 | the same for every level, with the flagged files listed |
| `VersionBuilder.AscendingIsUnique` | db/version_set.cc:608-625 | a level is determined by its set of files |
| `VersionBuilder.EditMeans` | db/version_set.cc:671-729 | an edit leaves the files it adds, and those there were that it does not delete |
| `VersionBuilder.SavedExactly` | db/version_set.cc:757-848 | a level is saved as base plus added minus deleted, in order, if and only if every base file that is added again is deleted in the end |
| `VersionBuilder.SaveOnceExactly` | db/version_set.cc:1136-1151 | the level saved once with all edits is the last of the levels saved edit by edit if and only if every base file that is added again is deleted in the end |
| `VersionBuilder.ReaddedIsTwice` | db/version_set.cc:711-722 | a base file that one edit deletes and a later one adds again is saved twice by one builder and once by a builder for each edit |
| `VersionBuilder.SaveBothWays` | db/version_set.cc:1136-1151 | one builder for all edits and one builder for each save the same level if and only if every base file that is added again is deleted in the end |
| `Scheduler.GetRange` | db/version_set.cc:1452-1471 | the smallest and largest user key of a list of files |
| `Scheduler.GetOverlappingInputs` | db/version_set.cc:517-563 | succeeds exactly when no overlapping file is under compaction, and then returns exactly the overlapping files; on level 0 those of the least range that contains every file it meets |
| `Scheduler.SearchLevel` | db/version_set.cc:1657-1728 | the search wraps around once: it finds the first file from its start on that can be compacted, or every file is blocked |
| `Scheduler.PickFileToCompact` | db/version_set.cc:1621-1733 | what is taken, which flags are set and what the in-progress lists become; and why nothing was taken |
| `Scheduler.PickIsSound` | db/version_set.cc:1670-1680 | on a level ordered by internal key the chosen files are free and every file left is newer if and only if the file shares no boundary key with its successor, or the successor is free and shares none with its own |
| `Scheduler.TakenFileIsPicked` | db/version_set.cc:1670-1680 | a level on which the search hands out a file another compaction holds |
| `Scheduler.OlderStaysBehind` | db/version_set.cc:1670-1680 | a level of free files on which the newer version of a key goes down and the older one stays |
| `Merge.CompactOnCompute` | db/db_impl.cc:3055-3190 | the compute-side loop writes an ordered run of tables with tight bounds, each closed with the first entry that makes it big enough; for entries that parse and have their own sequence numbers it writes exactly those that answer some read at or above the smallest snapshot |
| `Merge.SurvivorsAreNeeded` | db/db_impl.cc:3104-3119 | an entry survives the drop rule if and only if it is the answer to some read at or above the smallest snapshot |
| `Merge.CompactNearData` | memory_node/memory_node_keeper.cpp:585-677 | the near-data loop writes the newest entry of every user key, into tables that share no user key, each closed with the first entry that makes it big enough |
| `Merge.BuildTable` | db/memtable_list.cc:821-896 | a flush writes the newest entry of every user key with bounds that hold even when the last key was dropped, and fails exactly on an unreadable key |
| `Merge.MergePreservesReads` | db/db_impl.cc:3055-3190 | every read at or above the smallest snapshot answers the same before and after a merge |
| `Merge.NewestPerKey` | memory_node/memory_node_keeper.cpp:585-677 | one survivor per user key, the one with the largest sequence number |
| `Merge.SnapshotSurvives` | memory_node/memory_node_keeper.cpp:585-677 | without snapshots a merge keeps the read of a key at a sequence number if and only if no newer version of the key hides the one it sees |
| `Merge.RunIsDisjoint` | memory_node/memory_node_keeper.cpp:585-677 | consecutive output tables do not even share a boundary user key |
| `Snapshots.SnapshotList.New` | db/snapshot.h:57-71 | a snapshot is appended and the list stays ordered by sequence number |
| `Snapshots.SnapshotList.Delete` | db/snapshot.h:73-87 | exactly that snapshot is unlinked |
| `Snapshots.SnapshotList.Oldest` | db/snapshot.h:48-51 | the first snapshot is a lower bound on all live ones |
| `Snapshots.SnapshotList.CompactUnderSnapshots` | db/db_impl.cc:3055-3190 | a compaction leaves what every live snapshot reads unchanged, and writes only entries that a read at or above a live snapshot or the last sequence may need |
| `Subcompaction.Take` | db/db_impl.cc:2887-3011 | a range begins behind the first entry at its lower boundary and ends with the first entry at its upper one |
| `Subcompaction.TakeAll` | db/db_impl.cc:2885-3011 | for boundaries in order that occur in the input each range is the stretch between the first entries of its two boundaries |
| `Subcompaction.SlicesCover` | db/db_impl.cc:2885-3011 | together the ranges take every entry, also when a boundary is repeated |
| `Subcompaction.PartitionExactly` | db/db_impl.cc:2885-3011 | they take every entry only once if and only if no boundary with an entry behind its first is repeated |
| `Subcompaction.TakesBetween` | db/db_impl.cc:2887-3011 | a range takes every entry strictly between its boundaries, none below its lower one, and none above its upper one unless that is repeated |
| `SplitCompaction.GenSubcompactionBoundaries` | db/version_set.cc:2150-2190 | the boundaries are the first user keys of all output-level files but the first, with the sizes of the files |
| `SplitCompaction.BoundariesFit` | db/version_set.cc:2176-2190 | for files ordered by their first keys these boundaries are in order and occur in the input; they increase if and only if no two of these files begin with the same user key |
| `Subcompaction.OutputsReadAlike` | db/db_impl.cc:2876-3011 | the outputs of sorted ranges, one behind the other, read like the input for every read not older than any range's smallest snapshot |
| `Subcompaction.OutputsSorted` | db/db_impl.cc:2876-3011 | they are sorted when the ranges partition the input |
| `SplitCompaction.Ranges` | db/db_impl.cc:2771-2819 | the boundaries are where the files behind the groups begin, and every file of a group but its first begins in the group's range; the ranges take every entry of the input, each only once if and only if no boundary is repeated; there are no more than allowed when there is room |
| `SplitCompaction.RepeatedBoundary` | db/db_impl.cc:2887-3011 | an input of which two equal boundaries take an entry twice |
| `SplitCompaction.CompactInRanges` | db/db_impl.cc:2771-3011 | a compaction split at grouped boundaries merges each range with the snapshot it found and cuts its tables by size; it reads like its input, and unless files begin with the same user key its tables are together one run by their recorded bounds |
| `SplitCompaction.RunsJoin` | db/db_impl.cc:2831-2860 | the tables of ranges that partition the input follow each other without overlap |
| `SplitCompaction.SplitIsWhole` | db/db_impl.cc:2876-3011 | split and unsplit merge write the same entries if and only if the unsplit one keeps the first entry of every range |
| `SplitCompaction.ApartExactly` | db/db_impl.cc:2876-3011 | the outputs of a range share no user key with those before it if and only if the entries on the two sides of the cut have different ones |
| `Subcompaction.MakeGroups` | db/db_impl.cc:2771-2819 | the groups tile the ranges without gap or overlap and conserve the total size; each goes on exactly while it counts too few ranges or the next one is small |
| `Subcompaction.RuleDetermines` | db/db_impl.cc:2795-2817 | this rule leaves no choice: two ways to tile the ranges by it are the same |
| `Subcompaction.FewGroups` | db/db_impl.cc:2785-2817 | grouping leaves at most the allowed number of ranges when the big files are fewer, or all files of a quarter or more fit |
| `Subcompaction.RoomWithoutQuarters` | db/db_impl.cc:2785-2817 | without a file of exactly a quarter of the maximum they always fit |
| `Subcompaction.FewGroupsExactly` | db/db_impl.cc:2785-2817 | for given numbers of big files and of files of a quarter or more, every list is grouped within the bound if and only if they fit |
| `Subcompaction.TooManyGroups` | db/db_impl.cc:2785-2817 | where they do not fit, a list with these numbers, with more ranges than allowed, that is cut into too many groups |
| `Subcompaction.QuarterBreaksBound` | db/db_impl.cc:2785-2817 | five files, one of them exactly a quarter, are cut into three groups where two are allowed |
| `SuperVersions.RunKeepsInv` | db/db_impl.cc:1866-1963 | in every interleaving of readers, the installer and its scrape of each slot, slots, holders, counters and clean-ups stay consistent |
| `SuperVersions.RefsAreHeld` | db/db_impl.cc:114-127 | a reference count is the number of references held by the database, by slots, by readers and by the scrape |
| `SuperVersions.UsedIsAlive` | db/db_impl.cc:1898-1940 | what a reader uses has not been cleaned up, and is no older than the last installation complete when it began |
| `SuperVersions.QuietIsClean` | db/db_impl.cc:1945-1963 | when nobody is at work every super version but the current one has been cleaned up |
| `SuperVersions.DropScrapedKeeps` | db/db_impl.cc:2737-2754 | a copy taken from a slot is never the last reference |
| `SuperVersions.ReturnKeeps` | db/db_impl.cc:1875-1897 | a slot that refuses the super version back has been marked obsolete |
| `SuperVersions.SwapKeeps` | db/db_impl.cc:1910-1917 | a reader never finds its own slot marked in use |
| `SuperVersions.ClearKeeps` | db/db_impl.cc:1920-1933 | a reader cleans up only what has no reference left and was not cleaned up before |
| `SuperVersions.DropOldKeeps` | db/db_impl.cc:1945-1963 | the installer's reference to the old super version is there to be dropped |
| `SuperVersionNumbers.HitIsCurrent` | db/db_impl.cc:1918-1935 | a cached super version that is used is the current one, or the one before it while the installer has not yet published the new number |
| `SuperVersionNumbers.MissIsStale` | db/db_impl.cc:1918-1935 | a cached super version is dropped only when a newer number than its own has been published |
| `SuperVersionNumbers.CachedDecides` | db/db_impl.cc:1918-1935 | which of the two can happen is decided by whether it is that one |
| `SuperVersionNumbers.ReaderGoesOn` | db/db_impl.cc:1898-1940 | a reader can go on if and only if it does not wait for the mutex of an installer at work |
| `SuperVersionNumbers.InstallerGoesOn` | db/db_impl.cc:1945-1963 | the installer can always go on |
| `SkipList.RunKeepsInv` | db/inlineskiplist.h:755-972 | under every interleaving of insertions and searches each level stays strictly sorted, its pointers spell it out, and every level is contained in the one below |
| `SkipList.SwapSucceeds` | db/inlineskiplist.h:899-904 | a successful exchange puts the node between its neighbours and disturbs no other inserter or reader |
| `SkipList.PrepareKeeps` | db/inlineskiplist.h:883-899 | an insertion is refused exactly when the successor it found has its key; above the bottom the neighbours are strictly apart |
| `SkipList.SeekKeeps` | db/inlineskiplist.h:714-753 | the search for the neighbours of a key brackets it on every level, however the list grows meanwhile |
| `SkipList.RefindKeeps` | db/inlineskiplist.h:904-918 | searching again after a failed exchange finds neighbours that bracket the key |
| `SkipList.LinkedIsNew` | db/inlineskiplist.h:881-904 | a node is linked at the bottom only if no node there has its key |
| `SkipList.FindIsExact` | db/inlineskiplist.h:469-504 | at its last load a search returns exactly the first node at or after its target |
| `SkipList.ApproachIsExact` | db/inlineskiplist.h:506-549 | at its last load the search backwards returns exactly the last node before its target, or the head |
| `SkipList.RaceIsExact` | db/inlineskiplist.h:551-570 | at its last load the race to the end returns exactly the last node, or the head |
| `SkipList.LinkedSoFar` | db/inlineskiplist.h:881-972 | at any moment of a run a node is on exactly the levels its inserter has linked so far, and each level is strictly ascending |
| `SkipList.AllInserted` | db/inlineskiplist.h:755-972 | once every insertion has returned the list holds each key once, and each level exactly the nodes that reach it |
| `SkipListProgress.InsertionReturns` | db/inlineskiplist.h:755-972 | from every reachable state an insertion left alone returns, with its key in the list |
| `SkipListProgress.SearchReturns` | db/inlineskiplist.h:469-570 | from every reachable state a search left alone returns |
| `SkipListProgress.NothingAbove` | db/inlineskiplist.h:755-777 | in every run the maximal height is that of a node, or one, and no node is linked above it, so a search that starts there misses no level |
| `DbIter.ViewIsNewestPerKey` | db/db_iter.cc:177-207 | the view holds exactly the newest visible entry of every key that is not deleted |
| `DbIter.ViewAscends` | db/db_iter.cc:177-207 | the view is in strictly ascending key order |
| `DbIter.DBIter.FindNextUserEntry` | db/db_iter.cc:177-207 | skips forward to the next entry of the view |
| `DbIter.DBIter.FindPrevUserEntry` | db/db_iter.cc:236-276 | skips backward to the previous entry of the view and saves it |
| `DbIter.DBIter.Next` | db/db_iter.cc:141-175 | moves to the next entry of the view, also after a change of direction |
| `DbIter.DBIter.Prev` | db/db_iter.cc:209-234 | moves to the previous entry of the view, also after a change of direction |
| `DbIter.DBIter.Seek` | db/db_iter.cc:278-290 | lands on the first entry of the view at or after the target |
| `DbIter.DBIter.SeekToFirst` | db/db_iter.cc:292-301 | lands on the first entry of the view |
| `DbIter.DBIter.SeekToLast` | db/db_iter.cc:303-308 | lands on the last entry of the view |
| `DbIter.DBIter.Drive` | db/db_iter.cc:141-308 | any mix of moves is the same mix of moves of a plain cursor over the view |
| `DbIter.DBIter.Walk` | db/db_iter.cc:121-207 | walking from the first entry to the last shows the whole view in order, and reports a corruption if and only if some key of the stream cannot be parsed |
| `BlockBuilder.Builder.Add` | table/block_builder.cc:77-118 | the entry is appended, as a restart point exactly when an interval is full, and otherwise with the longest prefix shared with the key before |
| `BlockBuilder.Builder.Finish` | table/block_builder.cc:65-75 | the finished block lays out all pairs added, with a restart point after every interval and the longest shared prefixes between, its restart array and its trailer |
| `Block.EntryRoundTrip` | table/block.h:60-80 | decoding an encoded entry gives its lengths, its key suffix and its value, on the fast path and off it |
| `BlockIter.Iter.ParseNextKey` | table/block.h:297-347 | parsing gives the next pair, and the restart index lags behind by one at most |
| `BlockIter.Iter.Next` | table/block.h:164-178 | moves to the next pair |
| `BlockIter.Iter.Prev` | table/block.h:180-199 | moves to the previous pair, or past the end from the first |
| `BlockIter.Iter.Seek` | table/block.h:201-269 | from any state lands on the first key not below the target |
| `BlockIter.Iter.BinarySearch` | table/block.h:224-250 | the restart point found has only keys below the target before it |
| `BlockIter.Iter.SeekToFirst` | table/block.h:271-275 | lands on the first pair |
| `BlockIter.Iter.SeekToLast` | table/block.h:277-282 | lands on the last pair |
| `BlockIter.ReadBlock` | table/block.h:154-347 | iterating over a block yields exactly the pairs it was built from |
| `BlockBuilder.BuildAndRead` | table/block_builder.cc:65-118 | adding pairs, finishing the block and iterating over it gives back exactly the pairs, for every interval and all pairs whose block is addressed with 32 bits |
| `BlockIter.Open` | table/block.cc:13-35 | the trailer gives the restart array back |
| `Log.Writer.AddFragment` | db/log_writer.cc:43-78 | one round of the writer's loop: padding, header, and as much of the record as fits the block |
| `Log.Writer.AddRecord` | db/log_writer.cc:34-80 | what is appended is the record's fragments, and depends on the offset in the block only |
| `Log.WriteLog` | db/log_writer.cc:27-30 | however often the log is reopened, the file is that of all records in one go |
| `Log.Reader.ReadPhysicalRecord` | db/log_reader.cc:189-271 | what the reader finds at each place of any file, when it reports a corruption, and where it goes on |
| `Log.Reader.ReadRecord` | db/log_reader.cc:56-174 | fragments are put together, misplaced ones reported, and the reader's own marks obeyed, for any file |
| `Log.FragmentReadBack` | db/log_reader.cc:189-271 | a fragment that is all there is read back; one that is cut off is the end of the file |
| `Log.RecordReadBack` | db/log_reader.cc:56-174 | a record that is all there is read back; one that is cut off ends the read without a report |
| `Log.TruncatedLog` | db/log_reader.cc:56-174 | a log cut off at any byte gives back exactly the records whose last fragment survives, and no corruption report |
| `Log.WholeLog` | db/log_reader.cc:56-174 | a whole log gives back all its records and no corruption report |
| `Log.ReadLog` | db/log_reader.cc:56-174 | calling ReadRecord to the end gives all records of any file and counts every report |
| `Log.WriteCutRead` | db/log_reader.cc:56-174 | writing a log in any number of sessions, losing everything behind any byte, and reading it returns exactly the records that are whole, and zero reports |
| `LogSoundness.GotIsThere` | db/log_reader.cc:189-271 | of any file, the reader returns a fragment only where the file holds its header with the right checksum, its type and its payload |
| `LogSoundness.RecordIsThere` | db/log_reader.cc:56-174 | of any file, however damaged, a record is returned only if the file holds it as one full fragment or as a first, middle ones and a last that follow one another |
| `LogSoundness.ReadDamaged` | db/log_reader.cc:56-174 | reading any file to the end returns only such records |
| `Codec.MetaBack` | db/version_edit.cc:110-258 | decoding encoded file metadata recovers level, numbers, node ids, key bounds and the three chunk tables, with the first data chunk's context, protection domain and handle for all chunks |
| `Codec.MetaRecovered` | db/version_edit.cc:110-258 | the metadata is recovered exactly if and only if all its chunks have that context, protection domain and handle |
| `Codec.DecodeChunks` | db/version_edit.cc:199-252 | the loop over the chunks of one kind fills the ordered table |
| `Codec.TaskBack` | db/version_set.cc:2048-2092 | the memory node sees the compaction task the compute node sent |
| `EditCodec.EditBack` | db/version_edit.cc:289-335 | decoding an encoded edit gives back its comparator, numbers, pointers, deleted files and new files, with the metadata of these as it arrives |
| `EditCodec.EditRecovered` | db/version_edit.cc:289-335 | the edit comes back unchanged if and only if the chunks of every new file share their context, protection domain and handle |
| `EditCodec.LongEditGivesUp` | db/version_edit.cc:496-501 | decoding ends without a message if and only if the edit has no more fields than the decoder counts to |
| `EditCodec.EncodeTo` | db/version_edit.cc:289-335 | the encoder appends the fields that are set, in order |
| `EditCodec.SentinelBack` | db/db_impl.cc:2114-2127 | with the trailing sentinel byte the whole edit is still recovered, although the status says corruption |
| `EditCodec.DecodeEdit` | db/version_edit.cc:403-512 | the decoder's loop over any input: which fields it takes, which message it ends with, and that the deleted files come out in order |

## Left out

- The RDMA transport, polling bytes, fences and queue pairs: a transfer is the delivery of the encoded bytes.
- `WITHPERSISTENCE` paths, edit merging and unpin calls: switched off at build time.
- Shutdown, I/O errors and background errors: every step of the model succeeds.
- `WaitforAllbgtasks(true)`, the flush of a memtable that is not full: it would break the tiling of sequence numbers.
- Write stalls: whether a writer waits or tries again is left open, so runs with any timing are covered.
- `DBImpl::NewIterator` and the merging iterator: `DbIter` works on a given sorted stream and a given sequence number.
- Table internals beyond the data block, Bloom filters and the table cache: a table is its sorted entries.
- Dropping tombstones, manual compaction, seek-triggered compaction and read sampling: not active in the source.
- Sub-compaction on the memory node: it seeks at sequence number 0, so ranges are not partitioned the same way.
- The sequential insertion of the skip list and insertion with a hint: `MemTable::Add` uses neither.
- Memory layout of nodes, stashed heights, key pinning and the arena: nodes and keys are values.
- The neighbours that `FindLessThan` can hand out for each level: no caller of the backward search asks for them.
- Weak memory orderings: every atomic operation is one step in a single order.
- Appending to a string in place in the encoders of metadata and tasks: `Codec` encodes values to byte sequences.
- Termination of retry loops under interference: a thread left alone finishes, and nothing is said about schedules.
- The order in which levels are tried: scores, their sorting and the choice of a level come before `Scheduler`.
- VersionBuilder.Builder.Apply: takes the deleted id out of the set when a file is added again; the source does it by erasing through an iterator that the erasure invalidates.
- Merge.BuildTable: takes equality of user keys for the comparison the flush makes with the internal comparator, which agrees with it for keys of at least eight bytes.
- Log.Reader.ReadPhysicalRecord: reads from offset 0; skipping to an initial offset is not modelled.
- BlockBuilder.Builder.Add: takes lengths below two to the power of 32; sums of lengths are not cut to 32 bits.
- EditCodec.DecodeEdit: says that the input ends inside a part of a field that is read without a look at its length, and not what the source makes of the bytes behind it.
- Subcompaction.FewGroupsExactly: takes a maximum file size of at least four bytes, so that there are sizes below a quarter of it.
- Lsm.Flush: the file number above those on level 0 is a hypothesis, because the source draws it outside the lock.
