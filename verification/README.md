# VectorForge: models and proofs

VectorForge is a single-node vector search engine. Its core is a set of small stateful classes, a few
concurrent protocols and some exact arithmetic. This project models those parts in Dafny and proves what they
are built to guarantee. `dafny verify dfyconfig.toml` checks everything.

**The HNSW graph under concurrent insertion** (`LinkProtocol`, `LinkSafety`, `LinkTheorems`, `LinkHistory`,
`OrphanRepair`, `LinkProgress`).
Rows are reserved first; then any number of `link` calls and searches run at once. The model is a transition
system with one action per store to a list slot, a list count or the entry point, and per load made without a
lock. Any number of insertions is in flight, each with its own progress, plan and partly written lists; stripes
and the mutex for the top level are explicit; an insertion may fail for lack of memory before it changes anything.
The neighbour search and the selection are left as nondeterministic as the code's reads allow, so the theorems
hold whatever distances, beam widths and selections are used. The invariant has one temporal ingredient: of two
insertions in flight, at most one can have discovered the other, because a node becomes visible only after its
own search has ended.

**Searching and selecting** (`Candidates`, `Frontiers`, `Heaps`, `VisitedSets`, `LayerSearch`, `FlatScan`,
`NeighborSelect`).
The two heaps with their sift loops and the in-place heapsort, the visited set with its 16-bit epochs, greedy
search, beam search, the query driver, the blocked exact scan, and neighbour selection are methods over arrays
and objects. They are proved against multisets of candidates: "keeps the best `k`" is one definition, and its
result is unique. So are the answer of a query and the outcome of a selection: each is described without reference
to the loops that compute it, and the description is proved to fit one result only.

**The fair reader/writer lock** (`FairLock`). A class with the five fields, and a system of unboundedly many
threads with two condition variables and spurious wake-ups.

**Collections** (`Tombstones`, `IdMaps`, `Collections`, `Sections`, `CollectionStates`, `CollectionRuns`). Rows,
labels, the id map with its reservations, the tombstone bit set, upsert, removal, batches (row by row, and
grow-then-link sections), cleaning up after failed links, and compaction. An environment decides which allocations
and links fail, the shared block of the parallel loop over a section's links among them. What callers see is a value
(the records by external id, the ids whose row no search can reach, the number of rows), and every operation is
proved to make of it exactly what a function of the operation and its failures says.

**The index file** (`LittleEndian`, `GraphCodec`, `GraphDecode`, `Crc32c`, `FileFormat`, `Regions`,
`FileLayout`, `IndexContainer`, `IndexFile`, `AcceptedFiles`, `SavedGraphs`). The canonical writer, the validating reader and the slice-by-8
checksum (section 12.1 of RFC 3720), and which of the graphs that insertion leaves behind survive saving.

**Graph storage** (`GraphLayout`, `GraphMemory`, `GraphStore`). Chunked base lists and the arena of upper lists,
with 32-bit offsets, refine a map from (node, level) to a sequence of ids.

**Exact integer arithmetic** (`Draws`), **work distribution** (`RunRanges`, `RangeHelpers`, `RangeRuns`) and **crash-safe
snapshots** (`Snapshots`).

## Conventions

- Atomics are sequentially consistent, and a stripe is one lock per node.
- Distances are reals that are only compared; the NaN case is excluded because inputs are validated
  (`include/vectorforge/types.hpp:53-56`).
- Machine integers are unbounded, with wrap-around written out wherever the code could reach it (`Wrapped`,
  `% 2^64`, the 32-bit arena offset). Shifts and masks of power-of-two sizes are divisions and remainders.
- Methods follow the loops and the field updates of the code. Functions are specifications: a method's `ensures`
  ties it to one, and lemmas say what that function means.

## Where the code does not meet a wider claim

Each comes with the exact condition, for all inputs, and a concrete input.

1. `check_invariants` wants the entry point to have the highest level of *all* nodes. A link that fails leaves a
   reserved row that nothing reaches, and that row may lie above the entry point. With no link in flight, the
   validator accepts the graph if and only if no unlinked row lies above the entry level
   (`LinkTheorems.QuietGraphIsValid`, `LinkHistory.FailedRowExample`).
2. `write_index` followed by `read_index` gives the state back if and only if the level cap is at most 32 and the
   graph's entry point is a node of the highest level (or there is no node); otherwise the file is refused
   (`IndexFile.WriteThenRead`). Both exceptions can be reached. Creation checks the cap for graph indexes only, but
   `validate_metadata` checks it for every file, so a flat index with a larger, unused cap can be created and saved
   (`IndexFile.HighCapExampleIsSaveable`). And a link that fails above the entry point leaves the graph of item 1,
   which `write_index` does not check and `decode` refuses (`SavedGraphs.FailedRowIsSaveable`,
   `SavedGraphs.FailedRowFromRun`). Of the graphs with no link in flight, exactly those that the validator accepts
   can be read back (`SavedGraphs.SavedGraphReadsBackIff`).
3. A `run_ranges` that returns without an error has run the body exactly once on every index if and only if the range
   is empty, or is run whole (one chunk, or a call from a worker thread), or `begin + chunks * grain` fits in 64
   bits; otherwise `lo + grain` wraps and the indices of the last chunk are never run (`RunRanges.CoveredIff`,
   `RangeRuns.ReturnedRunsEachOnceIff`, `RunRanges.WrapExample`).
4. After a section of a concurrent batch every row should be linked or tombstoned before `link` is released. A
   section that begins so ends so if and only if its parallel loop can allocate its shared block, or needs none (no
   pool, a call from a worker, or a single row). Otherwise `run_ranges` throws before the first link, the clean-up is
   skipped, and the rows stay live and unlinked until they are replaced or removed, or a
   compaction with something to drop links them
   (`CollectionStates.Collection.Section`, `CollectionRuns.UnlinkedIff`, `CollectionRuns.LostBatchExample`). Labels,
   mapping and tombstones agree in any case. At the end of any run every row is linked or tombstoned if and only if
   the replay of the operations leaves no id unlinked (`CollectionStates.Run`).

## Model

| member | source | states |
|---|---|---|
| LinkTheorems.StepKeepsInv | src/index/hnsw/hnsw_insert.cpp:80-115 | Every single store or load, by any insertion or query in any state, keeps the protocol invariant. |
| LinkTheorems.RunKeepsInv | src/index/hnsw/hnsw_insert.cpp:166-192 | The invariant holds after every run from the empty graph, whatever the interleaving and the failures. |
| LinkTheorems.ListsSound | src/index/hnsw/hnsw_validator.cpp:36-68 | At every moment every list is within its capacity, links to other, existing nodes that reach its level and whose own lists are all written; a list nobody is rewriting has no duplicate. |
| LinkTheorems.NeverPickEachOther | src/index/hnsw/hnsw_insert.cpp:55-97 | Two insertions never discover each other: if one has picked another node as a neighbour, that node has not picked the first one on any level. |
| LinkSafety.MovedKeepsInv | src/index/hnsw/hnsw_insert.cpp:88-97 | A step of one insertion preserves everything the other insertions, the readers and the lists rely on. |
| LinkTheorems.OneWriterPerNode | src/index/hnsw/hnsw_insert.cpp:92-97 | At most one insertion rewrites lists of a node at a time. |
| LinkTheorems.PublishedWhenWritten | src/index/hnsw/hnsw_insert.cpp:81-86 | When an insertion becomes visible, each of its lists holds exactly its selection, and the lists above its top level are empty. |
| LinkTheorems.StaysPublished | src/index/hnsw/hnsw_insert.cpp:86-97 | Visibility is never taken back. |
| LinkTheorems.TraversalSafe | src/index/hnsw/hnsw_graph.hpp:36-64 | Whatever slot a traversal is about to load, with a size it read at any earlier time, holds the id of a visible node that has a list on this level. |
| LinkTheorems.EntryIsTop | src/index/hnsw/hnsw_insert.cpp:166-192 | Once some node is linked, the entry point is a linked node whose level is the highest of all linked nodes, also while links are in flight. |
| LinkTheorems.EntryMonotone | src/index/hnsw/hnsw_insert.cpp:172-190 | No step lowers the entry level. |
| LinkTheorems.QuietGraphIsValid | src/index/hnsw/hnsw_validator.cpp:18-75 | With no link in flight, the validator accepts if and only if the graph is empty or has an entry point and no unlinked row above its level. |
| LinkTheorems.AllLinkedIsValid | src/index/hnsw/hnsw_validator.cpp:18-75 | A graph all of whose links succeeded passes the validator. |
| LinkTheorems.NoDeadlock | src/index/hnsw/hnsw_insert.cpp:166-192 | While an insertion is in flight, some insertion in flight can take its next step: the top mutex and the stripes never block each other in a cycle. |
| LinkHistory.OnlyHolderWrites | src/index/hnsw/hnsw_insert.cpp:80-97 | An existing list changes only by its not yet visible owner or by the holder of its stripe. |
| LinkHistory.RewriteDelivers | src/index/hnsw/hnsw_graph.cpp:179-198 | When the count of a rewritten list is stored, it reads as exactly what was decided under the stripe, and the stripe is free. |
| LinkHistory.AppendIsInvisible | src/index/hnsw/hnsw_graph.cpp:189-198 | An append keeps every slot a reader of the present count may use, and adds a node that was not in the list. |
| LinkHistory.RepairMeansUnlinked | src/index/hnsw/hnsw_insert.cpp:99-108 | Orphan repair of a level starts only when no back-link of the new node survives there: any list that holds it belongs to a node that found it by its own search. |
| OrphanRepair.LevelIsServed | src/index/hnsw/hnsw_insert.cpp:88-112 | In every run with repair enabled, an insertion past a level has decided to join a list there, or has found each of its candidates there full, in a step of its own with the candidate's stripe free. |
| OrphanRepair.RepairIsOptional | src/index/hnsw/hnsw_insert.cpp:97-114 | With repair disabled no insertion is ever repairing. |
| OrphanRepair.EveryLevelIsLinked | src/index/hnsw/hnsw_insert.cpp:183-185 | A linked row has a selection on each level up to the lower of its own and that of the entry point it started from; only a row that found no entry point links nowhere. |
| LinkProgress.OwnStepsCount | src/index/hnsw/hnsw_insert.cpp:78-115 | Once its search has ended an insertion cannot fail any more, and each step of its own brings it closer, in a well-founded order, to being done. |
| LinkProgress.OnlySearchFails | src/index/hnsw/hnsw_insert.cpp:166-192 | In every run, an insertion has failed only if its search ran out of memory. |
| LinkHistory.EveryPickIsAsked | src/index/hnsw/hnsw_insert.cpp:88-98 | In every run, an insertion that has got past one of its picks took that pick's stripe, and decided there to append itself to the list if it had room, and otherwise to have it selected anew with itself among the candidates; none is skipped on any level. |
| LinkHistory.FailedRowExample | src/index/hnsw/hnsw_insert.cpp:166-192 | A second row, above the entry point, whose link fails leaves a graph with no link in flight that the validator refuses. |
| FairLock.FairSharedMutex.ArriveShared | src/concurrency/fair_shared_mutex.hpp:29-40 | A reader that may not enter is left waiting and counted; otherwise it is inside, a quota slot used up. |
| FairLock.FairSharedMutex.UnlockShared | src/concurrency/fair_shared_mutex.hpp:41-48 | Leaves one reader fewer, and wakes a writer exactly when one waits and nobody is left inside. |
| FairLock.FairSharedMutex.Arrive | src/concurrency/fair_shared_mutex.hpp:49-57 | A writer that may not enter is left waiting and counted; otherwise it is inside. |
| FairLock.FairSharedMutex.Unlock | src/concurrency/fair_shared_mutex.hpp:58-69 | Leaves the lock to the readers waiting now, as their quota, and wakes them all, or else a writer. |
| FairLock.StepKeepsInv | src/concurrency/fair_shared_mutex.hpp:29-69 | The counters always agree with what the threads are doing, over any step of any thread and any spurious wake-up. |
| FairLock.WriterIsAlone | src/concurrency/fair_shared_mutex.hpp:29-69 | While a writer is inside nobody else is, and the quota is zero. |
| FairLock.NoLostWakeup | src/concurrency/fair_shared_mutex.hpp:29-69 | No reader sleeps while readers may enter; if writers may enter and one sleeps, some writer is awake; the quota never exceeds the waiting readers. |
| FairLock.NeverStuck | src/concurrency/fair_shared_mutex.hpp:29-69 | In every reachable state with a thread waiting or inside, some thread can proceed. |
| FairLock.QuotaSpent | src/concurrency/fair_shared_mutex.hpp:29-40 | Between writers, each reader admission uses up at most one unit of the quota, and exactly one while a writer waits. |
| FairLock.ReadersBeforeNextWriter | src/concurrency/fair_shared_mutex.hpp:29-69 | After a writer leaves with r readers waiting, at least r readers are admitted before the next writer, and exactly r if a writer waits throughout. |
| FairLock.OneWriterPerWaitingReader | src/concurrency/fair_shared_mutex.hpp:29-69 | While a reader waits and none is admitted, at most one writer enters, and none after a writer has left. |
| FairLock.ReadersPastWaitingWriter | src/concurrency/fair_shared_mutex.hpp:29-69 | While a writer waits and none enters, readers enter only within the quota. |
| Candidates.PushKeepsBest | src/search/heaps.hpp:58-73 | Pushing one by one keeps the best k of everything pushed, by (distance, id). |
| Candidates.BestUnique | src/search/heaps.hpp:36-41 | The best k of a multiset are determined. |
| Candidates.AscendingUnique | src/search/heaps.hpp:85-95 | There is only one ascending order, so a sorted result is determined by its content. |
| Candidates.FirstAreBest | src/index/hnsw/hnsw_search.cpp:101-107 | The first k of an ascending list are its best k. |
| Heaps.BoundedMaxHeap.Top | src/search/heaps.hpp:52-56 | The root is a worst kept candidate. |
| Heaps.BoundedMaxHeap.Push | src/search/heaps.hpp:58-73 | Adds the candidate, or replaces a worst one it beats, or refuses it, and says which. |
| Heaps.BoundedMaxHeap.Pop | src/search/heaps.hpp:75-83 | Removes exactly a worst candidate. |
| Heaps.BoundedMaxHeap.SortAscending | src/search/heaps.hpp:85-95 | In-place heapsort: the storage holds the heap's content in ascending order and the heap is empty. |
| Heaps.MinHeap.Top | src/search/heaps.hpp:145-149 | The root is a best queued candidate. |
| Heaps.MinHeap.Push | src/search/heaps.hpp:151-163 | Adds exactly the candidate. |
| Heaps.MinHeap.Pop | src/search/heaps.hpp:165-190 | Removes exactly the root, a best candidate. |
| VisitedSets.VisitedSet.Reset | src/search/visited_set.hpp:33-42 | The set is empty afterwards, also when the 16-bit epoch wraps around. |
| VisitedSets.VisitedSet.Visit | src/search/visited_set.hpp:44-53 | Reports whether the id was new and adds it: a true set. |
| LayerSearch.GreedySearch | src/index/hnsw/hnsw_search.cpp:14-31 | Ends, after moves each to the best link, at a reachable node that is no worse than the start and that none of its neighbours beats. |
| LayerSearch.GreedyEndUnique | src/index/hnsw/hnsw_search.cpp:14-31 | There is only one such node. |
| LayerSearch.SearchLayer | src/index/hnsw/hnsw_search.cpp:33-83 | Ends with exactly the ef best live visited nodes; the links of every expanded node are visited, and a visited node that was not expanded is strictly worse than each of ef kept ones. The heap-based loop goes through the states of `Frontiers.After` until none follows. |
| Frontiers.StaysEnded | src/index/hnsw/hnsw_search.cpp:53-58 | A search that is over does not go on: from each start there is one end. |
| Frontiers.PushedIsOffered | src/search/heaps.hpp:58-73 | The bounded heap's push has one outcome: the candidate joins, takes the place of the worst, or is refused. |
| LayerSearch.SearchEndUnique | src/index/hnsw/hnsw_search.cpp:33-83 | The beam search from one node ends in one state only. |
| LayerSearch.LeftOutIsWorse | src/index/hnsw/hnsw_search.cpp:53-58 | Whatever was visited and not expanded is worse than each of ef kept candidates. |
| LayerSearch.BeamDoneFacts | src/index/hnsw/hnsw_search.cpp:33-83 | A result that is not full means that everything linked from a visited node was visited. |
| LayerSearch.WideBeamIsExact | src/index/hnsw/hnsw_search.cpp:33-83 | With ef at least the number of live reachable nodes, the beam keeps exactly those. |
| LayerSearch.DescentUnique | src/index/hnsw/hnsw_search.cpp:95-98 | Greedy search level by level, from the entry point down to level 1, ends at one node only. |
| LayerSearch.SearchWith | src/index/hnsw/hnsw_search.cpp:85-107 | For every ef: the beam starts at the node the level-by-level descent ends at, which no link on level 1 improves on; it visits only what that node reaches, and all links of what it expands; it keeps the ef best live visited nodes, and each visited node it did not expand is strictly worse than each of ef kept ones; the result is the k best of the kept, ascending, min(k, kept) of them. With a beam as wide as the live region it is exactly the k nearest of that. |
| LayerSearch.AnswerUnique | src/index/hnsw/hnsw_search.cpp:85-107 | A query on a given graph has one answer. |
| FlatScan.SkipWorse | src/index/flat_backend.cpp:96-106 | Comparing the distance alone with the worst kept one is exact, because rows come in ascending id. |
| FlatScan.Search | src/index/flat_backend.cpp:74-110 | Returns exactly the min(k, live) nearest live rows in ascending order, for every chunk layout and tombstone set. |
| NeighborSelect.SelectNeighbors | src/index/hnsw/neighbor_select.hpp:30-65 | For ranked candidates. Simple: the m best, ascending. Heuristic: first, ascending, the accepted candidates, which are exactly those at least as near to the node as to every better accepted one, up to m; then, if pruned ones are kept, the best of all others, ascending, up to m in all. |
| NeighborSelect.SelectedIsDescribed | src/index/hnsw/neighbor_select.hpp:30-65 | The scan and the refill compute a selection of that description. |
| NeighborSelect.SelectionUnique | src/index/hnsw/neighbor_select.hpp:13-29 | The description fits one selection only. |
| NeighborSelect.ScanPartitions | src/index/hnsw/neighbor_select.hpp:40-56 | Until m are accepted, accepted and discarded candidates are together, each once, the candidates looked at so far; never more than m are accepted. |
| NeighborSelect.SelectionBounds | src/index/hnsw/neighbor_select.hpp:30-65 | At most m candidates, each at most once; no slot stays free if refilling, or the simple selection, could fill it. |
| NeighborSelect.HeuristicSpreads | src/index/hnsw/neighbor_select.hpp:40-56 | No accepted candidate is nearer to one accepted before it than to the node, and until m are found nobody is passed over for any other reason. |
| NeighborSelect.InsertionSort | src/index/hnsw/hnsw_insert.cpp:38-45 | The buffer is sorted in place into ascending order with the same content. |
| NeighborSelect.ShrinkWith | src/index/hnsw/hnsw_insert.cpp:23-53 | Shrinking a full list gives the ids of the selection from its members and the new node, ranked by their distance to the node: distinct, within capacity, what the link protocol allows; and it reports whether the new one stayed. |
| Tombstones.MaskTestsBit | src/storage/tombstones.hpp:34-62 | Testing by mask (`set`, `clear`) and by shifting (`test`) agree on every bit of every word. |
| Tombstones.SetAndClear | src/storage/tombstones.hpp:34-57 | Setting or clearing a bit changes that bit and no other. |
| Tombstones.PopCountCounts | src/storage/tombstones.hpp:78-82 | The population count of a word is the number of rows it marks. |
| Tombstones.TailClearMeans | src/storage/tombstones.hpp:71-77 | The shift test on the last word accepts exactly the words that mark no row past the end. |
| Tombstones.TombstoneSet.Set | src/storage/tombstones.hpp:34-44 | Adds one row to the set, tells whether it was new, and keeps the count exact. |
| Tombstones.TombstoneSet.Clear | src/storage/tombstones.hpp:47-57 | Removes one row from the set, tells whether it was there, and keeps the count exact. |
| Tombstones.TombstoneSet.Test | src/storage/tombstones.hpp:59-62 | True exactly for the marked rows, also past the end of the words. |
| Tombstones.TombstoneSet.Restore | src/storage/tombstones.hpp:69-84 | Accepts persisted words exactly when their number fits and no row past the end is marked, and then counts them. |
| IdMaps.ReserveIsInvisible | src/storage/id_map.cpp:12-29 | A reservation changes no lookup and keeps a second one of the same id out. |
| IdMaps.RollbackUndoesReserve | src/storage/id_map.cpp:47-55 | Cancelling a reservation restores the whole map exactly. |
| IdMaps.InsertReplaces | src/storage/id_map.cpp:31-45 | Reserve and commit map the id to the new row and hand back the row it replaced, and change no other lookup. |
| IdMaps.EraseHides | src/storage/id_map.cpp:57-69 | Erasing removes exactly this id from the lookups. |
| IdMaps.RevertUndoesInsert | src/storage/id_map.cpp:71-82 | Reverting a commit restores the map of before the reservation, but for the row's label. |
| IdMaps.LiveRowsDetermineMapping | src/storage/id_map.cpp:102-126 | Labels and tombstones determine the mapping, so it need not be stored. |
| IdMaps.RestoreStep | src/storage/id_map.cpp:107-122 | Restoring extends the mapping row by row, and an unusable or repeated label of a live row rules every mapping out. |
| IdMaps.IdMap.ReserveId | src/storage/id_map.cpp:12-29 | Succeeds exactly for a usable id that is not pending and is free or may be replaced; the ticket names the row to be replaced. |
| IdMaps.IdMap.EraseId | src/storage/id_map.cpp:57-69 | Each refusal has its exact condition; a refusal changes nothing. |
| IdMaps.IdMap.Find | src/storage/id_map.cpp:84-90 | Finds exactly the visible ids, with their rows. |
| IdMaps.IdMap.Restore | src/storage/id_map.cpp:102-126 | Succeeds exactly when the live rows have usable, distinct labels, and then maps each of them to its row. |
| Collections.SettledIff | src/collection/collection.cpp:190-286 | Every row is linked or tombstoned exactly when every id is mapped to a linked row. |
| Collections.InsertKeepsSound | src/collection/collection.cpp:77-125 | A committed insert keeps labels, mapping and tombstones consistent: a row is live exactly if the map sends its label to it, and live = rows - deleted. |
| Collections.InsertRefines | src/collection/collection.cpp:77-125 | An insert or upsert is a put on the map from ids to vectors. |
| Collections.InsertUnlinked | src/collection/collection.cpp:77-125 | An insert changes for no other id whether its row is linked. |
| Collections.EraseRefines | src/collection/collection.cpp:517-528 | A removal removes one id from that map, and nothing else. |
| Collections.AbandonRefines | src/collection/collection.cpp:170-177 | Taking a row back brings back what the id had before, the replaced vector or nothing. |
| Collections.AbandonUnlinked | src/collection/collection.cpp:170-177 | A row that is taken back brings back the row it replaced, linked or not as that was. |
| Collections.AbandonOne | src/collection/collection.cpp:190-286 | Taking back one row of a batch is as if the batch had never had it. |
| Collections.LivePairsAreRecords | src/collection/collection.cpp:530-580 | Re-inserting the live rows in order gives exactly the records. |
| Collections.RebuildStep | src/collection/collection.cpp:530-580 | Each live row can be inserted into the new state, and the part rebuilt so far shows its live rows. |
| Collections.RebuiltShowsTheSame | src/collection/collection.cpp:530-580 | The compacted state shows the same records, has no tombstones and every row linked. |
| Sections.FreshKey | src/collection/collection.cpp:190-286 | While a section grows, an id it has not reached yet is mapped as it was when the section began. |
| Sections.GrowStep | src/collection/collection.cpp:190-286 | Growing by one row keeps every earlier row of the section revertible. |
| Sections.LinkedSection | src/collection/collection.cpp:190-286 | When the links have run, exactly the rows whose link failed are unlinked and due to be taken back. |
| Sections.DropStep | src/collection/collection.cpp:190-286 | A failed row can always be taken back, and doing so leaves the others as they were. |
| Sections.LostSection | src/collection/collection.cpp:256-257 | If the loop over the links never runs, readers see the rows, none of them is linked, and not every row is linked or tombstoned. |
| Sections.SectionDone | src/collection/collection.cpp:190-286 | After the clean-up readers see the batch without its failed rows, exactly the kept ids became linked, and a state with every row linked or tombstoned stays so. |
| CollectionStates.CollectionState.AppendIndexed | src/collection/collection.cpp:89-116 | If the index refuses a row, the appended vector is popped again and nothing has changed. |
| CollectionStates.CollectionState.InsertReserved | src/collection/collection.cpp:77-125 | Succeeds exactly if nothing fails; any failure, at any of its allocations, restores the state of before the reservation. |
| CollectionStates.CollectionState.AbandonRow | src/collection/collection.cpp:170-177 | Changes the state to the one with the row's id reverted and the row tombstoned. |
| CollectionStates.Collection.Add | src/collection/collection.cpp:397-415 | Succeeds exactly under the documented conditions; then it puts and links the id, otherwise nothing changes. |
| CollectionStates.Collection.Remove | src/collection/collection.cpp:517-528 | Removes the id from the records, or reports that it is missing; nothing else changes. |
| CollectionStates.Collection.Get | src/collection/collection.cpp:582-592 | Returns the vector the map gives. |
| CollectionStates.Collection.CheckBatch | src/collection/collection.cpp:418-486 | Passes exactly the empty batch and the batches that are well formed, without repeated or (unless upserting) known ids, within capacity and with memory to reserve; changes nothing. |
| CollectionStates.Collection.AddBatch | src/collection/collection.cpp:418-515 | Puts and links exactly the rows before the first that fails, and succeeds exactly if the batch passes and none fails. |
| CollectionStates.Collection.Section | src/collection/collection.cpp:202-286 | What one section puts, leaves unlinked and reports, for every failure in it; a collection with every row linked or tombstoned stays so if and only if the parallel loop over the links could start. |
| CollectionStates.Collection.AddBatchConcurrent | src/collection/collection.cpp:190-286 | A batch that passes runs its sections up to the first that fails, and succeeds exactly if none does (`CollectionRuns.BatchSucceedsIff`); any other batch changes nothing. |
| CollectionRuns.SectionIff | src/collection/collection.cpp:202-283 | A section goes on exactly if its preparation, every row up to its time slice or its size, every link and its parallel loop succeed; otherwise it ends before its first failing row. |
| CollectionRuns.BatchSucceedsIff | src/collection/collection.cpp:201-286 | A concurrent batch succeeds if and only if nothing fails in any of its sections, and otherwise stops in the first section in which something does. |
| CollectionRuns.NoFailureNoStop | src/collection/collection.cpp:201-286 | Without any failure every batch succeeds, however the time slices fall. |
| CollectionRuns.SuccessIsSequential | src/collection/collection.cpp:190-286 | A concurrent batch that succeeds makes of the collection what the row-at-a-time batch makes of it. |
| CollectionStates.Collection.Compact | src/collection/collection.cpp:530-580 | Readers see no difference; if it has something to drop and nothing fails, only live rows are left and all are linked; a failure leaves the very same state object in place. |
| CollectionRuns.SectionsMean | src/collection/collection.cpp:190-286 | A concurrent batch puts its rows in order, but for those whose link failed, up to the first section that fails; only a last section whose parallel loop could not start is left unlinked. |
| CollectionRuns.UnlinkedIff | src/collection/collection.cpp:256-272 | An operation that comes to no such section leaves no further id unlinked, and one that does leaves some unlinked: where all ids are linked they stay so exactly if no section is lost. |
| CollectionRuns.StaysLinked | src/collection/collection.cpp:397-580 | A run without such a section ends with every id linked if it began so. |
| CollectionRuns.OthersKept | src/collection/collection.cpp:397-580 | Whatever fails, an id that an operation does not name keeps its vector and is not left unlinked by it. |
| CollectionRuns.LostBatchExample | src/collection/collection.cpp:256-257 | Two new rows and no memory for the shared block: the batch fails, both rows are there for readers, neither is linked. |
| CollectionStates.Run | src/collection/collection.cpp:397-580 | After any run, with any failures, the collection is consistent, its value is exactly what the operations and their failures make of the first one, and every row is linked or tombstoned exactly if that leaves no id unlinked. |
| Crc32c.StepsLinear | src/storage/crc32c.cpp:18-34 | Shifting is linear over exclusive-or. |
| Crc32c.ByteStep | src/storage/crc32c.cpp:20-26 | Eight single-bit shifts are one look-up in the first table. |
| Crc32c.EntryNext | src/storage/crc32c.cpp:27-34 | Each further table shifts the one before by a whole byte. |
| Crc32c.EightBytes | src/storage/crc32c.cpp:48-55 | Eight look-ups at once equal feeding eight bytes bit by bit. |
| Crc32c.MakeTables | src/storage/crc32c.cpp:18-34 | Fills all eight tables with the shifts of their index. |
| Crc32c.Extend | src/storage/crc32c.cpp:44-60 | The slice-by-8 loop and its tail equal the bit-by-bit checksum of every byte string. |
| Crc32c.ExtendAppends | src/storage/crc32c.cpp:44-60 | Extending by a and then by b is extending by a followed by b, wherever the cut is. |
| Crc32c.IsRfc3720 | src/storage/crc32c.cpp:14-34 | The reflected computation is the polynomial division of section 12.1 of RFC 3720: all-ones preset, remainder reflected and complemented. |
| GraphLayout.NewBlock | src/index/hnsw/hnsw_graph.cpp:85-132 | The 32-bit offset stored for a new node never wraps and addresses exactly the free end of the last arena chunk. |
| GraphLayout.StoredOffset | src/index/hnsw/hnsw_graph.cpp:104-131 | Chunk and position can be read back from any stored offset. |
| GraphLayout.AddNodeKeepsValid | src/index/hnsw/hnsw_graph.cpp:85-132 | Adding a node keeps the layout invariant. |
| GraphLayout.PlaceInBounds | src/index/hnsw/hnsw_graph.hpp:153-161 | Every list, at full capacity, lies inside an allocated chunk. |
| GraphLayout.PlacesApart | src/index/hnsw/hnsw_graph.hpp:153-161 | Lists of different (node, level) pairs share no word. |
| GraphLayout.PlacesStay | src/index/hnsw/hnsw_graph.cpp:85-132 | Adding a node moves no list. |
| GraphMemory.StoreChangesOneList | src/index/hnsw/hnsw_graph.cpp:179-187 | Storing a list changes exactly the named list. |
| GraphMemory.AddNodeKeepsLists | src/index/hnsw/hnsw_graph.cpp:85-132 | A new node's lists are empty on all its levels and all other lists stay. |
| GraphStore.HnswGraph.Add | src/index/hnsw/hnsw_graph.cpp:85-132 | Fails exactly if the level is too high, a limit is reached or memory runs out, and then changes nothing. |
| GraphStore.HnswGraph.ListPtr | src/index/hnsw/hnsw_graph.hpp:153-161 | The address it computes has room for the whole list. |
| GraphStore.HnswGraph.SetLinks | src/index/hnsw/hnsw_graph.cpp:179-187 | Replaces one list, in place. |
| GraphStore.HnswGraph.TryAppendLink | src/index/hnsw/hnsw_graph.cpp:189-198 | Appends one id exactly if the list has room, and changes no other list. |
| GraphStore.HnswGraph.CopyLinks | src/index/hnsw/hnsw_graph.hpp:54-64 | A reader copies exactly the list. |
| LittleEndian.GetPut | src/storage/format.cpp:12-25 | Reading what was written gives the value back. |
| LittleEndian.PutGet | src/storage/format.cpp:12-25 | Writing what was read gives the bytes back. |
| LittleEndian.GetLeLoop | src/index/hnsw/hnsw_io.cpp:13-27 | The byte loop computes the little-endian value. |
| LittleEndian.BytesAreWords | src/index/hnsw/hnsw_io.cpp:13-27 | An array is the encoding of some words exactly when it has their size and reads as them. |
| GraphCodec.Write | src/index/hnsw/hnsw_io.cpp:34-90 | The four section writers emit the canonical encoding. |
| GraphDecode.DecodeList | src/index/hnsw/hnsw_io.cpp:167-220 | One list is accepted exactly if it is the canonical form of some valid list; stamping finds duplicates without sorting. |
| GraphDecode.UpperLinkWords | src/index/hnsw/hnsw_io.cpp:92-106 | The size of the upper section, or nothing if it exceeds 64 bits. |
| GraphDecode.CheckShape | src/index/hnsw/hnsw_io.cpp:108-152 | Accepts exactly the section sizes, levels and entry point that go together. |
| GraphDecode.DescribedIsEncoded | src/index/hnsw/hnsw_io.cpp:34-225 | Reading all sections finds a graph if and only if they are the encoding of that graph and it satisfies the validator. |
| GraphDecode.Decode | src/index/hnsw/hnsw_io.cpp:108-225 | Accepts exactly the encodings of valid graphs the store can hold, each as the graph it encodes: encoding and decoding are inverse bijections. |
| Draws.NothingOverflows | src/core/rng.hpp:97-110 | No intermediate product or sum of `mul_high_u64` reaches 2^64. |
| Draws.MulHighIsExact | src/core/rng.hpp:97-110 | The result is floor(a * b / 2^64). |
| Draws.ThresholdIsRemainder | src/core/rng.hpp:114-125 | The wrapped negation modulo the bound is 2^64 modulo the bound. |
| Draws.DrawnInterval | src/core/rng.hpp:114-125 | The words accepted as one result are an interval of exactly floor(2^64 / bound) words. |
| Draws.EveryResultEquallyLikely | src/core/rng.hpp:114-125 | Every result below the bound has exactly floor(2^64 / bound) accepted words: the draw is unbiased. |
| Draws.UniformBelow | src/core/rng.hpp:114-125 | The loop, with its early test, returns the result of the first accepted word and of no other. |
| Draws.LevelFor | src/index/hnsw/level_generator.hpp:26-41 | The largest level up to the cap that v reaches, without overflow. |
| Draws.LevelsAreGeometric | src/index/hnsw/level_generator.hpp:5-10 | Exactly floor(2^53 / M^l) of the 2^53 values reach level l. |
| Regions.SortKeeps | src/collection/index_reader.cpp:133-141 | Sorting keeps the regions and whether they are pairwise apart. |
| Regions.CheckRegions | src/collection/index_reader.cpp:133-158 | Sort-and-sweep accepts exactly the files whose regions are pairwise apart and that are zero everywhere else. |
| FileFormat.HeaderRoundTrip | src/storage/format.cpp:51-84 | An encoded header decodes to itself, checksum and zero fields included. |
| FileFormat.HeaderIsCanonical | src/storage/format.cpp:51-84 | A header that decodes is the encoding of what it decodes to. |
| FileFormat.EntryRoundTrip | src/storage/format.cpp:86-101 | A section entry decodes to itself. |
| FileFormat.TableRoundTrip | src/storage/format.cpp:86-101 | Every entry of a table decodes to itself at its place. |
| FileFormat.MetadataRoundTrip | src/storage/format.cpp:107-166 | Metadata of any creator length allowed decodes to itself. |
| FileFormat.MetadataIsCanonical | src/storage/format.cpp:107-166 | Accepted metadata bytes are the encoding of what they decode to. |
| FileLayout.UnpackAt | src/storage/format.cpp:12-25 | Each value of a record is read at the sum of the widths before it. |
| FileLayout.HeaderReads | src/storage/format.cpp:51-84 | A header is read as certain values exactly if each of them, the magic bytes, the version, the byte-order tag, the checksum of the first 56 bytes and the zero fields stand at their byte offsets. |
| FileLayout.HeaderLayout | src/storage/format.cpp:51-66 | Every written header has its values at these offsets. |
| FileLayout.EntryReads | src/storage/format.cpp:86-101 | The same for a section entry. |
| FileLayout.EntryLayout | src/storage/format.cpp:86-93 | Every written section entry has its values at these offsets. |
| FileLayout.MetadataReads | src/storage/format.cpp:130-166 | The same for metadata, with the creator's bytes and the time after the fixed fields. |
| FileLayout.MetadataLayout | src/storage/format.cpp:107-128 | Every written metadata section has its values at these offsets. |
| FileLayout.ParsedIff | src/collection/index_reader.cpp:49-159 | What the first two steps of reading accept, byte by byte: header and table with their checksums, each section in bounds, aligned, of a known kind or optional, no known kind twice, nothing overlapping, zeros elsewhere. |
| IndexContainer.ParseTable | src/collection/index_reader.cpp:103-131 | Accepts exactly the tables whose entries decode, stay in bounds without wrap-around and do not repeat a known section. |
| IndexContainer.Parse | src/collection/index_reader.cpp:49-159 | Accepts a file exactly if header and table check out, all regions are in bounds and apart, and every other byte is zero. |
| IndexContainer.PlanOffsets | src/collection/index_writer.cpp:98-116 | Every section gets the next multiple of its alignment. |
| IndexContainer.WrittenPayload | src/collection/index_writer.cpp:98-149 | Each section's bytes are where its entry says. |
| IndexContainer.WrittenApart | src/collection/index_writer.cpp:98-149 | In a written file the header, the sections and the table are apart. |
| IndexContainer.WrittenPadding | src/collection/index_writer.cpp:98-149 | All other bytes of a written file are zero. |
| IndexContainer.WrittenParses | src/collection/index_writer.cpp:98-149 | The reader accepts every file the writer makes, with the writer's header and entries. |
| IndexContainer.Write | src/collection/index_writer.cpp:98-149 | Writing behind a zero header and sealing the file with it at the end gives that file. |
| IndexFile.ReadDeleted | src/collection/index_reader.cpp:309-324 | Tombstones are accepted exactly if their words are valid for the row count and leave the live count of the metadata. |
| IndexFile.ReadRows | src/collection/index_reader.cpp:309-331 | Labels and tombstones are accepted exactly if they determine an id map. |
| IndexFile.ReadGraph | src/collection/index_reader.cpp:333-363 | A graph is accepted exactly if its four sections encode it with the shape the metadata gives. |
| IndexFile.ReadIndex | src/collection/index_reader.cpp:242-428 | Accepts a file exactly if every check holds of it, and each accepted file gives one state; every section named in its table has the recorded checksum. |
| AcceptedFiles.MetadataIsTheStates | src/collection/index_reader.cpp:175-222 | The metadata of an accepted file is the record the writer makes of the state that is read, but for the doubled link count of a flat index, which nobody checks. |
| AcceptedFiles.FlagsAreTheStates | src/collection/index_reader.cpp:252-273 | Its flags say exactly whether the state has a graph, tombstones and normalised vectors. |
| AcceptedFiles.AcceptedSections | src/collection/index_reader.cpp:250-276 | Its sections are the ones the writer makes of that state, a section of tombstones or of the graph being there exactly if the state has some, and the vectors start on a page. |
| AcceptedFiles.ReadCanBeSaved | src/collection/index_reader.cpp:242-428 | A state that was read from any file, by this writer or not, meets all that saving is proved for, but for the size of the new file. |
| AcceptedFiles.ReadStateSurvivesSaving | src/collection/index_writer.cpp:54-150 | Saving a state that was read gives a file that reads back as the same state. |
| AcceptedFiles.DamagedIsRefused | src/collection/index_reader.cpp:166-172 | A file one of whose sections is replaced by bytes with another checksum holds no state. |
| AcceptedFiles.DamagedSaveIsRefused | src/collection/index_reader.cpp:276-307 | In particular, so it is for every section of the file of a saved state. |
| AcceptedFiles.SectionNumbers | src/storage/format.hpp:33-62 | Which numbered section of a saved state's file holds what, and which bits of the flags are set. |
| AcceptedFiles.SavedHeader | src/storage/format.cpp:51-66 | Magic bytes, version, byte order, flags, file size and number of sections stand at their offsets in the header of a saved file. |
| AcceptedFiles.SavedMetadata | src/storage/format.cpp:107-128 | Which value of a saved state stands at which byte of its metadata section. |
| IndexFile.GraphReadBack | src/index/hnsw/hnsw_io.cpp:136-144 | The written sections hold a graph the reader accepts if and only if the entry point is on top, and then it is the graph written. |
| IndexFile.WrittenIsRead | src/collection/index_writer.cpp:54-150 | A saved state within the level cap and with its entry point on top passes every check of the reader, as itself. |
| IndexFile.OthersAreRefused | src/collection/index_reader.cpp:242-428 | A file saved from any other state is read as no state at all. |
| IndexFile.HighCapExampleIsSaveable | src/collection/index_writer.cpp:54-150 | An empty flat index with a larger cap satisfies everything saving asks for. |
| IndexFile.WriteThenRead | src/collection/index_writer.cpp:54-150 | Reading a written state gives exactly that state (so writing it again gives the same bytes) if and only if its level cap is at most 32 and no node lies above its entry point; otherwise it is refused. |
| SavedGraphs.QuietGraphIsKept | src/index/hnsw/hnsw_insert.cpp:166-192 | Whatever links ran and failed, the graph is one that saving is proved for: levels and lists in order, and an entry point of its own level or none. |
| SavedGraphs.ReaderAgreesWithValidator | src/index/hnsw/hnsw_io.cpp:136-144 | On the graphs insertion leaves behind, the reader's check of the entry point and the whole validator agree. |
| SavedGraphs.SavedGraphReadsBackIff | src/collection/index_writer.cpp:54-150 | A saved graph is read back if and only if the validator accepts it. |
| SavedGraphs.FailedRowIsSaveable | src/collection/collection.cpp:170-177 | A collection with a tombstoned row above the entry point, within the level cap, satisfies everything saving asks for and does not read back. |
| SavedGraphs.FailedRowFromRun | src/index/hnsw/hnsw_insert.cpp:166-192 | Its graph is what a run with a failed link leaves behind. |
| RunRanges.PartitionedIff | src/concurrency/thread_pool.cpp:142-149 | Of a range shared in chunks, every index lies in exactly one if and only if the end of the last chunk fits in 64 bits. |
| RunRanges.CoveredIff | src/concurrency/thread_pool.cpp:111-159 | For all arguments: the body is run on every index exactly once if and only if the range is empty, is run whole by the caller, or the end of its last chunk fits in 64 bits. |
| RunRanges.NeverTwice | src/concurrency/thread_pool.cpp:111-159 | For all arguments: the body is run on no index twice and on none outside the range. |
| RunRanges.WrapExample | src/concurrency/thread_pool.cpp:146-147 | A range of two chunks, shared with helpers, whose second chunk wraps and is never run. |
| RangeHelpers.StepKeepsInv | src/concurrency/thread_pool.cpp:111-192 | Every step of the caller and the helpers keeps the invariant, whether or not the shared block is allocated, a body throws or a task cannot be queued. |
| RangeHelpers.BegunOnce | src/concurrency/thread_pool.cpp:137-159 | Under every interleaving each chunk is begun at most once. |
| RangeHelpers.ReturnsAlone | src/concurrency/thread_pool.cpp:186-191 | When the caller returns, no helper runs a chunk or ever will. |
| RangeHelpers.ReturnIsComplete | src/concurrency/thread_pool.cpp:134-191 | Without an error every chunk has been run; an error is reported exactly if a body threw or the shared block could not be allocated (then no chunk was begun), and always if a chunk was skipped. |
| RangeHelpers.NeverStuck | src/concurrency/thread_pool.cpp:186-191 | Until the caller has returned some step is possible: its wait never misses the last helper. |
| RangeHelpers.RunsEnd | src/concurrency/thread_pool.cpp:111-192 | Every run is bounded by a measure of its start. |
| RangeRuns.StartedAtMostOnce | src/concurrency/thread_pool.cpp:111-192 | At any moment of any interleaving, also after errors, the body has been started at most once on any index. |
| RangeRuns.ReturnedRunsEachOnceIff | src/concurrency/thread_pool.cpp:111-192 | A shared run that returns without an error has run the body exactly once on every index, under every interleaving and number of helpers, if and only if the end of the last chunk fits in 64 bits. |
| Snapshots.StepKeepsInv | src/storage/atomic_file.cpp:91-136 | Every step of saving and collecting, every failure and every crash keeps the invariant. |
| Snapshots.GenerationIsNext | src/collection/snapshot.cpp:160-187 | A snapshot is numbered right after the last one published. |
| Snapshots.CrashRecovers | src/collection/snapshot.cpp:160-238 | After a crash at any point of any run, nothing is damaged and recovery comes to a published snapshot at least as new as the last one reported as saved; it is loaded if and only if the index reader accepts what was saved. |
| Snapshots.LoadSeesNewest | src/collection/snapshot.cpp:189-204 | Without a crash a load opens the newest published snapshot, whatever garbage was collected, and loads it if and only if the index reader accepts it. |
| Snapshots.SaveCanFinish | src/collection/snapshot.cpp:160-187 | From every reachable state between saves, a save that nothing disturbs (the index file written, synced and renamed, its directory synced, then the same for the manifest) publishes its snapshot as the next generation, reported durable and found by recovery. |
| Snapshots.ReportedIsDurable | src/storage/atomic_file.cpp:129-136 | Once a save is reported, every later state has it in its history, and every directory that a crash then can leave is at least as new. |
| Snapshots.OpensWhatManifestNames | src/collection/snapshot.cpp:189-204 | Recovery comes to a snapshot exactly if the manifest names its index file with the checksum that file has. |
| Snapshots.CollectableIff | src/collection/snapshot.cpp:206-238 | Between saves, a collection may remove exactly the names other than the manifest and the index file it names. |
| Snapshots.CollectionCanFinish | src/collection/snapshot.cpp:206-238 | From every reachable state between saves, removals lead to a directory with just these two names. |

## Left out

- Weak memory order: all stores are sequentially consistent, and loads made under a stripe are merged with taking it.
- Stripe hashing: two nodes never share a lock, so contention between unrelated nodes is not modelled.
- `HnswBackend::add`: the sequential insertion is the same four phases with nobody else running; only `link` is modelled as a protocol.
- NeighborSelect.SelectNeighbors: the distance between two candidates is any function; the link protocol therefore allows any selection within the bounds, not only the nearest.
- LayerSearch.SearchLayer: the graph does not change during the search; what a search can meet while links run is `LinkTheorems.TraversalSafe`.
- LayerSearch.SearchWith: distances are reals, so float rounding, normalisation and SIMD kernels are not part of the model.
- Recall and reachability of all nodes: the code does not promise them (orphans that cannot be repaired are counted).
- FairLock.NeverStuck: possible progress of some thread; that the operating system schedules it is assumed.
- CollectionStates.CollectionState.AppendIndexed: the index is its node count and its set of linked rows; the graph itself is in the link protocol.
- CollectionStates.Collection.CheckBatch: repeated ids are refused by meaning; the sort that finds them is not modelled.
- CollectionStates.CollectionState.Insert: the map node allocated by `reserve` never fails in the model; in the code a failure there changes nothing.
- CollectionStates.Collection.AddBatch: the 2 ms slice only changes when the lock is released between rows, which the contract holds at anyway.
- CollectionStates.Collection.Section: rows of a section are linked one after the other with arbitrary failures; their interleavings are in the link protocol. The 2 ms slice is an arbitrary cut.
- `VectorStore`: rows are a sequence; heap and mapped chunk addressing repeats the base lists of `GraphLayout`.
- Error codes and messages of the readers: a refused file is `None`, whatever the reason.
- IndexContainer.Parse: the checksum is a parameter, which `Crc32c` proves separately.
- IndexFile.ReadIndex: full verification only; the test of vector components and the number of graph nodes per chunk are parameters; mapping a file into memory is left out.
- Default chunk sizes and the parameter checks of `create`: easy range checks, taken as given for a graph or an index.
- RangeHelpers.StepKeepsInv: other tasks in the pool, shutdown and worker threads joining are left out; a task may fail to be queued at any time.
- Snapshots.CrashRecovers: directory changes persist in order and a rename is atomic; manifest text and file names are abstract, and a checksum identifies a content. Which contents the index reader accepts is a parameter; `IndexFile.WriteThenRead` says which they are.
- Buffering in `OutputFile`, byte-count statistics, the reachability report, random generators other than the bounded draw.
- HTTP server, JSON, metrics, logging, command line, Python bindings, data sets and benchmarks.
