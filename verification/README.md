# RDF Fusion storage: a verified model

RDF Fusion stores RDF quads in an append-only log of operations and in sorted quad tables that lag
behind the log. Most of the storage engine is a fast way to compute something simple: a scan combines an
old table with a condensed changeset instead of replaying the log, a Parquet scan skips files, row groups
and pages instead of filtering every row, a reader takes blocks from a cache instead of reading the file.
This project models these fast paths in Dafny and proves that they agree with the simple thing.
`dafny verify dfyconfig.toml` checks all of it.

## The model

- **The log and its meaning.** `OperationLog` replays operations. A changeset is judged by the verdict of
  the last operation that touches a quad. `LogChangeset` models how a stream of operations is condensed,
  partitioned and extended; `DeltaLog` models the commits, their files and the changeset cache.
- **Writing.** `Transaction` and `CommitWorkers` model pending calls, the worker pool and the commit.
- **The store over time.** `StoreProtocol` is a transition system of commits, refreshes, optimize runs and
  two-stage snapshots that interleave freely; `StoreRuns` treats runs with one optimize run at a time and
  shows a run with overlapping ones that goes wrong. `StoreHistory` relates each state of a run to the events
  before it: what the log holds and how recent a snapshot is. `Refresh` is a transition system of concurrent
  `ensure_fresh` calls.
- **Reading.** `Sorting`, `ScanPlan` and `Storage` build and run the plan of a pattern scan. `Predicates`,
  `Pruning` and `ParquetScan` model filter rewriting, pruning and the Parquet scan. `Switch` models the
  switch to another table at execution time and `LookupScan` the scan it switches to. `Estimator` models the
  byte and row estimates, and `PlanEstimates` what they say about the rows of a pruned file. `BlockCaching`
  reads through the shared block cache while others insert and evict.
- **Describing a dataset.** `SortOrders`, `Dataset` and `DatasetRoundTrip` print and parse `dataset.ttl`.

Terms are numbers where only their order matters and structs of fields where the filters look inside.
A graph name is an option: none is the default graph, and it equals itself, as in the joins of the scan.
Integers are unbounded except where a 64-bit limit decides something (`ParseU64`, `SaturatingMul`).
Object stores, file writers, clocks, statistics collection, DataFusion's pruning tests and the order in
which hash maps and graphs enumerate are parameters, constrained only by what their users rely on.

## Where the code and its promises differ

- A changeset covers the commits from its start to its end, **both included**
  (lib/storage-deltalake/src/log/mod.rs:379), so every changeset overlaps the table it is applied to by one
  commit. `OperationLog.OverlapIsHarmless` and `StoreProtocol.UpdateKeepsConsistent` show that this is
  harmless, and `StoreProtocol.UpdateRightIff` that it buys one version of slack and no more.
- `optimize` decides from versions it read earlier and never looks at the version of the table it updates
  (lib/storage-deltalake/src/storage.rs:448-469). An update is right if and only if the table is at most
  one commit behind the changeset's start (`StoreProtocol.UpdateRightIff`). Overlapping optimize runs, never
  more than two at a time, can violate this and bring back a removed quad
  (`StoreRuns.OverlappingOptimizeLosesRemoval`). One run at a time never does
  (`StoreRuns.SequentialRunIsGuarded`).
- A switched scan is meant to be equivalent to the planned one. A filter that the planned scan absorbed
  (lib/storage-parquet/src/scan.rs:308-374) is applied nowhere else, but the alternative is built from the
  pattern and the lookup alone (lib/storage-parquet/src/switch.rs:241-252), so the switch drops the filter
  (`Switch.SwitchLosesAbsorbedFilter`). A switch is right if and only if the pattern and what is left above
  imply every absorbed filter (`Switch.SwitchRightIff`). It suffices to check that the scan absorbed nothing
  but the join's dynamic filters; the other results about switching assume that check.
- `negate_filter` is not the complement of an equality with a null literal
  (`Predicates.EqualityNegationIff`). A test that is sound for the negated filter may then call row groups fully
  matching although no row matches, so that the page index is not loaded where it could prune
  (`ParquetScan.NegatedTestIsSoundIff`). No row is lost: `ParquetScan.BuildScan` does not depend on it.
- A transaction that has read the store is not retried on a conflict. It fails if and only if the
  store holds a commit that the node's shared table state lacks; its base snapshot plays no part, so a commit
  by the same node after the base goes unnoticed (`Transaction.DeltaQuadsTransaction.Execute`,
  `Transaction.StaleReaderCommits`, `StoreProtocol.LocalCommitsNeverConflict`).
- A transaction reads its own writes in scans, but the named graphs of its snapshot are those of the log version
  without the pending calls (lib/storage-deltalake/src/snapshot.rs:159-183): a graph it just created is missing
  (`Storage.NamedGraphsOf`, `Storage.PendingGraphIsNotListed`).
- When no row is read, the byte estimator reports a total of exactly zero although its columns may report
  bytes: if and only if some chunk is counted as a whole, or for a page with an empty select run strictly
  inside (`Estimator.BytesWithoutRowsIff`, with an input for each).
- The printed form of a sort order without components or with repeated ones cannot be parsed back
  (`SortOrders.ShowParseIff`).

## Model

| member | source | states |
|---|---|---|
| OperationLog.ReplayByLastTouch | lib/storage-deltalake/src/log/mod.rs:103-170 | Whether a quad exists after replaying any operations is decided by the last one that touches it, and by what was stored only if none does |
| OperationLog.OverlapIsHarmless | lib/storage-deltalake/src/scan_plan_builder.rs:303-424 | A changeset applied to any table that agrees with the state before its first operation on the untouched quads gives exactly the replayed state |
| OperationLog.TableWithinRange | lib/storage-deltalake/src/scan_plan_builder.rs:303-424 | A changeset of a range of operations may be applied to a table at any point within the range |
| OperationLog.DisagreementSurvives | lib/storage-deltalake/src/scan_plan_builder.rs:303-424 | The converse: applying a changeset reaches the replayed state if and only if the table agrees off the touched quads |
| LogChangeset.FoldKeepsLastTouch | lib/storage-deltalake/src/log/compute_log_changes.rs:236-360 | The keyed aggregate with its graph barriers holds, for every quad, exactly the verdict of the last operation that touches it |
| LogChangeset.FoldKeepsNamedGraphs | lib/storage-deltalake/src/log/compute_log_changes.rs:236-360 | A CREATE or CLEAR entry of a graph is kept exactly for the graphs that exist by name after replaying |
| LogChangeset.ChangesetStream.RemoveEntriesForGraph | lib/storage-deltalake/src/log/compute_log_changes.rs:338-360 | Removes exactly the entries of the graph, or only its quad entries, and keeps all others |
| LogChangeset.ChangesetStream.ProcessBatch | lib/storage-deltalake/src/log/compute_log_changes.rs:236-313 | Processing a batch in place is folding its operations, so batch boundaries do not matter |
| LogChangeset.ChangesetStream.TakeRows | lib/storage-deltalake/src/log/compute_log_changes.rs:361-399 | Emits every remaining operation once and leaves the state empty |
| LogChangeset.PartitionKeepsVerdicts | lib/storage-deltalake/src/log/changeset_eager.rs:200-373 | Splitting the remaining operations, listed in any order, into cleared graphs, removed and added quads keeps every quad's verdict |
| LogChangeset.PartitionOperations | lib/storage-deltalake/src/log/changeset_eager.rs:200-373 | One pass over the rows computes the five parts of the changeset |
| LogChangeset.AddedGraphsAreLiveGraphs | lib/storage-deltalake/src/log/changeset_eager.rs:200-373 | The added graphs are exactly those that exist by name or hold a quad after replaying |
| LogChangeset.DroppedGraphsWereDropped | lib/storage-deltalake/src/log/changeset_eager.rs:200-373 | The dropped graphs are exactly the named graphs that some operation dropped |
| LogChangeset.ComputeEager | lib/storage-deltalake/src/log/changeset_eager.rs:44-52 | The eager changeset of any stream of batches stands for all its operations, and lists the live graphs |
| LogChangeset.ListingRepresents | lib/storage-deltalake/src/log/changeset_eager.rs:110-141 | Turning a changeset back into operations loses nothing: they stand for the same changes |
| LogChangeset.ToOperations | lib/storage-deltalake/src/log/changeset_eager.rs:110-141 | Lists clears, drops, creations, removals and insertions, each part with exactly its operations, in the order in which they are replayed |
| LogChangeset.Extend | lib/storage-deltalake/src/log/changeset_eager.rs:53-108 | Extending the changeset of some operations by further ones gives a changeset of all of them |
| LogChangeset.InsertionsOnlyRepresents | lib/storage-deltalake/src/log/add_only_changeset.rs:108-225 | For operations that are all insertions the lazy changeset stands for them, and its added graphs are the live graphs of the replayed operations |
| DeltaLog.InsertionFileIsInsertions | lib/storage-deltalake/src/log/operation_log_file.rs:31-64 | A file whose truthful statistics allow only the insertion code holds only insertions |
| DeltaLog.SortedListingsAgree | lib/storage-deltalake/src/log/mod.rs:437-546 | Any two listings of the same rows sorted by commit and sequence id give every quad the same verdict, however ties fall |
| DeltaLog.SortedListingsLiveAlike | lib/storage-deltalake/src/log/mod.rs:437-546 | Such listings also leave the same graphs live, by name or by a quad |
| DeltaLog.EagerRepresents | lib/storage-deltalake/src/log/mod.rs:345-366 | The changeset of the sorted file rows stands for the commits' operations in call order |
| DeltaLog.LazyRepresents | lib/storage-deltalake/src/log/mod.rs:310-343 | Files of insertions, read in any order, stand for the commits' operations |
| DeltaLog.DeltaQuadsLog.LoadAddedFilesBetween | lib/storage-deltalake/src/log/mod.rs:369-407 | Loads the rows of the commits from start to end, both included, as a permutation |
| DeltaLog.DeltaQuadsLog.Append | lib/storage-deltalake/src/transaction.rs:285-303 | A commit appends its operations to the log and every cached changeset stays right |
| DeltaLog.DeltaQuadsLog.ComputeChangeset | lib/storage-deltalake/src/log/mod.rs:310-366 | Whether cached, lazy or eager, the changeset stands for the operations of the range, and its added graphs are the live graphs after them |
| CommitWorkers.StepKeepsValid | lib/storage-deltalake/src/transaction.rs:227-277 | In every step of any worker, the streams taken so far have one owner each and every worker has written or still owes exactly the rows of its streams |
| CommitWorkers.StepMakesProgress | lib/storage-deltalake/src/transaction.rs:242-267 | Every step of an open worker brings the pool closer to its end |
| CommitWorkers.AssignedIsEverything | lib/storage-deltalake/src/transaction.rs:221-283 | Whoever took which stream, the rows of all workers are the multiset of the rows of all streams |
| CommitWorkers.RunWorkers | lib/storage-deltalake/src/transaction.rs:221-283 | For every schedule each stream is consumed once, by one worker, and nothing is lost or doubled |
| Transaction.PartsInCallOrder | lib/storage-deltalake/src/transaction.rs:110-189 | The parts carry their index as sequence id, so their concatenation is in call order and each call is uniform |
| Transaction.PartitioningKeepsRows | lib/storage-deltalake/src/transaction.rs:212-219 | Executing the parts partition by partition keeps their rows |
| Transaction.QuadOpsReplay | lib/storage-deltalake/src/transaction.rs:84-101 | Replaying the operations of an insertion on any state adds exactly the given quads, those of a removal remove exactly them |
| Transaction.GraphOpsReplay | lib/storage-deltalake/src/transaction.rs:166-189 | Replaying CLEAR or DROP on any state leaves no quad of the listed graphs and keeps all others; CREATE changes no quad |
| Transaction.GraphOpsName | lib/storage-deltalake/src/transaction.rs:166-189 | After any operations, CREATE and CLEAR make the listed graphs exist by name, DROP ends their existence, and no other graph is affected |
| Transaction.DeltaQuadsTransaction.AppendQuads | lib/storage-deltalake/src/transaction.rs:84-163 | An accepted call changes what the pending calls make of any state by exactly the given quads, added or removed, and names no graph; a wrong schema adds nothing |
| Transaction.DeltaQuadsTransaction.AppendGraphOperations | lib/storage-deltalake/src/transaction.rs:166-189 | Adds one pending graph operation per graph after the earlier calls, with the stated effect on the quads of any state and on the graphs that exist by name |
| Transaction.DeltaQuadsTransaction.Snapshot | lib/storage-deltalake/src/transaction.rs:454-534 | The transactional changeset stands for the whole log up to the base version and then the pending calls; the transaction is marked as possibly dependent |
| Transaction.DeltaQuadsTransaction.Execute | lib/storage-deltalake/src/transaction.rs:193-306 | Commits all pending calls in call order as one log entry, after which the shared state includes it, or commits nothing; fails exactly if it may depend on the state and the store is ahead of the shared state; empty transactions commit nothing |
| Transaction.StaleReaderCommits | lib/storage-deltalake/src/transaction.rs:285-303 | A reading transaction commits although another transaction of the same node committed after its base |
| StoreProtocol.UpdateKeepsConsistent | lib/storage-deltalake/src/storage.rs:437-469 | Applying the changeset of start..end to any consistent table not older than the commit before start gives a consistent table at end |
| StoreProtocol.UpdateRightIff | lib/storage-deltalake/src/storage.rs:448-469 | An update is right for every log and table content if and only if start is at most one after the table's version |
| StoreProtocol.ScanIsReplay | lib/storage-deltalake/src/scan_plan_builder.rs:142-171 | A scan of a consistent table of any version with the changeset up to the snapshot's version returns the replayed log |
| StoreProtocol.TransactionScanIsReplay | lib/storage-deltalake/src/transaction.rs:454-534 | The changeset of the whole log and the pending calls may be overlaid on a table of any version up to the base: the scan reads the base state and then the own writes |
| StoreProtocol.StepKeepsInv | lib/storage-deltalake/src/storage.rs:342-472 | Every guarded step of commits, refreshes, optimize runs and snapshots keeps every table and snapshot consistent |
| StoreProtocol.RunKeepsInv | lib/storage-deltalake/src/storage.rs:342-472 | The invariant holds in every state of every guarded run |
| StoreProtocol.EveryScanIsReplay | lib/storage-deltalake/src/storage.rs:342-366 | In every guarded run, at every moment, a scan of any table of any snapshot returns the replay of the log up to the snapshot's version |
| StoreProtocol.EveryTransactionScanIsReplay | lib/storage-deltalake/src/transaction.rs:454-534 | In every guarded run a transaction based on any snapshot reads the snapshot's state followed by its own pending calls, from any table |
| StoreProtocol.SnapshotTablesAreOlder | lib/storage-deltalake/src/storage.rs:351-365 | In every run, guarded or not, no table of a snapshot is newer than the snapshot's log version |
| StoreProtocol.NoVersionError | lib/storage-deltalake/src/storage.rs:412-427 | In every run no optimize run ends in the version error |
| StoreProtocol.UnseenCommitIsRemote | lib/storage-deltalake/src/transaction.rs:285-303 | In every run, each commit that the shared state lacks was made by another node |
| StoreProtocol.LocalCommitsNeverConflict | lib/storage-deltalake/src/transaction.rs:285-303 | In every run in which only this node commits, the store is never ahead of the shared state, so no reading transaction fails, however old its snapshot |
| StoreProtocol.RemoteCommitConflicts | lib/storage-deltalake/src/transaction.rs:288-290 | In every run, a commit by another node puts the store ahead, so reading transactions fail until the state is refreshed |
| StoreHistory.LogIsCommits | lib/storage-deltalake/src/transaction.rs:285-303 | In every run the log holds exactly the commits that were made, in their order |
| StoreHistory.SnapshotIsRecent | lib/storage-deltalake/src/storage.rs:342-366 | In every run a taken snapshot has one table for each of the store, each as the store held it at some moment since the snapshot began, and its version is between that of the local view at its begin and now |
| StoreHistory.SnapshotIncludesEarlier | lib/storage-deltalake/src/storage.rs:351-357 | In every run a snapshot includes each local commit, with its operations, and each refresh that came before it began |
| StoreHistory.UndisturbedSnapshot | lib/storage-deltalake/src/storage.rs:342-366 | In any state the steps of a snapshot can be taken, and without other steps in between they take the tables and the version of the store |
| StoreHistory.UndisturbedOptimize | lib/storage-deltalake/src/storage.rs:400-472 | In any state the steps of an optimize run can be taken, and without other steps in between they bring every table to the version of the local view, by the changeset if it was not there |
| StoreRuns.SequentialRunIsGuarded | lib/storage-deltalake/src/storage.rs:400-472 | With one optimize run at a time every run is guarded |
| StoreRuns.EqualVersionsEqualTables | lib/storage-deltalake/src/storage.rs:400-472 | With one optimize run at a time, tables of equal version always hold equal quads: those of that log version |
| StoreRuns.EqualVersionsEqualSnapshotTables | lib/storage-deltalake/src/scan_plan_builder.rs:110-121 | The same for the tables of every snapshot, among which a scan chooses those it may switch to |
| StoreRuns.OverlappingOptimizeLosesRemoval | lib/storage-deltalake/src/storage.rs:400-472 | A run of overlapping optimize runs, never more than two active, after which a table at the log's version holds a removed quad |
| Sorting.SortSpec | lib/storage-deltalake/src/scan_plan_builder.rs:390-421 | Sorting yields a sorted permutation |
| Sorting.MergeSpec | lib/storage-deltalake/src/scan_plan_builder.rs:390-421 | Merging sorted inputs yields a sorted permutation of both |
| Sorting.DedupSorted | lib/physical/src/distinct/exec.rs:156-241 | Removing adjacent duplicates from a sorted sequence leaves a strictly sorted one with the same elements |
| Sorting.HasAdjacentDuplicates | lib/physical/src/distinct/exec.rs:156-241 | Finds out whether two adjacent rows of a batch are equal |
| Sorting.UniqueRows | lib/physical/src/distinct/exec.rs:156-241 | Keeps exactly the rows that differ from their predecessor, the first one compared with the previous batch |
| Sorting.SortedDistinctStream.Poll | lib/physical/src/distinct/exec.rs:156-241 | Each poll continues the deduplication where the last batch ended |
| Sorting.DistinctBatches | lib/physical/src/distinct/exec.rs:156-241 | The batches together are the deduplicated concatenation, wherever the batches are cut |
| ScanPlan.TableOrderIsTotal | lib/storage-deltalake/src/scan_plan_builder.rs:390-421 | Every permutation of the four components, nulls first, orders quads totally |
| ScanPlan.SortedRowsAscend | lib/storage-deltalake/src/scan_plan_builder.rs:390-421 | In a sorted table, where two rows first differ the earlier one has no value, or both have one and the earlier is smaller: ascending, nulls first |
| ScanPlan.DealFiles | lib/storage-deltalake/src/scan_plan_builder.rs:550-583 | Dealing files out in turn yields at most as many nonempty groups as partitions, keeps every file once, and the sizes of the groups differ by at most one |
| ScanPlan.ScanQuadTable | lib/storage-deltalake/src/scan_plan_builder.rs:426-472 | The table scan returns the matching rows of the table as a multiset, is absent only for a table without files, and an exact row count in its statistics is the number of its rows |
| ScanPlan.SortedUnion | lib/storage-deltalake/src/scan_plan_builder.rs:390-421 | Sorting, merging and removing duplicates gives a strictly increasing sequence of exactly the union |
| ScanPlan.ApplyChangesetPhysical | lib/storage-deltalake/src/scan_plan_builder.rs:303-424 | Filtering base, removed and added quads separately, with cleared graphs unfiltered, gives each matching quad of the changed table once, sorted if quads were added |
| ScanPlan.BuildWithChangeset | lib/storage-deltalake/src/scan_plan_builder.rs:178-255 | Also when the table is dropped because its filtered scan is empty, the plan returns the matching quads of the changed table |
| ScanPlan.BuildWithoutQuadTable | lib/storage-deltalake/src/scan_plan_builder.rs:257-300 | Without a table the plan returns the matching added quads, each once; unfiltered or empty, its statistics give their exact number |
| ScanPlan.Build | lib/storage-deltalake/src/scan_plan_builder.rs:178-255 | With or without a table and a changeset, the plan returns each matching quad of the target state once, and an exact row count in its statistics is their number |
| Storage.BestTable | lib/storage-deltalake/src/scan_plan_builder.rs:93-121 | Chooses the table of the highest score, the last one on ties, and none only if there is none |
| Storage.ComputeScanScore | lib/storage/src/quad_tables.rs:109-129 | The loop computes the specified score, whose order is proved |
| Storage.ScoreIsLexicographic | lib/storage/src/quad_tables.rs:103-129 | Of two orders of four components, one scores higher if and only if it has the bound component at the first position at which they differ |
| Storage.BestHasLongestPrefix | lib/storage-deltalake/src/scan_plan_builder.rs:93-121 | The chosen table has the longest bound prefix of all tables, so that no other restricts the scan to a narrower slice |
| Storage.SwitchableTables | lib/storage-deltalake/src/scan_plan_builder.rs:110-121 | The tables to switch to are exactly those with the version of the chosen one |
| Storage.ChangesetForLog | lib/storage-deltalake/src/scan_plan_builder.rs:142-171 | Fails exactly if the target is older than the table; otherwise yields the changeset in between, or none if the versions are equal |
| Storage.TargetIsSnapshot | lib/storage-deltalake/src/snapshot.rs:104-135 | Whatever table is chosen, with the log's or the transaction's changeset it leads to what the snapshot stands for |
| Storage.PlanQuadPatternScan | lib/storage-deltalake/src/snapshot.rs:104-135 | A pattern scan of a snapshot returns each matching quad of the replayed log and pending calls once; it fails if and only if the best table is newer than the snapshot |
| Storage.CountRows | lib/storage-deltalake/src/snapshot.rs:214-238 | Whether taken from exact statistics or counted batch by batch, the count is the number of rows of the plan |
| Storage.Len | lib/storage-deltalake/src/snapshot.rs:185-212 | The length of a snapshot is the number of quads it stands for, also when the plan is not executed |
| Storage.NamedGraphsOf | lib/storage-deltalake/src/snapshot.rs:159-183 | The named graphs are exactly the graphs that exist by name or hold a quad at the snapshot's log version, whatever a transaction has pending |
| Storage.PendingGraphIsNotListed | lib/storage-deltalake/src/snapshot.rs:159-183 | A graph that a pending call creates is live after the calls but not at the log version, so it is missing from the named graphs |
| Storage.UpdateTable | lib/storage-deltalake/src/quad_table/update.rs:55-141 | Rewrites a table to the changed quads, strictly sorted by its order, at the new version |
| Storage.MinVersion | lib/storage-deltalake/src/storage.rs:412-420 | Finds the smallest version of the tables |
| Storage.DeltaQuadsStorage.SnapshotImpl | lib/storage-deltalake/src/storage.rs:342-366 | The snapshot holds the tables of the storage and the version of the local log, is valid, and none of its tables is newer than its version |
| Storage.DeltaQuadsStorage.TransactionSnapshot | lib/storage-deltalake/src/transaction.rs:454-534 | The transaction's snapshot stands for its base followed by its pending calls |
| Storage.DeltaQuadsStorage.UpdateTables | lib/storage-deltalake/src/storage.rs:448-469 | One changeset from the minimum version brings every table exactly to the end version |
| Storage.DeltaQuadsStorage.Optimize | lib/storage-deltalake/src/storage.rs:400-472 | Never fails, and afterwards every table holds exactly the quads of the log's version in its own order |
| Storage.SwitchingTablesKeepsAnswer | lib/storage-deltalake/src/scan_plan_builder.rs:110-121 | A scan that switches to another table of the same version has the same target state |
| Refresh.StepKeepsInv | lib/storage-deltalake/src/refresh.rs:34-74 | Every step of every concurrent call keeps the view as fresh as the returned calls relied on, and moves neither the version nor the last success backwards |
| Refresh.ReturnedIsFresh | lib/storage-deltalake/src/refresh.rs:34-74 | In every run, once a call that arrived at t with maximum age m has returned, the table contains every commit made up to t - m |
| Refresh.ReturnedMeetsConfiguredAge | lib/storage-deltalake/src/refresh.rs:34-74 | In every run a returned call has the arrival time of its arrival event, and the maximum age configured at its first step was none or is met: every commit made up to the arrival minus that age is in the table |
| Refresh.LocalCommitIsSeen | lib/storage-deltalake/src/transaction.rs:285-303 | A commit of this node is in its table at once |
| Refresh.StateFollowsEvents | lib/storage-deltalake/src/refresh.rs:29-42 | In every run the store holds exactly the commits that were made, and the configured maximum age is the one set last |
| Refresh.LoadsOnlyIfStale | lib/storage-deltalake/src/refresh.rs:44-58 | In every run a call past the second check still finds the last success too old for its arrival and age |
| Refresh.OneRefreshServesAll | lib/storage-deltalake/src/refresh.rs:44-58 | Once a refresh succeeded that is recent enough for a call, that call never loads the table, also if it was already waiting for the mutex |
| Refresh.StepAdvances | lib/storage-deltalake/src/refresh.rs:34-74 | Every step brings its call closer to returning and leaves the other calls alone |
| Refresh.NeverBackwards | lib/storage-deltalake/src/refresh.rs:34-74 | Over every run the table version and the time of the last success never decrease |
| Refresh.OneRefreshAtATime | lib/storage-deltalake/src/refresh.rs:45-68 | At most one call is past the refresh mutex at any moment |
| Predicates.ConjunctionKeeps | lib/storage-parquet/src/scan_builder.rs:980-992 | A conjunction of filters keeps a row if and only if each of them does |
| Predicates.SplitKeeps | lib/storage-parquet/src/scan_builder.rs:980-992 | Splitting a filter into conjuncts keeps its meaning |
| Predicates.NegationIsExact | lib/storage-parquet/src/scan_builder.rs:1063-1090 | For every supported filter and row exactly one of three holds: the filter, its negation, or the row is lost to both by a null literal |
| Predicates.NegateSucceedsIff | lib/storage-parquet/src/scan_builder.rs:1063-1090 | A filter is negated if and only if it is a conjunction of equalities with a literal and of null checks |
| Predicates.NegationIsComplement | lib/storage-parquet/src/scan_builder.rs:1063-1090 | Without null literals the negation is true exactly where the filter is not |
| Predicates.EqualityNegationIff | lib/storage-parquet/src/scan_builder.rs:1063-1090 | The negation of an equality is its complement if and only if the literal is not null or the value always is |
| Predicates.RewriteKeepsRows | lib/storage-parquet/src/scan_builder.rs:1099-1327 | Comparing fields instead of plain terms accepts exactly the same rows for every tree of equalities, column equalities and IN lists |
| Predicates.RewriteSucceedsIff | lib/storage-parquet/src/scan_builder.rs:1099-1327 | Rewriting a pattern filter succeeds if and only if every comparison with a plain-term literal compares a column with a non-null term and every IN list with a plain-term literal is not negated and holds only named nodes |
| Predicates.RewriteLeavesNoPlainLiteral | lib/storage-parquet/src/scan_builder.rs:1099-1139 | No plain-term literal is left in a rewritten filter |
| Pruning.PruneFileKeepsMatches | lib/storage-parquet/src/scan_builder.rs:502-610 | For all sound tests, the four pruning phases keep every matching row of a file in order, and drop a file only if it has none |
| Pruning.PruneFileReads | lib/storage-parquet/src/scan_builder.rs:502-610 | A row is read if and only if no test rejects its file, its row group or, unless all groups left are fully matching, its page; a file remains only if something of it is read |
| Pruning.BoundsRemainValid | lib/storage-parquet/src/scan_builder.rs:502-610 | The bounds passed on still bound the remaining rows |
| Pruning.SurvivorsKeepMatches | lib/storage-parquet/src/scan_builder.rs:418-500 | The surviving files keep every matching row of all files in the original order |
| Pruning.SplitInOrderSpec | lib/storage-parquet/src/scan_builder.rs:1151-1162 | Splitting yields at most n nonempty groups, none larger than an even share rounded up, whose concatenation is the input |
| Pruning.PruneGroups | lib/storage-parquet/src/scan_builder.rs:418-500 | Pruning fills each group with the survivors of its own files in order |
| Pruning.ApplyEagerPruning | lib/storage-parquet/src/scan_builder.rs:418-498 | The regrouped survivors are those of all files in order, in at most the requested number of groups; the row count is exact if and only if no row is read |
| Pruning.SumEstimates | lib/storage-parquet/src/scan_builder.rs:491-497 | The summed estimates of the files are the number of rows read, exact only if it is zero |
| ParquetScan.RemoveProvenKeepsRows | lib/storage-parquet/src/scan_builder.rs:980-1037 | Dropping null checks that exact file statistics prove leaves the verdict on every row of every scanned file unchanged; an empty rest means every row matches |
| ParquetScan.ProvenIff | lib/storage-parquet/src/scan_builder.rs:994-1031 | A null check is dropped if and only if every file has exact counts for the column and the check holds for every row |
| ParquetScan.RemoveProvenLeaves | lib/storage-parquet/src/scan_builder.rs:980-992 | No filter is left if and only if every conjunct is proven |
| ParquetScan.NegatedTestIsSound | lib/storage-parquet/src/scan_builder.rs:712-727 | Without null literals, every test that is sound for the negated filter is sound for the rows that do not match the filter |
| ParquetScan.NegatedTestIsSoundIff | lib/storage-parquet/src/scan_builder.rs:1063-1090 | For the equality of a column with a literal this holds if and only if the literal is not null |
| ParquetScan.FullyMatchingRows | lib/storage-parquet/src/scan_builder.rs:1032-1057 | If a test that is sound for the negated filter rejects all remaining row groups, each of their rows matches the filter unless a null literal loses it to both, and all match without null literals |
| ParquetScan.SkippingPageIndexLosesNothing | lib/storage-parquet/src/scan_builder.rs:565-590 | Without null literals, a file is read in exactly the rows it would be read in if the page index had always been loaded |
| ParquetScan.OutputIsFiltered | lib/storage-parquet/src/scan_builder.rs:171-317 | Whichever conjuncts the source evaluates, the output is the filtered input |
| ParquetScan.BuildScan | lib/storage-parquet/src/scan_builder.rs:171-280 | The pruned, rewritten scan returns exactly what a naive filter over all rows returns, in file order; it fails if and only if a comparison of the filter cannot be rewritten |
| Switch.ConditionsNecessary | lib/storage-parquet/src/switch.rs:511-600 | Every row that matches a dynamic filter, through AND, IN lists and CASE, satisfies every IN condition found in it |
| Switch.ConditionsFoundIff | lib/storage-parquet/src/switch.rs:526-595 | A condition is found on exactly the columns that every branch which can match restricts |
| Switch.ConditionsMention | lib/storage-parquet/src/switch.rs:526-595 | Every value of a condition stands in an IN list of the filter on that column |
| Switch.LookupIsCondition | lib/storage-parquet/src/switch.rs:475-487 | The disjunction of equalities is true exactly for the rows whose column holds one of the values |
| Switch.LookupPrefix | lib/storage-parquet/src/switch.rs:309-324 | A table supports a lookup if and only if its order reaches the component after bound components only; the prefix is the longest one of bound and looked-up components |
| Switch.BestLookup | lib/storage-parquet/src/switch.rs:304-339 | The table with the longest lookup prefix, the first on ties, and none only if no table supports the lookup |
| Switch.LookupTable | lib/storage-parquet/src/switch.rs:304-339 | None exactly if the planned table already supports the lookup or no table does; otherwise another table of maximal prefix |
| Switch.LookupIsOneRun | lib/storage-parquet/src/switch.rs:299-325 | In a table sorted by such a prefix the rows of one combination of looked-up values lie next to each other |
| Switch.CandidatesNecessary | lib/storage-parquet/src/switch.rs:165-188 | Rows that match all dynamic filters satisfy every lookup candidate |
| Switch.CandidatesAre | lib/storage-parquet/src/switch.rs:165-184 | The candidates are exactly the conditions of complete filters on components that the pattern leaves open |
| Switch.ChooseLookup | lib/storage-parquet/src/switch.rs:189-202 | Chooses the first candidate with the fewest values among those with a lookup table, and none only if no candidate has a table |
| Switch.Decide | lib/storage-parquet/src/switch.rs:151-297 | Switches to a scan if and only if the planned one is neither limited nor ordered and the chosen lookup builds that scan with at most as many partitions, both its page bound and its estimate being clearly fewer rows |
| Switch.MustSwitch | lib/storage-parquet/src/switch.rs:151-297 | A switch happens whenever some candidate has a lookup table and every such lookup pays |
| Switch.PushdownKeepsRows | lib/storage-parquet/src/scan.rs:308-374 | Without a switch, the absorbed filters inside the scan and the others above it keep exactly the rows that all of them keep |
| Switch.AbsorbedByPushdown | lib/storage-parquet/src/scan.rs:326-360 | Whatever the scan absorbs calls no user-defined function, and the inner scan answered yes to that very filter |
| Switch.SwitchRightIff | lib/storage-parquet/src/switch.rs:80-84 | A switch returns the planned rows for all tables with the same quads if and only if the pattern and what is left above imply every filter the scan absorbed |
| Switch.SwitchLosesAbsorbedFilter | lib/storage-parquet/src/switch.rs:240-253 | An input on which the switched scan returns a row that an absorbed filter excludes |
| Switch.SwitchKeepsRows | lib/storage-parquet/src/switch.rs:80-84 | If the scan absorbed nothing but the join's dynamic filters, the looked-up scan of a table with the same quads keeps exactly the rows the join keeps and returns no row more often than the pattern does |
| Switch.SwitchBelowChangeset | lib/storage-deltalake/src/scan_plan_builder.rs:442-469 | Under the same check, below a changeset or a transaction's overlay, switching to any consistent table of the same version gives the planned rows, those of the replayed state that the join keeps, even if the tables differ |
| Switch.EverySwitchKeepsRows | lib/storage-deltalake/src/scan_plan_builder.rs:110-121 | In every guarded run, a scan of any snapshot that absorbed nothing but dynamic filters may switch among its tables of one version |
| LookupScan.LookupSpec | lib/storage-parquet/src/switch.rs:475-487 | The lookup filter is a filter like those of patterns, its rewriting never fails, and it keeps exactly the rows with one of the values |
| LookupScan.LookupAgrees | lib/storage-parquet/src/switch.rs:475-487 | On numbered terms it keeps the rows that the switch's lookup keeps |
| LookupScan.BuildLookupScan | lib/storage-deltalake/src/scan_plan_builder.rs:593-614 | The alternative scan, pruned and rewritten with the lookup, returns exactly the rows of its files that the pattern keeps and that hold one of the values; it fails if and only if a comparison of the pattern's filter cannot be rewritten |
| Switch.QuadTableSwitch.GetOrInit | lib/storage-parquet/src/switch.rs:130-149 | The decision is made once and shared |
| Switch.PartitionsAreScan | lib/storage-parquet/src/scan.rs:203-220 | All partitions together return each row of the chosen scan once, the surplus ones being empty |
| Switch.ExecuteAll | lib/storage-parquet/src/scan.rs:184-225 | Polled in any order with differing proposals, the partitions return the rows of one scan, never a mixture |
| Switch.HandlePushdown | lib/storage-parquet/src/scan.rs:308-374 | Each filter is reported with the inner scan's answer to that very filter, and filters with user-defined functions are refused |
| Estimator.SelectedCountIsCardinality | lib/storage-parquet/src/bytes_estimator.rs:122-128 | The row count of a selection is the number of selected rows |
| Estimator.TouchesIff | lib/storage-parquet/src/bytes_estimator.rs:58-89 | A nonempty page passes the overlap test if and only if it holds a selected row or an empty select run lies strictly inside it |
| Estimator.EstimateIsHitPages | lib/storage-parquet/src/bytes_estimator.rs:54-101 | A column's estimate is the size of exactly the pages that hold a selected row, and of the dictionary page if there is one |
| Estimator.EmptySelectCountsPage | lib/storage-parquet/src/bytes_estimator.rs:82-88 | A selection of no rows that is charged for a page |
| Estimator.EstimateMonotone | lib/storage-parquet/src/bytes_estimator.rs:48-105 | Selecting more rows never lowers the estimate |
| Estimator.EstimateWithinChunk | lib/storage-parquet/src/bytes_estimator.rs:48-107 | For a contiguous chunk the estimate never exceeds its size, and reading every page reads the whole chunk |
| Estimator.SelectedRanges | lib/storage-parquet/src/bytes_estimator.rs:58-71 | The ranges overlap any rows exactly if some select run does |
| Estimator.EstimateChunk | lib/storage-parquet/src/bytes_estimator.rs:48-107 | The loops compute the specified estimate of a chunk |
| Estimator.EstimateGroup | lib/storage-parquet/src/bytes_estimator.rs:36-113 | Adds to each column the bytes of its leaf chunks, and nothing is lost between columns and group |
| Estimator.ScanReportsWholeGroup | lib/storage-parquet/src/bytes_estimator.rs:48-113 | Scanning a row group, or selecting from it without an offset index, reports the sum of its chunks' compressed sizes |
| Estimator.EstimateScan | lib/storage-parquet/src/bytes_estimator.rs:27-142 | The columns sum to the bytes of all row groups; the total agrees with the sum exactly if a row is read or there are no bytes |
| Estimator.BytesWithoutRowsIff | lib/storage-parquet/src/bytes_estimator.rs:133-142 | For every scan that reads no row, columns report bytes if and only if a chunk of a group that is not skipped is counted as a whole or for a page with an empty select run inside |
| PlanEstimates.EstimateIsPlan | lib/storage-parquet/src/bytes_estimator.rs:115-130 | The estimated rows of a pruned file are the rows that its access plan reads |
| PlanEstimates.EstimateRemaining | lib/storage-parquet/src/scan_builder.rs:592-609 | The estimate of a surviving file is exactly zero rows if and only if its plan reads no row |
| Estimator.EmptySelectionKeepsColumnBytes | lib/storage-parquet/src/bytes_estimator.rs:102-104 | A selection of no rows without an offset index that still reports column bytes |
| BlockCaching.BlockOfIsQuotient | lib/storage-parquet/src/reader.rs:112-114 | The block of a byte is the quotient of its offset and the block size |
| BlockCaching.BlockStartIsProduct | lib/storage-parquet/src/reader.rs:117-118 | A block starts at the product of its index and the block size |
| BlockCaching.BlockCache.Insert | lib/storage/src/block_cache.rs:63-65 | Adds at most the inserted block, may evict any others, and respects the capacity |
| BlockCaching.PartOfBlock | lib/storage-parquet/src/reader.rs:250-260 | The slice of a block is the part of the file that lies in block and range |
| BlockCaching.AssembleRange | lib/storage-parquet/src/reader.rs:234-263 | A range assembled from blocks that cover it is the file's bytes |
| BlockCaching.BlockCachedReader.GetByteRanges | lib/storage-parquet/src/reader.rs:150-222 | Whatever coherent contents other readers leave between any two accesses, each range gets exactly the file's bytes; each needed block is looked up once, fetched once if and only if that lookup did not find it, and the cache stays coherent |
| BlockCaching.BlockCachedReader.GetBytes | lib/storage-parquet/src/reader.rs:104-148 | A single range gets exactly the file's bytes, by the direct path or by blocks, with the same lookups and fetches, and the cache stays coherent |
| SortOrders.ParseComponents | lib/common/src/sort_order.rs:133-146 | Parses the components or reports the first unknown character or the empty input |
| SortOrders.Validate | lib/common/src/sort_order.rs:47-68 | Succeeds exactly for distinct components and otherwise lists the repeated ones in order |
| SortOrders.FromStr | lib/common/src/sort_order.rs:110-129 | The parser in loops agrees with the parsing function, whose round trip and validity are proved: native forms are trimmed and case-insensitive, other texts are taken as they are |
| SortOrders.ShowParseIff | lib/common/src/sort_order.rs:79-129 | Printing and parsing returns the order if and only if it has components and repeats none; otherwise parsing fails |
| SortOrders.ParsedIsValid | lib/common/src/sort_order.rs:110-129 | Whatever is parsed has components and repeats none |
| SortOrders.DirectoriesDiffer | lib/storage-parquet/src/dataset.rs:162-180 | Different sort orders, or none, have different directories |
| SortOrders.DirectoryNames | lib/storage-parquet/src/dataset.rs:162-180 | The directory names of the unordered, a native and a SPARQL order |
| Dataset.NumberRoundTrip | lib/storage-parquet/src/dataset.rs:431-443 | Every unsigned 64-bit number is printed so that it is parsed back |
| Dataset.PathRoundTrip | lib/storage-parquet/src/dataset.rs:521-540 | A path resolved against the dataset's directory is stripped back, and only the empty path is refused |
| Dataset.WriteFile | lib/storage-parquet/src/dataset.rs:295-352 | Appends the triples of a file, leaving out columns without statistics |
| Dataset.WriteTurtle | lib/storage-parquet/src/dataset.rs:191-227 | Writes the header, the tables and the files of all tables |
| Dataset.ReadFileNode | lib/storage-parquet/src/dataset.rs:450-518 | Filling in the columns node by node agrees with the reading function of a file, whose round trip is proved, for any graph and with the first error |
| Dataset.FromTurtle | lib/storage-parquet/src/dataset.rs:234-292 | The loops over tables and files agree with the reading function, whose round trip is proved, for any graph and with the first error |
| DatasetRoundTrip.ReadSucceedsIff | lib/storage-parquet/src/dataset.rs:234-292 | Reading any graph succeeds if and only if the format version is 1, the encoding is known, and every table, file and column node is complete, parseable and inside the dataset; each table node yields one table |
| DatasetRoundTrip.ColumnRead | lib/storage-parquet/src/dataset.rs:475-504 | Reading a column's statistics node yields its normal form, with null bounds for columns that hold only nulls |
| DatasetRoundTrip.FileRead | lib/storage-parquet/src/dataset.rs:450-518 | Reading a written file yields its normal form |
| DatasetRoundTrip.TableRead | lib/storage-parquet/src/dataset.rs:267-285 | Reading a written table yields its normal form with files sorted by path |
| DatasetRoundTrip.RoundTrip | lib/storage-parquet/src/dataset.rs:182-292 | For any number of tables and files with distinct paths, reading what was written yields the normal form, in whatever order the graph enumerates its triples |
| DatasetRoundTrip.NormalIdempotent | lib/storage-parquet/src/dataset.rs:182-292 | The normal form is a fixed point: writing and reading again changes nothing more |

## Left out

- Serialisability of transactions that read: it does not hold, as a commit is built on the shared table state; the atomic append, read-your-writes and the exact condition of a conflict are proved.
- The Corruption error for a null subject, predicate or object in the log, and the byte encoding of aggregate keys, which is taken to be injective.
- StoreProtocol.Next: a table update is one step; a conflict of two updates of the same table inside the Delta table is not modelled.
- Transaction.DeltaQuadsTransaction.Execute: a worker writes one file; starting further files at the target file size is not modelled, as the proofs hold for any files with the same rows.
- ParquetScan.BuildScan: columns are not projected, and scans without eager pruning are not modelled.
- Pruning.ApplyEagerPruning: of the summed statistics only the row count is modelled; concurrent footer fetches are not.
- Storage.PlanQuadPatternScan: the score is a parameter, as any choice of table gives the same answer.
- Estimator.EstimateScan: null counts are not modelled, as they are sums of whole row groups reported as exact; 64-bit overflow of sums is not modelled.
- Switch.Decide: the rows per page of a column are a parameter that may fail, and the join's dynamic filters are taken to be conjuncts of what it keeps.
- Switch.SwitchBelowChangeset: how a filter travels through the joins and unions above a scan is not modelled.
- BlockCaching.BlockCache.Insert: the replacement policy is any; files are immutable, as the key holds only path and block, and the block size is positive.
- SortOrders.FromStr: upper-casing covers ASCII letters and trimming ASCII spaces.
- Dataset.WriteTurtle: Turtle is modelled by its triples, without lexing, escaping, type triples and general IRI resolution; printing and parsing of times are parameters that round trip.
- SPARQL expressions, typed values, plan builders, object-id dictionaries, other storages, the CLI and the web server.
