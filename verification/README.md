# anvil-zksync, verified parts

A Dafny 4.11 model of the parts of anvil-zksync (an in-memory ZKsync node) where a mistake is easy to make and
hard to see: call traces flattened into an arena of indices, the transaction pool and its locks, the protocol
that keeps an L1 in step with the node, filters, the disk-backed cache, and exponential notation. Check it with
`dafny verify dfyconfig.toml`.

## How the model is organised

- **Call traces.** `CallTraces` holds the node and arena types, `TraceForest` the pure forest behind an arena (its
  preorder layout and how it is read back), `TracePruning` what filtering by verbosity means on a forest,
  `TraceBuilder`, `TraceFilter` and `TraceWriter` the imperative build, filter and print. The methods are proved to
  produce exactly the layout of a pure function of the recorded calls, and the printed lines are proved to parse back
  to the pruned calls. `BuiltTraces`, `FilteredTraces`, `TraceLinks`, `TraceLevels` and `UnfilteredTraces` then say on
  the nodes and lines themselves what was built, kept, linked, indented and shown. `Selections` says what it means to
  keep the matching elements of a list.
- **Transaction pool.** `TransactionPool` is the pool as an object with atomic operations, `PoolBatching` the
  theory of draining it, `PoolLocks` the same pool as a state machine whose steps are lock acquisitions and
  whose runs are all interleavings. `PoolLocks.LocksRefineAtomicPool` ties the two together: `Perform` applies the
  functions that the contracts of `TxPool` state. `PoolLinearization` reads the operations off the threads' own calls.
- **L1 sidecar.** `L1Watcher`, `L1Sender`, `L1Executor` and `CommitmentGenerator` follow the components of the same
  name; L1's answers, the random root and the stored batches are parameters. `L1Sidecar` lets any number of manual
  commands and executors use one generator and one sender at once. `WatcherPool` runs the watcher as one thread of
  `PoolLocks`.
- **The rest.** `Filters`, `Cache` with `CacheFiles` and `CacheTables`, and `Numbers` with `Decimals`.

Numbers are unbounded unless a width matters: the pool's submission counter wraps at 2^64, filter ids stop at
2^256, verbosity is 8 bits, cache block numbers are 64 bits, and the writer's indentation level wraps at 2^16 as
in a release build (a debug build panics where it would wrap). All lemmas carry `{:induction false}`: their proofs
are their bodies.

## Where the code promises less than it seems to

- The watcher's two checks do not imply gap-free delivery: the response `[0, 0, 2]` passes
  (`L1Watcher.ChecksAloneAreNotEnough`). `L1Watcher.DeliveryIsContiguousIff` gives the exact condition on the response,
  and strictly increasing responses always meet it.
- A failed execute leaves its priority operations in the sender's Merkle tree, so that sending it again puts them there
  twice (`L1Sender.RetriedExecuteRepeatsOps`). `L1Sender.ExecuteTree` says exactly when later trees are unaffected.
- Two overlapping generations of one batch can answer differently (`CommitmentGenerator.OverlapFromTheStart`), and the
  difference reaches L1 (`L1Sidecar.OverlapReachesL1`). Without overlap every call to L1 that names a batch names the
  same metadata for it (`L1Sidecar.CallsShareMetadata`).
- One hash per block number does not make the cache's block hashes survive a restart: overwriting a key with a block
  of another number loses the first number (`Cache.OneHashPerNumberIsNotEnough`). `Cache.ReloadAfterHistory` gives the
  exact condition for every history, in terms of its insertions.
- A built arena keeps L2-L1 logs in its nodes but does not list them in `ordering`; printed without filtering it shows
  none of them (`UnfilteredTraces.UnfilteredHidesL2L1Logs`).
- Filtering an arena leaves an unreachable copy of the old root in slot 1; slot 0 becomes a default root. Results are
  stated from slot 0.

## Model

| member | source | states |
|---|---|---|
| CallTraces.CallTraceArena.constructor | crates/types/src/traces.rs:498-521 | An arena starts with exactly one default root. |
| CallTraces.CallTraceArena.AddNode | crates/types/src/traces.rs:526-545 | The node goes to the end with its slot as index and its logs as ordering; only the parent changes, by one child and one Call item naming that child's local position. |
| TraceForest.GraftAppend | crates/traces/src/lib.rs:64-66 | Hanging two forests one after the other under a node is hanging their concatenation. |
| TraceForest.GraftTree | crates/traces/src/lib.rs:131-136 | Pushing a bare node and then its subtrees under it lays out the whole tree, links and orderings included. |
| TraceForest.GraftDescends | crates/types/src/traces.rs:526-545 | Every layout step keeps all child slots behind their parents and in range. |
| TraceForest.ReadLaid | crates/types/src/traces.rs:438-455 | Reading a laid-out forest back through its child indices gives the forest. |
| TraceBuilder.ConvertCallToCallTrace | crates/traces/src/lib.rs:19-50 | A revert reason wins over an error, success means neither; the result carries the reason, the error or the output, and the name is that of a known target. |
| TraceBuilder.LogsFrom | crates/traces/src/lib.rs:78-94 | Exactly the events of the address, each once with its own position, in order. |
| TraceBuilder.SentBy | crates/traces/src/lib.rs:97-116 | A log is among the result exactly if it is a log of the sender. |
| TraceBuilder.SentBySelects | crates/traces/src/lib.rs:97-116 | All logs of the sender are kept, as often as they occur and in their order. |
| TraceBuilder.L2L1LogsFor | crates/traces/src/lib.rs:97-117 | First all user logs of the sender, then all its system logs, each positioned by transaction number. |
| TraceBuilder.ProcessCallAndSubcalls | crates/traces/src/lib.rs:71-137 | Adds the call's whole tree in preorder under the given parent and changes nothing else; `BuiltTraces` says what its nodes hold. |
| TraceBuilder.BuildCallTraceArena | crates/traces/src/lib.rs:53-68 | The arena is the root followed by the recorded calls in preorder; `BuiltTraces` says what its nodes hold. |
| TraceBuilder.BuildReadsBack | crates/traces/src/lib.rs:53-137 | The forest read from slot 0 of a built arena is the forest laid out. |
| BuiltTraces.BuiltNodesAreFaithful | crates/traces/src/lib.rs:19-129 | Every slot but the root describes its call (result, texts, name, addresses), holds exactly the events of the called contract with their positions in order, and exactly the user then system L2-L1 logs that contract sent; the root carries the transaction's result. |
| BuiltTraces.BuildRecordsCalls | crates/traces/src/lib.rs:53-137 | Reading the recorded call of each node through the children from slot 0 on gives back the given calls, nesting and order included. |
| BuiltTraces.BuiltIsLinked | crates/types/src/traces.rs:526-545 | Every node of a built arena knows its slot, is listed by its parent, and is named as parent by its children. |
| TracePruning.ShouldIncludeCall | crates/traces/src/lib.rs:231-247 | A call shows from verbosity 2 for users, 3 for system contracts and 4 for precompiles on. |
| TracePruning.Thresholds | crates/traces/src/lib.rs:231-247 | Precompiles show from verbosity 4 on, system contracts from 3 on, popular, other and unknown ones from 2 on. |
| TracePruning.RetainLogs | crates/traces/src/lib.rs:204-207 | No L2-L1 logs below 2, only user logs at 2, all from 3 on. |
| TracePruning.RetainSelects | crates/traces/src/lib.rs:204-207 | Exactly the logs the verbosity shows are retained, as often as they occur and in their order. |
| TracePruning.PruneTwice | crates/traces/src/lib.rs:155-220 | Pruning at v and then at w is pruning once at the smaller one, retained logs included. |
| TracePruning.PruneKeepsOrderAndAncestry | crates/traces/src/lib.rs:186-220 | The shown calls keep their preorder, and the ancestors of each are exactly its shown ancestors. |
| TraceFilter.FilterNodeRecursively | crates/traces/src/lib.rs:186-220 | Adds the pruned forest below the original node under the given parent, in preorder. |
| TraceFilter.FilterChild | crates/traces/src/lib.rs:194-218 | A shown child is copied and linked with its pruned subtree; a hidden one is replaced by its pruned children. |
| TraceFilter.RebuildOrdering | crates/traces/src/lib.rs:249-260 | The ordering lists all logs, then all L2-L1 logs, then all children. |
| TraceFilter.RebuildOrderings | crates/traces/src/lib.rs:178-181 | Every node gets its rebuilt ordering and keeps everything else. |
| TraceFilter.FilterCallTraceArena | crates/traces/src/lib.rs:155-184 | The result is a default root, the orphaned root copy, and the pruned forest in preorder with rebuilt orderings; an empty arena gives a lone root. |
| TraceFilter.FilteredReadsBack | crates/traces/src/lib.rs:155-184 | A filtered arena is well linked, and the forest read from slot 0 is the one it was made from. |
| TraceFilter.FilterOfBuild | crates/traces/src/lib.rs:53-220 | For all calls and verbosities the forest read from the filtered arena is the pruned calls. |
| TraceFilter.FilterTwice | crates/traces/src/lib.rs:155-220 | Filtering twice equals filtering once at the smaller verbosity, slot for slot except the unreachable slot 1. |
| FilteredTraces.FilteredSlotsAreVisible | crates/traces/src/lib.rs:155-247 | The slots from 2 on of a filtered built arena are exactly the visible slots of the built one, in order, with the same trace and event logs, all L2-L1 logs from 3 on and exactly the user's at 2. |
| FilteredTraces.FilteredIsLinked | crates/traces/src/lib.rs:156-211 | Index, parent and children agree everywhere but in slot 1, which nobody lists. |
| TraceWriter.TraceWriter.WriteArena | crates/traces/src/writer.rs:148-154 | Appends exactly the rendering of the children of slot 0 and restores the indentation level; `TraceLevels` says where its lines stand. |
| TraceWriter.TraceWriter.WriteNode | crates/traces/src/writer.rs:216-236 | Appends header, items, footer; restores the indentation level even when it wraps; `TraceLevels` says where its lines stand. |
| TraceWriter.TraceWriter.WriteItems | crates/traces/src/writer.rs:209-213 | Writes all items of the node. |
| TraceWriter.TraceWriter.WriteItemsUntil | crates/traces/src/writer.rs:194-206 | Writes the items from the first one up to the first position that satisfies the given condition and returns that position. |
| TraceWriter.TraceWriter.WriteItem | crates/traces/src/writer.rs:166-188 | Writes the log, L2-L1 log or subtree the item names, within bounds, and returns the next position. |
| TraceWriter.RenderIsPrintout | crates/traces/src/writer.rs:166-236 | The index-driven rendering of a slot is the printout of the tree hanging from it. |
| TraceWriter.PrintoutParses | crates/traces/src/writer.rs:216-405 | A printout parses back to what its lines show of the forest. |
| TraceWriter.CallLinesShowTheCall | crates/traces/src/writer.rs:239-401 | Field by field, header and footer show gas, kind, label or address, value, input or creation code, status with its text, and output or code size of the call. |
| TraceWriter.LogLinesShowTheLogs | crates/traces/src/writer.rs:312-372 | A log line shows the topics and data of its event, an L2-L1 line the kind, key and value of its log. |
| TraceLevels.LinesAreIndented | crates/traces/src/writer.rs:148-236 | Every line written for an arena stands as many levels below the starting one, modulo 2^16, as there are headers without footer before it; in the end every header has its footer. |
| TraceWriter.FilteredPrintout | crates/traces/src/writer.rs:148-236 | A filtered arena is always writable and its rendering is the printout of the forest it holds. |
| TraceWriter.FilteredWritesEverySlotOnce | crates/traces/src/writer.rs:148-236 | The headers, logs and L2-L1 logs written are those of slots 2, 3, ... in slot order, each exactly once. |
| TraceWriter.FilteredParsesBack | crates/traces/src/writer.rs:148-236 | What is written for a filtered arena parses, with nothing left over, to the shown fields of the forest it holds. |
| TraceWriter.TraceRoundTrip | crates/traces/src/lib.rs:53-260 | Building, filtering and writing recorded calls yields lines that parse back to the shown fields of the pruned calls, nesting and order included. |
| UnfilteredTraces.UnfilteredHidesL2L1Logs | crates/types/src/traces.rs:526-545 | A built arena written without filtering shows every call and event log once, in slot order, and no L2-L1 log. |
| TransactionPool.InsertSpec | crates/core/src/node/pool.rs:229-249 | Insertion keeps the order; it loses the new transaction if and only if its priority and number are already present. |
| TransactionPool.FilterSpec | crates/core/src/node/pool.rs:89-91 | Partitioning the set by a condition yields sorted sets that together hold everything. |
| TransactionPool.DroppedListsMatches | crates/core/src/node/pool.rs:84-93 | A drop returns all matching transactions, as often as they occur, from least to greatest. |
| TransactionPool.AccountsDecide | crates/core/src/node/impersonate.rs:96-98 | A uniform run is the longest one: all that may be taken under automatic impersonation, otherwise up to the first sender on the other side of the account set. |
| TransactionPool.ImpersonationManager.SetAutoImpersonation | crates/core/src/node/impersonate.rs:17-23 | Sets the flag only. |
| TransactionPool.ImpersonationManager.Impersonate | crates/core/src/node/impersonate.rs:28-35 | Adds the account and reports whether it was new. |
| TransactionPool.ImpersonationManager.StopImpersonating | crates/core/src/node/impersonate.rs:40-47 | Removes the account and reports whether it was there. |
| TransactionPool.TxPool.AddTx | crates/core/src/node/pool.rs:44-57 | Inserts the transaction under the next number (modulo 2^64) and its priority. |
| TransactionPool.TxPool.AddTxs | crates/core/src/node/pool.rs:59-75 | Inserts the transactions in turn under consecutive numbers. |
| TransactionPool.TxPool.DropTransactions | crates/core/src/node/pool.rs:84-93 | Removes exactly the matching transactions, returns them from least to greatest, loses nothing. |
| TransactionPool.TxPool.DropTransaction | crates/core/src/node/pool.rs:78-81 | Removes every transaction with the hash and returns the least of them in the pool's order, or none if there was none. |
| TransactionPool.TxPool.Clear | crates/core/src/node/pool.rs:96-99 | Empties the pool and keeps the counter. |
| TransactionPool.TxPool.TakeUniform | crates/core/src/node/pool.rs:104-139 | Takes exactly the longest prefix, of length at most n, that is uniform in impersonation, told by flag and account set; the batch is impersonated exactly if the flag is on or its first sender is in the set; nothing when n is 0 or the pool is empty. |
| PoolBatching.RunIsLongest | crates/core/src/node/pool.rs:113-133 | The greedy run length is the one and only longest uniform prefix length. |
| PoolBatching.TakesDrainInOrder | crates/core/src/node/pool.rs:104-139 | Whatever limits and impersonation changes, successive takes yield the pool in order; enough of them yield all of it. |
| PoolBatching.DrainIsCut | crates/core/src/node/pool.rs:104-139 | Draining cuts the pool into consecutive uniform batches of at most n. |
| PoolBatching.DrainIsRepeatedTakes | crates/core/src/node/pool.rs:104-139 | Draining is taking again and again with the same limit and impersonation state. |
| PoolBatching.GreedyIsOptimal | crates/core/src/node/pool.rs:104-139 | No other cut into consecutive uniform blocks of at most n uses fewer blocks. |
| PoolLocks.InvKept | crates/core/src/node/pool.rs:44-139 | Every lock-level action keeps the invariants on locks, entries, order, takes, refinement and, until the counter wraps, numbers, conservation and bulk additions. |
| PoolLocks.ReachableIsGood | crates/core/src/node/pool.rs:44-139 | All invariants hold after every interleaving, those on numbers with fewer than 2^64 submissions. |
| PoolLocks.LocksRefineAtomicPool | crates/core/src/node/pool.rs:44-139 | For every interleaving of any length, the completed operations performed one after the other yield the same batches, the same removals and the same results of every drop and, when nobody is inside the pool, the same pool. |
| PoolLinearization.PoolIsLinearizable | crates/core/src/node/pool.rs:44-139 | For every interleaving of any length, the calls the threads made, with their own arguments and the impersonation state current when it was read, performed one after the other in order of completion, yield the same batches, removals and drop results and, when nobody is inside the pool, the same pool. |
| PoolLocks.TakesFollowSubmission | crates/core/src/node/pool.rs:243-249 | Over every interleaving equal priorities are taken in submission order; under Fifo all takes are in strictly increasing submission number. |
| PoolLocks.FifoIsAQueue | crates/types/src/transaction_order.rs:28-33 | Under Fifo without drops or clears what was taken is a prefix of what was added and the pool is the rest. |
| PoolLocks.OperationsAreAtomic | crates/core/src/node/pool.rs:59-139 | Every batch is the longest uniform prefix, for one impersonation snapshot, of the pool at its start; until the counter wraps every add_txs got consecutive numbers and added equals taken plus removed plus remaining. |
| PoolLocks.BatchesFollowAccounts | crates/core/src/node/pool.rs:108-133 | Over every interleaving each batch is cut by flag and account set of the one snapshot it saw. |
| PoolLocks.HighestPriorityFirst | crates/core/src/node/pool.rs:243-249 | A batch ranks before everything it left: higher priority, or equal and submitted earlier. |
| PoolLocks.HeadPaysMost | crates/types/src/transaction_order.rs:28-33 | Under Fees the next transaction to be taken pays at least as much as any other in the pool. |
| PoolLocks.NoDeadlock | crates/core/src/node/pool.rs:44-133 | While a thread is inside an operation some thread can take its next step. |
| L1Watcher.L1Watcher.Poll | crates/l1_sidecar/src/l1_watcher.rs:63-131 | A failing poll and a poll without news change neither watcher nor pool; otherwise the new transactions enter the pool in order and both counters move on. |
| L1Watcher.PollCases | crates/l1_sidecar/src/l1_watcher.rs:64-128 | When a poll fails and with which error, when it finds nothing new, and otherwise what it delivers and where both counters go. |
| L1Watcher.DeliveryIsContiguousIff | crates/l1_sidecar/src/l1_watcher.rs:64-128 | For every response a poll delivers exactly the ids from the expected one on if and only if there are new blocks, the response spans as many ids as it holds, exactly its first d ids are known (d the distance to the expected id) and the rest is strictly increasing. |
| L1Watcher.IncreasingResponseIsContiguous | crates/l1_sidecar/src/l1_watcher.rs:100-128 | A strictly increasing response, old ids included, is always delivered contiguously. |
| L1Watcher.ChecksAloneAreNotEnough | crates/l1_sidecar/src/l1_watcher.rs:100-117 | A response with a repeat and a gap that passes both checks. |
| L1Watcher.WatcherIsSafe | crates/l1_sidecar/src/l1_watcher.rs:53-131 | Over every run of increasing responses the delivered ids are 0, 1, ..., next-1 in order. |
| L1Watcher.PollIsComplete | crates/l1_sidecar/src/l1_watcher.rs:64-128 | On an append-only, consecutively numbered L1 a poll at head h never fails and leaves everything up to h delivered, even if L1 grows meanwhile. |
| L1Watcher.WatcherIsComplete | crates/l1_sidecar/src/l1_watcher.rs:53-131 | After polling a growing L1 the deliveries are exactly all its requests, in order. |
| WatcherPool.StepKeepsInv | crates/l1_sidecar/src/l1_watcher.rs:119-128 | However other threads interleave, the requests in the pool's history, in hand and queued are, unchanged and in order, the accepted ones, numbered 0, 1, 2, ... without gap. |
| WatcherPool.FifoTakesL1InOrder | crates/l1_sidecar/src/l1_watcher.rs:119-127 | Under Fifo without drops or clears the L1 transactions ever taken are exactly 0, ..., k-1 in order. |
| WatcherPool.FifoTakesRequestsUnchanged | crates/l1_sidecar/src/l1_watcher.rs:106-127 | Under the same conditions the k-th L1 transaction taken has hash, initiator, fee and serial id of the k-th request accepted. |
| WatcherPool.EqualFeesKeepL1Order | crates/types/src/transaction_order.rs:28-33 | Under either order L1 transactions of equal priority, that is under Fees of equal max fee, are taken by increasing id, drops and clears allowed. |
| CommitmentGenerator.Generate | crates/l1_sidecar/src/commitment_generator.rs:84-146 | Header and commitment input keep number, priority operations, logs, state diffs, version and aggregation root of the stored batch, get L1's fee address and contract hashes, leaf index 42 and the random root. |
| CommitmentGenerator.Genesis | crates/l1_sidecar/src/commitment_generator.rs:32-61 | Batch 0 without operations or logs; fee address, contract hashes, version, root and leaf index are the configured ones. |
| CommitmentGenerator.CommitmentGenerator.constructor | crates/l1_sidecar/src/commitment_generator.rs:32-72 | The memo starts with genesis under number 0. |
| CommitmentGenerator.CommitmentGenerator.GetOrGenerateMetadata | crates/l1_sidecar/src/commitment_generator.rs:76-109 | A known batch is answered from the memo, an unknown stored one is generated and remembered, a missing one is none and changes nothing. |
| CommitmentGenerator.MemoIsStable | crates/l1_sidecar/src/commitment_generator.rs:76-109 | Without overlapping generation all answers for a batch are equal in spite of the random root. |
| CommitmentGenerator.RunKeepsMemoValid | crates/l1_sidecar/src/commitment_generator.rs:63-109 | In every run, overlapping or not, the memo keeps genesis under 0 and under each number a batch of that number. |
| CommitmentGenerator.BatchZeroIsGenesis | crates/l1_sidecar/src/commitment_generator.rs:63-71 | Batch 0 is answered with genesis in every run. |
| CommitmentGenerator.OverlapCanDisagree | crates/l1_sidecar/src/commitment_generator.rs:80-107 | Any state with two callers generating the same batch can be continued to different answers. |
| CommitmentGenerator.OverlapFromTheStart | crates/l1_sidecar/src/commitment_generator.rs:80-107 | For every stored batch but genesis there is a run from the initial memo with two different answers. |
| L1Sidecar.StepKeepsInv | crates/l1_sidecar/src/lib.rs:210-256 | However manual commands and executors interleave, while generation does not overlap every batch held or sent is the one in the memo. |
| L1Sidecar.CallsShareMetadata | crates/l1_sidecar/src/lib.rs:210-256 | Without overlapping generation any two L1 calls, whether commit, prove or execute and whether they name a batch itself or as predecessor, carry identical metadata for the same batch number. |
| L1Sidecar.CallsAreAsAsked | crates/l1_sidecar/src/lib.rs:210-256 | In every history L1 receives exactly the commands that were asked for and handled, in order: a commit, proof or execution as asked, of the batch number asked for. |
| L1Sidecar.OverlapReachesL1 | crates/l1_sidecar/src/lib.rs:210-256 | With overlap any two commands can carry different metadata of one batch to L1. |
| L1Sender.L1Sender.HandleCommit | crates/l1_sidecar/src/l1_sender.rs:73-95 | Calls L1 with the last committed batch as predecessor and advances only on success. |
| L1Sender.L1Sender.HandleProve | crates/l1_sidecar/src/l1_sender.rs:152-174 | Calls L1 with the last proved batch as predecessor and advances only on success. |
| L1Sender.L1Sender.HandleExecute | crates/l1_sidecar/src/l1_sender.rs:231-265 | Pushes the batch's operations into the tree first, whatever L1 answers, and calls L1 with that tree. |
| L1Sender.L1Sender.Run | crates/l1_sidecar/src/l1_sender.rs:58-69 | Processes the requests of all handles in order of arrival. |
| L1Sender.ChainsFromGenesis | crates/l1_sidecar/src/l1_sender.rs:73-184 | For all requests and outcomes the successful commits form a chain from genesis and so do the successful proofs. |
| L1Sender.AttemptsExtendTheChain | crates/l1_sidecar/src/l1_sender.rs:97-184 | Every attempt, failed or not, names the last successful batch of its kind as predecessor. |
| L1Sender.CallsMatchRequests | crates/l1_sidecar/src/l1_sender.rs:58-69 | Every request makes one call of its own kind, for its own batch, with L1's verdict on it. |
| L1Sender.FailuresAndExecutesDoNotDisturb | crates/l1_sidecar/src/l1_sender.rs:58-105 | Dropping all failures and executes from a history leaves the same successful commits and proofs. |
| L1Sender.EffectiveSelects | crates/l1_sidecar/src/l1_sender.rs:73-184 | What is left are exactly the successful commits and proofs, in order of arrival. |
| L1Sender.ExecuteTree | crates/l1_sidecar/src/l1_sender.rs:251-265 | An execute's tree holds the operations of all executes so far; it is that of the settled batches plus its own if and only if no earlier execute with operations failed. |
| L1Sender.RetriedExecuteRepeatsOps | crates/l1_sidecar/src/l1_sender.rs:251-265 | An execute with operations that L1 refused and that is sent again uses a tree holding them twice. |
| L1Executor.L1ExecutorModeAuto.Run | crates/l1_sidecar/src/l1_executor.rs:59-92 | In auto-only runs the calls are complete rounds for batches 1, 2, 3, ..., each commit, prove, execute with the remembered metadata, then at most one broken round; how many rounds and how the run ends follow from the turns. |
| L1Executor.L1ExecutorModeAuto.Settle | crates/l1_sidecar/src/l1_executor.rs:79-89 | One round stops at the first refused call and names its kind. |
| L1Executor.SealedBatchesAreSettled | crates/l1_sidecar/src/l1_executor.rs:62-91 | Turns in which the next batch is sealed and nothing is refused settle one batch each. |
| L1Executor.RefusalIsL1s | crates/l1_sidecar/src/l1_executor.rs:62-91 | A run ends early only because it was stopped or because L1 refused a call of the kind it names. |
| L1Executor.CallsFollowRounds | crates/l1_sidecar/src/l1_executor.rs:79-91 | Every call of a run is about the batch of its round, commits and proofs name the batch of the round before, and a refused call is of the kind the failure names. |
| L1Executor.AutoRunIsInLockstep | crates/l1_sidecar/src/l1_executor.rs:59-92 | Failed or not, a run's calls are a prefix of C P E C P E ... in which only the last may have failed, and it did exactly if the run failed. |
| L1Executor.LockstepBounds | crates/l1_sidecar/src/l1_executor.rs:59-92 | At every moment executed <= proved <= committed <= executed + 1. |
| L1Executor.ExecuteNUsesFirstNBatches | crates/l1_sidecar/src/l1_sender.rs:255-265 | The n-th execute, a refused last one included, uses a tree of exactly the operations of batches 1..n in order. |
| Filters.CheckMatches | crates/core/src/filters.rs:53-78 | True exactly for logs in the block range, from an admitted address, whose own first four topics are admitted; positions beyond the log's topics are unconstrained. |
| Filters.MatchesMeans | crates/core/src/utils.rs:45-55 | What matching means tag by tag: Earliest is block 0, a number is itself, every other tag is the latest block; some listed address if any; each own topic in its non-empty set. |
| Filters.NotifyOne | crates/core/src/filters.rs:208-234 | A filter takes up an event exactly if it is of its kind and, for logs, matches. |
| Filters.EthFilters.AddFilter | crates/core/src/filters.rs:98-159 | Installs an empty filter under the next id, or fails once ids are exhausted and changes nothing. |
| Filters.EthFilters.RemoveFilter | crates/core/src/filters.rs:162-165 | Removes that filter only and reports whether it existed. |
| Filters.EthFilters.GetNewChanges | crates/core/src/filters.rs:168-201 | Reports exactly the waiting updates and resets them; an unknown id is an error. |
| Filters.EthFilters.NotifyFilters | crates/core/src/filters.rs:208-234 | Offers the event to every installed filter, in whatever order they are visited. |
| Filters.ExactlyOnce | crates/core/src/filters.rs:97-234 | In every history, from installation on, reported updates followed by waiting ones are exactly the relevant events, each once and in order. |
| Filters.ReportsAreTheEvents | crates/core/src/filters.rs:97-234 | The same by the notified events alone: what was reported and what waits tells of exactly the blocks, pending transactions or admitted logs since installation, once each and in order. |
| Filters.NeverReissued | crates/core/src/filters.rs:98-165 | An id once issued and removed is never installed again. |
| Filters.RemovedIsGone | crates/core/src/filters.rs:162-165 | A removed id stays away whatever follows, and removing it leaves all other filters as they were. |
| Filters.OthersAreUnaffected | crates/core/src/filters.rs:98-201 | Adding, removing or querying one filter leaves every other one as it was. |
| CacheFiles.HashNameRoundTrip | crates/common/src/cache.rs:156-159 | A hash's file name parses back to it. |
| CacheFiles.HashNameShape | crates/common/src/cache.rs:156-159 | A hash's file name is 0x and its 64 digits in lower case. |
| CacheFiles.NumberNameRoundTrip | crates/common/src/cache.rs:218-222 | A block number's file name parses back to it. |
| CacheFiles.LoadGivesMirror | crates/common/src/cache.rs:305-383 | Reading a directory that mirrors a table gives the table, whatever the listing order. |
| Cache.ReadDir | crates/common/src/cache.rs:305-368 | Reads the listed files in turn and stops at the first name that does not parse, keeping what came before. |
| Cache.ReadBlocks | crates/common/src/cache.rs:321-342 | Likewise for blocks, noting each block's hash under its number. |
| Cache.ReadBridge | crates/common/src/cache.rs:369-380 | Takes the bridge addresses; any other key ends the reading with an error. |
| Cache.Cache.constructor | crates/common/src/cache.rs:77-124 | A reset empties the directories; then the tables are what reading the directories in turn gives, errors included. |
| Cache.Cache.ReadAllFromDisk | crates/common/src/cache.rs:296-387 | The six directories are read in their fixed order up to the first unreadable name. |
| Cache.Cache.Insert | crates/common/src/cache.rs:144-293 | An insertion updates exactly its table and, in disk mode, exactly its file; nothing without a cache. |
| CacheTables.HistoryFillsTables | crates/common/src/cache.rs:144-293 | After every history, on disk or in memory only, each of the eight tables maps each key to the value inserted last under it and holds nothing else; without a cache nothing is held, without a disk nothing is written. |
| Cache.InsertKeepsCoherence | crates/common/src/cache.rs:144-293 | Every insertion keeps tables and directories in correspondence. |
| Cache.ReloadIsFaithful | crates/common/src/cache.rs:296-387 | For every listing order a reload of corresponding directories succeeds and restores every table but block hashes and tokens. |
| Cache.HashesSurviveIff | crates/common/src/cache.rs:329-341 | All listing orders restore the block hashes if and only if every known number is carried by files, and those read last for it all carry its hash. |
| Cache.ReloadAfterHistory | crates/common/src/cache.rs:77-387 | After every history: all listing orders restore the contents except confirmed tokens if and only if the block files agree on the remembered hashes, which holds if and only if each inserted number survives in a last insertion under a key and those that may be read last carry its newest hash. |
| Cache.ReloadWithOneHashPerNumber | crates/common/src/cache.rs:77-387 | With one hash per number a restart restores everything but confirmed tokens if and only if every inserted number is that of the last insertion under some kind and key. |
| Cache.ReloadOfConsistentHistory | crates/common/src/cache.rs:77-387 | One hash per number and one number per key are enough. |
| Cache.OneHashPerNumberIsNotEnough | crates/common/src/cache.rs:154-161 | A history with one hash per number and a listing order whose reload has other block hashes. |
| Decimals.DecimalRoundTrip | crates/types/src/numbers.rs:77-78 | Decimal digits denote the number and have no leading zero. |
| Decimals.DigitCount | crates/types/src/numbers.rs:77-78 | L digits mean 10^(L-1) <= v < 10^L. |
| Numbers.ToExpNotation | crates/types/src/numbers.rs:72-97 | The exponent is one less than the digit count; the mantissa is the leading figures, trimmed if asked, with a point after the first. |
| Numbers.FromSigned | crates/types/src/numbers.rs:44-51 | Four figures with trailing zeros trimmed. |
| Numbers.NotationErrorBound | crates/types/src/numbers.rs:72-97 | For v > 0 with L digits the notation denotes D with D <= v < D + 10^(L - min(p, L)), exact when p >= L, and trimming does not change D. |
| Numbers.FiguresShown | crates/types/src/numbers.rs:79-91 | Untrimmed exactly the first min(p, L) figures are shown; trimmed these without exactly their trailing zeros; the point stands right after the first figure. |
| Numbers.MantissaShowsFigures | crates/types/src/numbers.rs:86-91 | The point is present exactly when at least two figures remain, and removing it gives the figures back. |
| Numbers.EmptyMantissaIff | crates/types/src/numbers.rs:79-84 | The mantissa is empty exactly for precision 0 or a trimmed zero. |

## Left out

- VM execution, the bootloader, tracers, JSON-RPC, CLI and configuration: foreign code or plumbing.
- ABI decoding, colours and the bytes of a printed line: the writer is modelled line by line, each line with its level and exactly the fields it prints for undecoded data; failures of the output stream are not modelled.
- The copy of the subcalls inside `CallTrace.call` and the decoded call and event data, which neither filter nor writer structure depends on.
- `filter_out_precompiles` and `filter_out_system_contracts`: they drop nodes without renumbering indices.
- TraceFilter.FilterCallTraceArena: is for arenas whose children sit behind their parents, which every built or filtered arena satisfies; on cyclic links the original does not terminate.
- `notify_listeners` with its own lock and channel limits: it does not touch the pool's contents.
- Lock poisoning and runs of 2^64 or more submissions, after which numbers repeat.
- PoolLocks.TakesFollowSubmission: holds for runs with fewer than 2^64 submissions; beyond that the counter wraps and submission numbers no longer order the pool.
- L1Watcher.L1Watcher.Poll: block numbers and serial ids are unbounded; the 64-bit subtraction that underflows when the last id is smaller than the first is treated as a failed gap check.
- Gas prices, blob sidecars, contract call encoding and commitment hashes: L1's answer to a call is a parameter, and metadata is represented by the commitment's input.
- The missing protocol version of a header and the missing block number of a log, on which the original panics: the model's records always have them.
- The order in which the sidecar runner starts its services, and replies to callers that have gone away.
- L1Executor.L1ExecutorModeAuto.Run: the endless loop is cut into a finite sequence of turns, of any length.
- The JSON encoding of cache files, failing writes, and the getters, which are lookups in the tables.
- The sign and the final text of an exponential number.
