# Furious: a verified model

Furious is an entity-component database: a C runtime that stores component tables, and a compiler that turns
statements over entities into a plan of C code. This project models the parts whose correctness is decided by the
code itself and proves what they are for.

| part | modules |
|---|---|
| transactions and the multi-version pool | `TxManager`, `TxList`, `TxPoolState` ... `TxPoolTheorems`, `TxPoolRelease`, `TxPoolCollect`, `TxPoolSplit`, `TxPool` |
| execution plan, task runner, the frame | `Graphs`, `Frontiers`, `ExecPlan`, `TaskGraphs`, `Frame` |
| cascading gather | `ReferenceChains`, `CascadingGather`, `GatherPhases`, `DataUtils` |
| query plans and block-at-a-time execution | `Subplans`, `QueryPlan`, `QueryExec`, `QueryMeaning`, `QueryLoops`, `GatherLink`, `BlockClusters` |
| B-tree | `BTrees`, `BTreeLeaves`, `BTreeRemove`, `BTreeRuns`, `BTreeNodes`, `BTreeHeap`, `BTreeMap` |
| bit tables, strided iteration, block allocator | `Bitmaps`, `BitTables`, `TableIters`, `PoolAllocator` |

How the parts are modelled:

- **Pool.** `TxPoolSteps` is a state machine over begin, commit, allocation, write, release and collection. Every
  shared store of a collection and every load of a reader's chain walk is a step of its own, so a walk interleaves
  freely with a collection; mutating calls exclude each other. `Ready` says where control may go next, `Defined`
  what memory and which assertions that step relies on, `Inv` (`TxPoolInvariant`) what every run keeps. The history
  `hist` of a reference (all versions ever written) is bookkeeping beside the memory. `TxPool.Pool` holds the loops
  of the source as methods over mutable fields; each of them is proved to be a run of the protocol (`Path`), so the
  theorems about runs hold for it.
- **Frame.** `Graphs` defines paths, cycles and topological prefixes; the depth-first search, the two-frontier loop
  (compile time and run time) and the loading of the graph are loops over arrays proved against those definitions.
- **Cascading gather.** A run interleaves the sub-steps of any number of threads; a barrier is a counter of arrivals.
  Which targets have data is an input; the blocks of a thread's temporary tables come from its own gather, and a source
  is looked at when its block is among them. The declarative side is `ReferenceChains.Level` and `Ends`. `GatherPhases`
  runs a thread's phases on the tables of `DataUtils` and proves that they leave what the protocol says of that thread.
- **Plans.** `Subplans.Subplan` builds the operator array step by step and is proved to build `PlanOf`; `QueryExec.Run`
  is the stream of clusters each operator hands on in one thread; the loops of `QueryLoops`, which push one block through
  all operators before they turn to the next, are proved to produce those streams; `Qualifies` and `Params` are the
  statement's meaning for one entity and mention neither blocks, threads nor operators. Emitted code takes its arguments as
  the operator's columns say (`PassedAll`), which is proved to fit the columns of every cluster that arrives. A gather fills its temporary
  tables from the whole reference scan before it iterates over them; `GatherLink` proves that the run-time `gather`
  fills them so.
- **B-tree.** `BTrees`, `BTreeRemove` and `BTreeLeaves` describe nodes as values slot by slot, stale key slots
  included; `BTreeNodes` has the shifts, splits and merges on arrays, proved against those values. `BTreeHeap` links such
  nodes into a tree on the heap that shares no node, and proves lookup and insertion in place against the values;
  `BTreeMap.BTree` is the tree as an object with its leaf chain, removal and iterator. `BTreeRuns` are runs of insertions
  and removals from the empty tree.

Results about places where the code does less than its name promises:

- The version a context collection starts from (`tx.c:163-169`) stays a lower bound of all transactions if and only if
  no writer heads the running list: `TxManager.OldestRunningForever`, with a run in `TxManager.OldestRunningFailure`.
- The assertion that ends a release (`txpool_allocator.c:179`) is the only one that can fail in a run, and it fails
  exactly when the newest version is neither older than everything running nor the releasing writer's own:
  `TxPoolTheorems.NoFault`. `TxPoolRelease.ReleaseAborts` is such a run.
- A collection does not always reduce what lies at or below its bound to one version: two stay, one in the chain and the
  root's, if and only if the chain's newest version is above the bound and its oldest is not
  (`txpool_allocator.c:331-336`): `TxPoolCollect.OneOldExact`, with a state in `TxPoolSplit.SplitExample`.
- Removal from the B-tree deletes exactly the key if and only if at every merge on the path whose right sibling has one
  child the stale slot happens to part the two nodes (`btree.c:569`): `BTreeRemove.RemoveExact`. `BTreeRuns.LosingRun` is
  a run from the empty tree whose last removal loses another key.
- A cascading gather decides by whole blocks (`data_utils.c:159-194`): a source whose target has no data is processed,
  with a slot of the temporary tables that was never written, if and only if its chain reaches a root through sources each
  of which shares its block with a source that has target data: `CascadingGather.OnlyWithDataExact`, with a run in
  `CascadingGather.ProcessedWithoutData`.
- Negating a bitmap whose bit count is no multiple of 8 sets bits past its end: `Bitmaps.NegateInRange`.
- Two statements wait for each other if and only if each writes a type the other accesses and, at distinct priorities,
  the more urgent one reads such a type: `ExecPlan.MutualWaitExact`. A plan with such a pair is refused as cyclic, and a
  plan of two statements for no other reason: `ExecPlan.DeadlockedRefused`, `ExecPlan.TwoRefusedExact`.

## Model

| member | source | states |
|---|---|---|
| TxManager.SafeBoundMeaning | src/runtime/data/tx/tx.c:41-116 | a version is at most every running version in every continuation of the run if and only if it is at most those running now and the last committed one |
| TxManager.OldestRunningExact | src/runtime/data/tx/tx.c:163-169 | the version a context collection uses is such a bound if and only if the list is empty or a reader heads it |
| TxManager.OldestRunningGreatest | src/runtime/data/tx/tx.c:163-169 | when no writer heads the list, a version is a bound of all running and future transactions if and only if it is at most this value; when one does, the value is that writer's id and exceeds the last committed one |
| TxManager.WriterBoundGreatest | src/runtime/data/tx/tx.c:53-76 | the bound a writer is given is the greatest one |
| TxManager.OldestRunningNowExact | src/runtime/data/tx/tx.c:163-169 | at this instant it is below all running versions if and only if a reader heads the list or one transaction runs alone |
| TxManager.OldestRunningForever | src/runtime/data/tx/tx.c:163-169 | it stays below every running version in every continuation if and only if no writer heads the list |
| TxManager.OldestRunningFailure | src/runtime/data/tx/tx.c:163-169 | a writer begins, then a reader: the value is 1 while a transaction at version 0 runs |
| TxManager.WriterBoundHoldsForever | src/runtime/data/tx/tx.c:53-76 | in every reachable state the bound a running writer was given is at most the version of every transaction running then or in any continuation |
| TxManager.RunKeepsInv | src/runtime/data/tx/tx.c:41-116 | every run keeps the list in begin order with one writer at most, reader versions monotone and ids below the next id |
| TxManager.RunKeepsBound | src/runtime/data/tx/tx.c:41-116 | once a version bounds the running and future readers it does so after every run |
| TxManager.IdsCount | src/runtime/data/tx/tx.c:41-52 | after any run the next id is the first one plus the number of begins |
| TxList.Transactions.Begin | src/runtime/data/tx/tx.c:41-76 | appends to the doubly linked list and gives the transaction its id, version and bound; the list stands for the manager after a begin |
| TxList.Transactions.Commit | src/runtime/data/tx/tx.c:78-116 | unlinks exactly that transaction wherever it stands, publishes a writer's id, and clears its links |
| TxList.Transactions.Append | src/runtime/data/tx/tx.c:60-70 | head, tail and both link directions spell out the old list followed by the new node |
| TxList.Transactions.Unlink | src/runtime/data/tx/tx.c:80-107 | head, tail and both link directions spell out the old list without that node |
| TxList.Transactions.OldestRunning | src/runtime/data/tx/tx.c:163-169 | what the collection reads from the head: the greatest safe bound if the list is empty or a reader heads it, else the id of the writer at the head, which is not safe |
| TxPoolTheorems.RunInv | src/runtime/data/tx/txpool_allocator.c:82-373 | every state of every interleaving satisfies the protocol invariant |
| TxPoolTheorems.NoFault | src/runtime/data/tx/txpool_allocator.c:127-276 | every step control reaches in any run finds its blocks alive and its assertions true, except the end of a release, which is fine if and only if the newest version is old or the writer's own |
| TxPoolTheorems.SeenAtBegin | src/runtime/data/tx/tx.c:41-76 | the writers a reader's version stands for are those that had committed when it began |
| TxPoolTheorems.SnapshotRead | src/runtime/data/tx/txpool_allocator.c:191-276 | a reader's chain walk, interleaved with anything, ends at a live block with the bytes of the newest version whose writer had committed when the reader began |
| TxPoolTheorems.PointerStable | src/runtime/data/tx/txpool_allocator.c:279-373 | a pointer handed to a reader keeps its block, its owner and its bytes through every run until the reader commits, consolidation included |
| TxPoolTheorems.HistStable | src/runtime/data/tx/txpool_allocator.c:127-276 | no step changes what any version up to the last committed one reads from a reference that exists before and after |
| TxPoolTheorems.ChainOrder | src/runtime/data/tx/txpool_allocator.c:234-273 | in every run timestamps strictly decrease along each chain and exceed the root's, except while the root is being overwritten |
| TxPoolTheorems.ChainAfterCollection | src/runtime/data/tx/txpool_allocator.c:304-356 | after a collection at a bound the chain is empty or its newest timestamp exceeds the bound |
| TxPoolTheorems.ReclaimOnlyDead | src/runtime/data/tx/txpool_allocator.c:357-373 | a root is given back only by a context collection, and only if the newest version is a tombstone older than a bound no transaction is below |
| TxPoolTheorems.GarbageNeverDangles | src/runtime/data/tx/tx.c:138-157 | every entry of the garbage list is a block in use and on no chain, and if it is a root its newest version is a tombstone |
| TxPoolCollect.ReclaimExact | src/runtime/data/tx/txpool_allocator.c:357-373 | the last test of a collection gives back exactly the dead entries: those whose newest version is a tombstone older than the bound, and emptied blocks without data whose timestamp is |
| TxPoolCollect.StepSpares | src/runtime/data/tx/txpool_allocator.c:279-373 | no step of a collection changes another reference, or an emptied block that waits in a garbage list |
| TxPoolCollect.OneOldExact | src/runtime/data/tx/txpool_allocator.c:304-356 | after a collection at most one version at most the bound is left over root and chain if and only if the chain did not have its newest version above the bound and its oldest at most the bound |
| TxPoolSplit.SplitExample | src/runtime/data/tx/txpool_allocator.c:331-356 | a well-formed state with a running reader and a writer about to dereference in which the chain is split by the bound, so that two such versions stay |
| TxPoolCollect.WritePointer | src/runtime/data/tx/txpool_allocator.c:243-268 | the pointer of a write dereference is no pointer that a reader holds, and stores through it are stores of the writer to its own version |
| TxPoolFinish.ReleaseDropsNothing | src/runtime/data/tx/txpool_allocator.c:157-171 | when the newest version is at most the bound the chain is empty, so a release never takes the branch that drops a version |
| TxPoolRelease.ReleaseAborts | src/runtime/data/tx/txpool_allocator.c:173-180 | a 16-step run at whose end the assertion of a release is false |
| TxPool.Pool.FindCut | src/runtime/data/tx/txpool_allocator.c:304-311 | the loop stops at the first version at most the bound, everything before it being newer |
| TxPool.Pool.Cut | src/runtime/data/tx/txpool_allocator.c:304-318 | a protocol run that cuts the chain there and leaves every history, block, timestamp and garbage entry and all other references as they were |
| TxPool.Pool.FreeRest | src/runtime/data/tx/txpool_allocator.c:312-330 | a protocol run that frees what was cut off, block by block to the end of the list, without touching a reference |
| TxPool.Pool.Gc | src/runtime/data/tx/txpool_allocator.c:279-373 | a protocol run that changes no history and no other reference; it gives the root back if and only if it is dead, and otherwise leaves exactly the chain cut behind the newest version at most the bound, or none when that is the newest of all |
| TxPool.Pool.Consolidate | src/runtime/data/tx/txpool_allocator.c:331-356 | moves the version into the root exactly when it is the only one in the chain and at most the bound, without changing what any version reads |
| TxPool.Pool.CopyIntoRoot | src/runtime/data/tx/txpool_allocator.c:331-350 | the data of the version, or its absence, reaches the root before the timestamp and the link change |
| TxPool.Pool.StampRoot | src/runtime/data/tx/txpool_allocator.c:350-352 | the root takes over the timestamp before the link changes |
| TxPool.Pool.MoveIntoRoot | src/runtime/data/tx/txpool_allocator.c:331-356 | a protocol run through data, timestamp and link that keeps every history; the emptied block becomes the first garbage entry |
| TxPool.Pool.WriterPtr | src/runtime/data/tx/txpool_allocator.c:191-276 | returns the data pointer of the newest version, with its bytes; a first write puts one block of the writer, with the new pointer and the same bytes, in front of what the collection keeps; a write pointer is held by no reader |
| TxPool.Pool.HandOut | src/runtime/data/tx/txpool_allocator.c:212-276 | the end of the dereference: from a collected reference to the pointer handed out |
| TxPool.Pool.Store | src/runtime/data/tx/txpool_allocator.c:243-268 | a store through the pointer of a write dereference is the protocol's store: it replaces the bytes of the writer's version and nothing else |
| TxPool.Pool.Free | src/runtime/data/tx/txpool_allocator.c:126-188 | adds a tombstone to the history or empties the writer's own version; the chain is the tombstone alone or what the collection keeps; the root becomes the first garbage entry |
| TxPool.Pool.Bury | src/runtime/data/tx/txpool_allocator.c:142-188 | the end of the release: from a collected reference to its tombstone and garbage entry |
| TxPool.Pool.Alloc | src/runtime/data/tx/txpool_allocator.c:82-124 | a new reference whose history is one version of the writer over an empty root |
| TxPool.Pool.ReaderPtr | src/runtime/data/tx/txpool_allocator.c:191-238 | changes no memory and returns the bytes of the version the reader's snapshot selects |
| TxPool.Pool.CollectEntry | src/runtime/data/tx/tx.c:176-208 | collects one entry without changing a history; it leaves the list if and only if it is dead, every other entry stays where it is and as dead or alive as it was |
| TxPool.Pool.CollectEntries | src/runtime/data/tx/tx.c:159-216 | the pass over the garbage list keeps every history; an entry is given back and leaves the list if and only if it was dead at the start; all freed is reported if and only if no old entry is in use any more |
| Graphs.NoEntryMeansCycle | src/compiler/frontend/exec_plan.cpp:207-222 | a nonempty set of nodes each of which waits for another of them contains a cycle |
| Graphs.TopologicalMeansAcyclic | src/compiler/frontend/exec_plan.cpp:224-275 | a graph with a complete order that puts parents first has no cycle |
| Frontiers.AllVisitedParents | src/compiler/frontend/exec_plan.cpp:207-222 | true if and only if every parent is marked visited |
| Frontiers.Expand | src/compiler/frontend/exec_plan.cpp:252-266 | marks and queues children whose parents are all visited; the marked nodes stay distinct and parents-first and each joins the next frontier once |
| Frontiers.StuckExact | src/runtime/task/task.c:96-140 | a loop that finds no node to start from has visited all nodes if and only if the graph is acyclic |
| ExecPlan.IsDependent | src/compiler/frontend/exec_plan.cpp:13-71 | decides by its nested loops exactly whether some type read or written makes one system wait for another |
| ExecPlan.EqualPriorityWritersCycle | src/compiler/frontend/exec_plan.cpp:13-71 | two writers of one type with equal priorities make the plan cyclic |
| ExecPlan.DependentExact | src/compiler/frontend/exec_plan.cpp:13-71 | a statement waits for one that is not less urgent if and only if it accesses a type the other writes, for a less urgent one if and only if it reads such a type |
| ExecPlan.MutualWaitExact | src/compiler/frontend/exec_plan.cpp:13-71 | two statements wait for each other if and only if each accesses a type the other writes and, at distinct priorities, the more urgent one reads such a type |
| ExecPlan.DeadlockedRefused | src/compiler/frontend/exec_plan.cpp:167-204 | any plan with two such statements is cyclic |
| ExecPlan.TwoRefusedExact | src/compiler/frontend/exec_plan.cpp:277-313 | a plan of two statements is cyclic if and only if they are such a pair |
| ExecPlan.Plan.Insert | src/compiler/frontend/exec_plan.cpp:73-138 | after an insertion the mirrored parent and child lists hold exactly the dependency edges of all statements, once each, and the roots are the nodes without parents |
| ExecPlan.Plan.FindRoots | src/compiler/frontend/exec_plan.cpp:128-137 | the roots are exactly the nodes without parents, once each |
| ExecPlan.Dfs | src/compiler/frontend/exec_plan.cpp:140-165 | from any path of open nodes the search never forgets a visited node; in an acyclic graph it numbers every finished node above its children, all of them finished |
| ExecPlan.IsAcyclic | src/compiler/frontend/exec_plan.cpp:167-204 | true if and only if the graph has no cycle, nodes that no root reaches included |
| ExecPlan.EmitFrontier | src/compiler/frontend/exec_plan.cpp:238-271 | emits the whole frontier; what is marked but not emitted is the next frontier |
| ExecPlan.EmitFrom | src/compiler/frontend/exec_plan.cpp:232-271 | emits at least the start node; everything marked is then emitted, once and after its parents |
| ExecPlan.ValidExecSequence | src/compiler/frontend/exec_plan.cpp:224-275 | terminates with a sequence without repetition, parents first, complete if and only if the graph is acyclic; a node left out waits for another one left out |
| ExecPlan.InitPlan | src/compiler/frontend/exec_plan.cpp:277-313 | plans the statements in order and reports success if and only if their dependency graph is acyclic |
| TaskGraphs.TaskGraph.InsertTask | src/runtime/task/task.c:35-47 | installs the task and clears its own lists only |
| TaskGraphs.TaskGraph.SetParent | src/runtime/task/task.c:49-62 | within the limits both assertions of the source check, appends to one parent list and one child list and changes nothing else |
| TaskGraphs.TaskGraph.Load | src/compiler/backend/codegen.cpp:15-58 | for plans whose lists stay within the limits, with parent lists below the limit for tasks that have children, the start-up calls rebuild the plan's edges exactly, parent lists in order |
| TaskGraphs.TaskGraph.Run | src/runtime/task/task.c:89-142 | runs tasks once each, parents first, and all of them if and only if the graph is acyclic; the database is the effect of that order |
| TaskGraphs.TaskGraph.RunFrom | src/runtime/task/task.c:99-139 | runs the start task and everything that becomes ready from it, in an order that extends the one so far |
| TaskGraphs.TaskGraph.RunFrontier | src/runtime/task/task.c:103-135 | runs the frontier in order; what is marked and has not run is the next frontier |
| Frame.EdgeMeansConflict | src/compiler/frontend/exec_plan.cpp:13-71 | two statements are joined by an edge if and only if one writes a type the other reads or writes |
| Frame.Commute | src/compiler/frontend/exec_plan.cpp:13-71 | tasks of statements without an edge commute on every database |
| Frame.SameEffect | src/runtime/task/task.c:89-142 | any two orders of the same tasks that respect the edges have the same effect |
| Frame.FrameIsDeterministic | src/compiler/frontend/exec_plan.cpp:13-71 | any two complete topological orders of a plan leave the same component state |
| Frame.InsertionOrderIrrelevant | src/compiler/frontend/exec_plan.cpp:97-126 | so do plans of the same statements inserted in another order |
| Frame.AcceptanceIsOrderFree | src/compiler/frontend/exec_plan.cpp:277-313 | whether a set of statements is accepted does not depend on their insertion order |
| Frame.RunFrame | src/compiler/frontend/exec_plan.cpp:277-313 | plan, load and run: refused with the database untouched if and only if the plan is cyclic, else the state every valid order leads to |
| ReferenceChains.LevelExact | src/runtime/data/data_utils.c:153-194 | with full target data, round k reaches a source if and only if its chain leaves the sources after k steps, k above 0 |
| ReferenceChains.LevelChain | src/runtime/data/data_utils.c:153-194 | round k reaches a source if and only if its chain leaves the sources after k steps and all of the sources on it are looked at, k above 0 |
| ReferenceChains.LevelsDisjoint | src/runtime/data/data_utils.c:153-194 | no source is reached in two rounds |
| ReferenceChains.EndsOrCycles | src/runtime/data/data_utils.c:38-74 | a chain ends if and only if it never returns to an entity it has passed |
| ReferenceChains.EndsBound | src/runtime/data/data_utils.c:153-194 | a chain that ends has no more steps than there are sources |
| CascadingGather.StepInv | src/compiler/backend/producer.cpp:1227-1370 | every sub-step of every thread keeps each thread's tables equal to its share of the declared roots, blacklists and frontiers |
| CascadingGather.BarrierOpens | src/compiler/backend/producer.cpp:1227-1370 | a barrier opens only after all threads have arrived at it |
| CascadingGather.FindRootStep | src/runtime/data/data_utils.c:38-62 | visiting one more source keeps the roots equal to the targets of the visited sources that are not visited themselves |
| CascadingGather.RootsJoined | src/runtime/data/data_utils.c:64-86 | the union of all roots minus the union of all blacklists is round 0: the targets that are no sources |
| CascadingGather.SharesJoined | src/runtime/data/data_utils.c:76-86 | the union of all threads' next frontiers is the whole next round |
| CascadingGather.ProcessedExactlyOnce | src/compiler/backend/producer.cpp:1227-1370 | if every target has the gathered components: when all threads are done, a source whose chain ends after k steps was processed once, in round k and no other; one on or leading into a cycle never |
| CascadingGather.ProcessedByLevel | src/compiler/backend/producer.cpp:1227-1370 | whatever targets have data: when all threads are done, a source was processed once in round k if and only if its chain ends after k steps and every source on it shares its block with a source whose target has data |
| CascadingGather.OnlyWithDataExact | src/runtime/data/data_utils.c:153-194 | every processed source's own target had data if and only if no source without target data has a chain to a root through such blocks |
| CascadingGather.UniformBlocks | src/runtime/data/data_utils.c:153-194 | so it is whenever the sources of each block all have target data or all have none |
| CascadingGather.ProcessedWithoutData | src/runtime/data/data_utils.c:153-194 | a completed run that processes source 1, whose target 300 has no data, because source 2 of its block has target data |
| CascadingGather.NeverTwice | src/compiler/backend/producer.cpp:1227-1370 | at any moment of any run no source has been processed twice |
| CascadingGather.TargetFirst | src/compiler/backend/producer.cpp:1227-1370 | a processed source's target was processed in the round before, or is no source and the round is the first |
| CascadingGather.NoRace | src/compiler/backend/producer.cpp:1227-1370 | while a thread reads another's frontier or blacklist, its owner neither clears nor fills it |
| CascadingGather.OnlyOwnTables | src/compiler/backend/producer.cpp:1227-1370 | a sub-step changes no other thread's tables |
| CascadingGather.NoDeadlock | src/compiler/backend/producer.cpp:1227-1370 | until all threads have left the loop, some thread can move |
| CascadingGather.RunsEnd | src/compiler/backend/producer.cpp:1227-1370 | every interleaving ends within a bound in the number of sources and threads |
| CascadingGather.RunsComplete | src/compiler/backend/producer.cpp:1227-1370 | every run can be continued until all threads have left the loop |
| CascadingGather.GatherStep | src/runtime/data/data_utils.c:124-151 | gathering one more source keeps the blocks of the temporary tables equal to the blocks of the scanned sources whose target has data |
| GatherPhases.ScanReferences | src/compiler/backend/consumer.cpp:884-935 | block by block in place: roots and blacklist become those of the thread's sources, and the temporary tables hold the target's component for exactly the sources whose target has data |
| GatherPhases.RunRound | src/compiler/backend/producer.cpp:1257-1340 | clears the next frontier and fills it block by block in place with exactly the thread's sources the protocol reaches in the round, one cluster a block |
| GatherPhases.PhasesMatch | src/compiler/backend/producer.cpp:1227-1370 | what those loops leave is the protocol's roots, blacklist, blocks and next frontier of a thread that owns the blocks |
| DataUtils.FindRootsExact | src/runtime/data/data_utils.c:38-62 | however the sources are cut into blocks, the scan's two tables are the targets that are no own source, and the own sources |
| DataUtils.FindRootsAndBlacklist | src/runtime/data/data_utils.c:38-62 | the loop over one block does that scan in place on the two bit tables |
| DataUtils.FilterBlacklists | src/runtime/data/data_utils.c:64-74 | removes from the frontier the union of the blacklists |
| DataUtils.FrontiersUnion | src/runtime/data/data_utils.c:76-86 | adds to the frontier the union of the other tables, which stay as they are |
| DataUtils.FilterExists | src/runtime/data/data_utils.c:88-104 | keeps exactly the enabled slots whose reference is in the table |
| DataUtils.FilterNotExists | src/runtime/data/data_utils.c:106-122 | keeps exactly the enabled slots whose reference is not in the table |
| DataUtils.OneTableSuffices | src/runtime/data/data_utils.c:17-20 | looking in the one table of the thread that owns the target's block finds a target if and only if some thread gathered it |
| DataUtils.TempTables.CopyComponentPtr | src/runtime/data/data_utils.c:8-36 | every temporary table gets the target's component under the source if the target is available, else nothing changes |
| DataUtils.TempTables.Gather | src/runtime/data/data_utils.c:124-151 | does so for exactly the enabled sources whose target is available; tables that hold the same sources still do afterwards |
| DataUtils.BuildClusterFromRefs | src/runtime/data/data_utils.c:153-194 | if the temporary tables know the block, enables exactly the slots whose target is in the current frontier and adds exactly those sources to the next one; else neither changes and the cluster stays without columns |
| DataUtils.CountBlocks | src/runtime/data/data_utils.c:161-171 | tables filled together know a block all or not at all, so the assertion on the number of columns holds |
| QueryMeaning.ScanCarries | src/compiler/backend/producer.cpp:217-305 | a thread's scan hands on exactly the enabled entities of its own blocks, one cluster a block |
| QueryMeaning.JoinCarries | src/compiler/backend/consumer.cpp:319-474 | a probe passes an entity if and only if both sides hold it, with the build side's columns first, or alone for the filtering join |
| QueryMeaning.TagCarries | src/compiler/backend/consumer.cpp:544-650 | a tag filter keeps an entity if and only if it, or the entity its id column names, has or lacks the tag as asked |
| QueryMeaning.PredicateCarries | src/compiler/backend/consumer.cpp:668-816 | a filter keeps an entity if and only if the function holds of its columns |
| QueryExec.PassedIsArgs | src/compiler/backend/consumer.cpp:147-246 | on a cluster whose columns are of the kinds the code was emitted for, addresses of slots for components and contents of slots for references, the emitted arguments are the components' pointers |
| QueryMeaning.RunColumns | src/compiler/frontend/operator.cpp:35-247 | for every operator tree and thread: each cluster handed on has exactly the columns, in kind, type and order, that the compiler computed for the operator |
| QueryMeaning.NothingEmptyPassed | src/compiler/backend/consumer.cpp:319-816 | a cluster that a join or filter has emptied goes no further |
| QueryMeaning.TargetSeen | src/compiler/backend/producer.cpp:688-969 | the one thread's hash table that is consulted holds the target if and only if the gathered operator lets it through |
| QueryMeaning.GatherCarries | src/compiler/backend/consumer.cpp:817-881 | through the temporary tables filled from the whole reference stream, a gather keeps a source if and only if its target is let through, and hands on the target's components |
| GatherLink.GatherIsFill | src/runtime/data/data_utils.c:124-151 | gathering one cluster of references turns temporary tables that show the plan's into ones that show the plan's after that cluster |
| QueryMeaning.RunCarries | src/compiler/backend/producer.cpp:217-404 | for every operator tree and thread: the clusters hold exactly the entities the tree lets through in the thread's blocks, each in one cluster with the right pointers |
| QueryPlan.LocalMeans | src/compiler/frontend/operator.cpp:293-391 | the operators of one match let exactly the entities through whose subject has all components, all required and no forbidden tags |
| QueryPlan.PlanMeans | src/compiler/frontend/operator.cpp:392-576 | the plan of a statement lets exactly the qualifying entities through, with the statement's parameters |
| QueryPlan.Foreach | src/compiler/backend/consumer.cpp:128-309 | both emitted loops, tested and untested, call the system for every enabled slot in order and no other, each argument taken as the operator's column says |
| QueryPlan.StatementCalls | src/compiler/backend/consumer.cpp:128-309 | a thread calls the system once for exactly the qualifying entities of its own blocks, within a block in slot order, with the statement's parameters |
| QueryPlan.ExactlyOneThread | src/compiler/backend/producer.cpp:217-305 | over all threads, a qualifying entity is visited by one thread and once, any other by none |
| QueryLoops.PushAllAppend | src/compiler/backend/consumer.cpp:85-128 | pushing cluster by cluster through all operators gives what stage after stage gives, in the same order |
| QueryLoops.ConsumeCluster | src/compiler/backend/consumer.cpp:85-128 | one cluster goes through the remaining operators as far as it gets, and arrives as the last stream's single cluster |
| QueryLoops.ProduceScan | src/compiler/backend/producer.cpp:154-305 | the loop over a table's blocks delivers the scan's stream put through the operators above, after what was delivered before |
| QueryLoops.ProduceRefScan | src/compiler/backend/producer.cpp:154-305 | the same for the blocks of a reference table, or of a gather's temporary tables |
| QueryLoops.BuildAll | src/compiler/backend/producer.cpp:688-969 | the hash tables a gather probes are those of all threads for the gathered operator |
| QueryLoops.Produce | src/compiler/backend/producer.cpp:74-116 | for every operator: first the build side fills its table, and a gather its temporary tables, then the loops deliver exactly the operator's stream |
| QueryLoops.RunStatement | src/compiler/frontend/operator.cpp:392-576 | for statements without a cascading gather, from the matches through the operator array and its loops: the system is called once for exactly the qualifying entities of the thread's blocks, within a block in slot order, with the parameters in order as the array's columns say |
| QueryPlan.ProcessMatch | src/compiler/drivers/clang/clang_parsing.cpp:121-166 | a match gets the system's parameter types just before those already consumed, in order |
| QueryPlan.ParamsInSystemOrder | src/compiler/drivers/clang/clang_parsing.cpp:121-166 | the pointers of a qualifying entity have exactly the system's parameter types, in their order |
| Subplans.TreeStays | src/compiler/frontend/operator.cpp:18-33 | appending operators and setting parents never changes the tree below an existing operator |
| Subplans.Subplan.CreateScan | src/compiler/frontend/operator.cpp:35-53 | a new unconsumed scan of the component; nothing else changes |
| Subplans.Subplan.CreateRefScan | src/compiler/frontend/operator.cpp:55-72 | a new unconsumed scan of the reference table; nothing else changes |
| Subplans.Subplan.CreateJoin | src/compiler/frontend/operator.cpp:93-111 | joins two unconsumed trees, left as the build side |
| Subplans.Subplan.CreateLeftFilterJoin | src/compiler/frontend/operator.cpp:113-130 | the same with the left side's columns only |
| Subplans.Subplan.CreatePredicateFilter | src/compiler/frontend/operator.cpp:152-167 | puts the filter on an unconsumed tree |
| Subplans.Subplan.CreateTagFilter | src/compiler/frontend/operator.cpp:169-187 | puts the tag filter on an unconsumed tree, on its column or on the entity |
| Subplans.Subplan.CreateForeach | src/compiler/frontend/operator.cpp:209-226 | puts the system's operator on top and becomes the parent |
| Subplans.Subplan.CreateGather | src/compiler/frontend/operator.cpp:228-247 | gathers one tree through a reference table, its component columns becoming references |
| Subplans.Subplan.ApplyPredicateFilters | src/compiler/frontend/operator.cpp:275-291 | the loop stacks all filters, first one innermost |
| Subplans.Subplan.ApplyFilters | src/compiler/frontend/operator.cpp:293-391 | the loops stack the forbidden tags, then the required ones |
| Subplans.Subplan.CreateScans | src/compiler/frontend/operator.cpp:405-443 | the loop builds the left-deep join of all component scans in order |
| Subplans.Subplan.Init | src/compiler/frontend/operator.cpp:392-576 | for statements without a cascading gather, building the array step by step, last match first, gives the statement's plan with the system's operator on top and the plan's columns; synchronization is required if and only if the plan contains a gather, that is, some match reads components through a reference |
| QueryPlan.ChoosesCascading | src/compiler/frontend/operator.cpp:475-505 | the nested loops choose a cascading gather if and only if a component read through the reference is one the system writes on the matched entity |
| QueryPlan.CascadesExact | src/compiler/frontend/operator.cpp:475-505 | that is so if and only if the call for some entity writes a pointer that the call for an entity referring to it reads |
| QueryPlan.CallsApart | src/compiler/frontend/operator.cpp:475-520 | without a cascading match no call of a statement reads through a reference what another call writes on its own entity |
| BlockClusters.BlockCluster.AppendBlock | src/runtime/data/block_cluster.c:40-56 | the first block sets start and enabled slots, each further one intersects them |
| BlockClusters.BlockCluster.AppendGlobal | src/runtime/data/block_cluster.c:58-65 | the new column is marked global and the slots stay |
| BlockClusters.BlockCluster.AppendCluster | src/runtime/data/block_cluster.c:67-98 | columns are appended with their global marks shifted; slots are intersected only if both clusters have blocks |
| BlockClusters.BlockCluster.Filter | src/runtime/data/block_cluster.c:100-105 | intersects the slots and takes over no column |
| BlockClusters.JoinClusters | src/compiler/backend/consumer.cpp:319-398 | the probe's new cluster has both sides' columns, build side first, and the common slots |
| BlockClusters.FilterClusters | src/compiler/backend/consumer.cpp:399-474 | the filtering probe's cluster has the build side's columns and the common slots |
| BTrees.FindsKeys | src/common/btree.c:148-259 | the descent finds a value under a key if and only if some leaf holds the key |
| BTrees.SplitValid | src/common/btree.c:261-305 | both halves of a split are valid for the ranges below and above the new separator, and together find what the node found |
| BTrees.NextChildFits | src/common/btree.c:348-389 | after the pre-emptive split the key routes to the chosen child, which has room |
| BTrees.InsertNodeCorrect | src/common/btree.c:392-456 | insertion keeps separators, uniform depth and arity at every node, finds the new value and everything else as before, and reports a known key with its slot |
| BTrees.InsertRefines | src/common/btree.c:459-509 | insertion adds exactly the absent key to the map; a known key keeps its value and is reported as not inserted with the address of its slot |
| BTrees.ContentsFind | src/common/btree.c:248-259 | a lookup in a valid tree is a lookup in the map it stands for |
| BTreeLeaves.InsertKeepsChain | src/common/btree.c:286-305 | the next pointers go through the leaves in order after every insertion, splits included |
| BTreeLeaves.EntriesAscend | src/common/btree.c:286-305 | the entries along the leaves strictly increase |
| BTreeLeaves.EntriesExact | src/common/btree.c:7-62 | the entries along the leaves are exactly what the descent finds |
| BTreeLeaves.ContentsSize | src/common/btree.c:459-509 | the map has as many keys as there are entries along the leaves |
| BTreeLeaves.InsertKeepsFilled | src/common/btree.c:261-305 | insertions keep 5 children in every inner node below the root and 4 entries in every leaf |
| BTreeLeaves.HeightBound | src/common/btree.c:261-305 | an insert-only tree with h inner levels, h at least 2, holds at least 8*5^(h-1) keys |
| BTreeRemove.RemoveNodeCorrect | src/common/btree.c:606-686 | if every merge with a lone sibling on the path is parted, removal keeps separators and depth, deletes only that key and reports the new minimum when it changed |
| BTreeRemove.RemoveNodeLoses | src/common/btree.c:550-580 | if one is not, a key other than the removed one was found before and is not found after |
| BTreeRemove.RemoveRefines | src/common/btree.c:688-710 | under that condition removal returns the value, deletes exactly the key from the map and leaves a valid tree, root collapse included |
| BTreeRemove.MergeExact | src/common/btree.c:641-668 | a node is merged with its right neighbour if and only if one node has room for both, the other children staying as they are |
| BTreeRemove.CollapseExact | src/common/btree.c:699-708 | the root gives way if and only if its only child left is an inner node, and the tree is then one level lower |
| BTreeRemove.RemoveExact | src/common/btree.c:569-575 | removal deletes exactly the key if and only if that condition holds |
| BTreeRemove.WideSiblingsPart | src/common/btree.c:569-575 | the condition holds whenever each merge's right sibling has more than one child |
| BTreeRemove.MergeLosesKey | src/common/btree.c:569-575 | a valid tree with keys 1 and 2 in which removing 1 makes 2 unreachable |
| BTreeRuns.LosingRun | src/common/btree.c:569-575 | a run from the empty tree: 51 ascending insertions and removals that leave the right inner node one leaf, after which removing 24 makes another key unreachable |
| BTreeRemove.Tighten | src/common/btree.c:606-686 | for trees without empty nodes the keys alone decide for which range the tree is valid, so the reported new minimum can be the separator |
| BTreeHeap.Cell.Halve | src/common/btree.c:261-305 | a full node on the heap is left with its lower half and the new sibling takes over the upper half, the two sharing nothing |
| BTreeHeap.Cell.SplitChild | src/common/btree.c:348-389 | splits a full child in place and yields the child to which the key routes; the tree of nodes stays without sharing |
| BTreeHeap.Cell.InsertNode | src/common/btree.c:392-456 | the descent that changes the nodes it meets in place computes exactly the insertion on values, at every node, and reports the slot |
| BTreeHeap.Cell.Get | src/common/btree.c:248-259 | the search from node to node finds what the value tree holds |
| BTreeHeap.HeapTree.Insert | src/common/btree.c:459-509 | insertion in place with root split: the map gains exactly the absent key, a known key keeps its value and its slot is reported |
| BTreeHeap.HeapTree.Get | src/common/btree.c:248-259 | the map's value, or none |
| BTreeMap.BTree.Get | src/common/btree.c:248-259 | the map's value, or none |
| BTreeMap.BTree.Insert | src/common/btree.c:459-509 | on the mutable tree: the map, size and leaf chain after an insertion, and the slot reported |
| BTreeMap.BTree.Remove | src/common/btree.c:688-710 | on the mutable tree: the map loses exactly the key if and only if the merge condition held before; then the tree is valid and the value is returned; a root left with a single inner child gives way to it |
| BTreeMap.BTree.Clear | src/common/btree.c:120-127 | an empty map, ready for insertions |
| BTreeMap.Iterator.constructor | src/common/btree.c:7-18 | starts before all entries of the tree |
| BTreeMap.Iterator.HasNext | src/common/btree.c:25-42 | true if and only if an entry remains |
| BTreeMap.Iterator.Next | src/common/btree.c:44-62 | yields the first remaining entry and moves past it, following the leaf chain |
| BTreeMap.IterateAll | src/common/btree.c:7-62 | init, has_next and next yield every entry of the map once in strictly increasing key order and then stop |
| BTreeNodes.InternalNode.NextInternal | src/common/btree.c:159-177 | the loop finds the child to which the key routes |
| BTreeNodes.InternalNode.ShiftInsert | src/common/btree.c:307-327 | the in-place shifts insert child and separator, the other slots moving up by one |
| BTreeNodes.InternalNode.Split | src/common/btree.c:261-284 | the in-place loops leave the lower half, the new node has the upper half and the separator moves up |
| BTreeNodes.InternalNode.RemoveShift | src/common/btree.c:511-532 | the in-place shifts take out child and separator |
| BTreeNodes.InternalNode.Merge | src/common/btree.c:550-580 | the in-place loops append the sibling's children, the separator being copied only if it has more than one |
| BTreeNodes.LeafNode.NextLeaf | src/common/btree.c:180-216 | the loop finds the first entry not below the key |
| BTreeNodes.LeafNode.Insert | src/common/btree.c:429-456 | stores a new entry in order or reports the slot of the known key |
| BTreeNodes.LeafNode.RemoveAt | src/common/btree.c:534-548 | the in-place shift takes out one entry and returns its value |
| BTreeNodes.LeafNode.Split | src/common/btree.c:286-305 | 5 entries stay, 4 move to the new leaf, whose first key is the separator |
| BTreeNodes.LeafNode.Merge | src/common/btree.c:582-604 | the sibling's entries follow this leaf's |
| Bitmaps.NibblesCount | src/common/bitmap.c:288-299 | the two table lookups count the ones of a byte |
| Bitmaps.PopCountIsSize | src/common/bitmap.c:288-299 | the byte-wise count is the number of elements |
| Bitmaps.DiffBit | src/common/bitmap.c:246-261 | d and (d xor s) has exactly the bits of d that s lacks |
| Bitmaps.NegateInRange | src/common/bitmap.c:264-278 | negation keeps to the bitmap's range if and only if the bit count is a multiple of 8 |
| Bitmaps.Bitmap.SetElement | src/common/bitmap.c:107-122 | adds the element, the counter staying the cardinality |
| Bitmaps.Bitmap.UnsetElement | src/common/bitmap.c:124-139 | removes the element, the counter staying the cardinality |
| Bitmaps.Bitmap.IsSet | src/common/bitmap.c:170-178 | membership |
| Bitmaps.Bitmap.And | src/common/bitmap.c:204-222 | intersection and its cardinality, the source untouched |
| Bitmaps.Bitmap.Or | src/common/bitmap.c:225-243 | union and its cardinality, the source untouched |
| Bitmaps.Bitmap.Diff | src/common/bitmap.c:246-261 | difference and its cardinality, the source untouched |
| Bitmaps.Bitmap.Negate | src/common/bitmap.c:264-278 | complement within the bytes of the buffer, and its cardinality |
| Bitmaps.Bitmap.RefreshNumSet | src/common/bitmap.c:288-299 | the counter becomes the cardinality |
| BitTables.ReplaceSize | src/runtime/data/bittable.c:13-58 | replacing one block changes the number of ids by the difference of the two blocks' sizes |
| BitTables.CombineEnd | src/runtime/data/bittable.c:193-226 | combining block by block, with only the blocks the other table has, combines the whole sets |
| BitTables.BitTable.Exists | src/runtime/data/bittable.c:104-115 | membership for every id, blocks without bitmap included |
| BitTables.BitTable.Add | src/runtime/data/bittable.c:117-142 | adds the id, the size staying the cardinality; no bitmap is created when the block has one |
| BitTables.BitTable.Remove | src/runtime/data/bittable.c:144-160 | removes the id, the size staying the cardinality |
| BitTables.BitTable.ApplyBitset | src/runtime/data/bittable.c:13-58 | combines one block by union, intersection or difference, creating its bitmap, with the size kept |
| BitTables.BitTable.Union | src/runtime/data/bittable.c:193-209 | set union, the other table untouched |
| BitTables.BitTable.Difference | src/runtime/data/bittable.c:211-226 | set difference, the other table untouched |
| BitTables.BitTable.Clear | src/runtime/data/bittable.c:177-190 | the empty set, with its bitmaps kept for reuse |
| BitTables.BitTable.Size | src/runtime/data/bittable.c:171-175 | the cardinality |
| TableIters.SelectedIsOffset | src/runtime/data/table.c:208-216 | without wrap-around, the iterator's subtraction and divisibility test selects a block if and only if the block's offset is the thread's |
| TableIters.ChunksGoRound | src/runtime/data/table.c:545-552 | chunks of consecutive blocks go round the threads in turn, from the first thread on |
| TableIters.BlocksAreSmall | src/runtime/data/table.c:28-37 | block numbers of 32-bit ids leave room for every stride up to 2^32 - 2^24 |
| TableIters.ThreadsPartition | src/runtime/data/table.c:545-552 | a block is selected by exactly the thread its offset names |
| TableIters.SelectedAscends | src/runtime/data/table.c:218-265 | a thread's blocks come in strictly increasing order |
| TableIters.TableIter.constructor | src/runtime/data/table.c:188-201 | starts before all blocks of the thread |
| TableIters.TableIter.HasNext | src/runtime/data/table.c:218-237 | true if and only if a block of the thread remains, the look-ahead losing none |
| TableIters.TableIter.Next | src/runtime/data/table.c:239-265 | yields the next block of the thread and moves past it |
| PoolAllocator.GrowOffsetFits | src/common/memory/pool_allocator.c:66-83 | the rounded growth is the least multiple of the alignment that holds a block and a page header |
| PoolAllocator.HandedOutApart | src/common/memory/pool_allocator.c:127-205 | two different addresses ever handed out are blocks that do not overlap |
| PoolAllocator.HandedOutInside | src/common/memory/pool_allocator.c:127-205 | each is aligned and lies in a page past its header |
| PoolAllocator.TakeSlot | src/common/memory/pool_allocator.c:166-190 | cutting the next block gives one not in use and keeps page list, free list and disjointness |
| PoolAllocator.UseKeepsLists | src/common/memory/pool_allocator.c:127-223 | stores of owners into their blocks break neither the page list nor the free list |
| PoolAllocator.Pool.constructor | src/common/memory/pool_allocator.c:46-89 | an empty pool with the alignment, block and page size asked for and the growth rounded up |
| PoolAllocator.Pool.Alloc | src/common/memory/pool_allocator.c:127-205 | a block that was not in use: the first of the free list, else the next one of the last page, else the first of a new page |
| PoolAllocator.Pool.NothingLost | src/common/memory/pool_allocator.c:127-223 | in every valid pool a block cut from a page is in use or on the free list, and not both |
| PoolAllocator.Pool.Free | src/common/memory/pool_allocator.c:214-223 | the block leaves the live set and heads the acyclic free list; pages and cutting position stay |
| PoolAllocator.Pool.LiveBlock | src/common/memory/pool_allocator.c:127-223 | in every valid pool a live block is aligned, past its page's header, disjoint from every other and not free |
| PoolAllocator.Pool.Flush | src/common/memory/pool_allocator.c:98-114 | gives every page back once, in order |

## Left out

- Forced collection while transactions run, and a context collection while a writer heads the running list: the bound does not hold there (see `TxManager.OldestRunningForever`).
- 64-bit wrap-around of transaction ids and versions: they are unbounded.
- Compiler and processor reordering: the stores of a collection and the loads of a walk take effect in program order; copying a version's bytes is one step.
- The caller's obligations in the pool: no dereference after a release, and a root with data at a release (`txpool_allocator.c:132-134`).
- TxPool.Pool.CollectEntries: the garbage lists of all thread contexts are one list, as if one context did all the collecting.
- ExecPlan.EqualPriorityWritersCycle: one sufficient condition; the exact one is `ExecPlan.MutualWaitExact`.
- ExecPlan.Dfs: the numbering is promised for acyclic graphs only; in a cyclic one the search still marks what it reaches, and `ExecPlan.IsAcyclic` is exact for both.
- A block whose version with data a consolidation has moved into the root keeps that data, and with it its garbage entry, until the forced collection at shutdown, which is not part of this model.
- Frame.RunFrame: a task is a function of the component tables that reads and writes what its statement declares (`Framed`); changes to tags, references and entities within a frame are not part of it.
- TaskGraphs.TaskGraph.SetParent: the second assertion of the source reads the parent count instead of the child count (`task.c:58`), so room in the child list is a precondition here beside both assertions; the flags for parallel tasks and the thread pool behind them are left out.
- TaskGraphs.TaskGraph.Load: parent lists of tasks with children stay below the limit, so that neither assertion fails in whatever order the tasks come; that an assertion stops the program on other plans is not modelled.
- Component filters are not implemented by the source; globals, fetches, cross joins and cascading expand inside a plan are left out of `Subplans` and `QueryExec`. Cascading expand is modelled on its own in `CascadingGather`.
- QueryPlan.StatementCalls: tables, references and tags are fixed while the statement runs; the emitted text, its names and its hash-table layout are not modelled, a hash table being the list of clusters inserted, of which the first one of a block counts.
- QueryLoops.BuildAll: the threads' hash tables are built one after the other, as if the barrier's waiting were a call.
- QueryLoops.RunStatement: a statement for which the source chooses a cascading gather is not run as part of a plan.
- Subplans.Subplan.Init: the same statements are not planned; which ones they are is `QueryPlan.ChoosesCascading`.
- CascadingGather.ProcessedExactlyOnce: the reference table maps each source to one target and is fixed, and so is which targets have data; the sub-steps are one source, one table or one barrier arrival each.
- GatherPhases.RunRound: a thread's hash table of reference clusters is the list of its blocks, and the cluster goes to the operators above after its block.
- BTreeMap.BTree.Remove: a key that is absent, or an empty tree, is the caller's mistake; it replaces nodes by new values, the in-place loops of one node being those of `BTreeNodes`; the leaf chain after removals is not stated, so iterators take insert-only trees.
- BTreeMap.BTree.Insert: the descent replaces nodes by new values along the path instead of updating them in place; insertion in place is `BTreeHeap.HeapTree.Insert`, whose leaves have no next pointers.
- TableIters.TableIter: a block's start is 256 times its number, and the table's blocks were only inserted, never removed.
- Creating, reading and destroying single components in a table and its counter of enabled components.
- PoolAllocator.Pool.Flush: reuse of a pool after a flush; statistics and lost-byte counters; the parent allocator is a source of fresh aligned pages.
- Hash table, page and stack allocators, string builder, web server, logging, thread wrappers, reflection, the clang front end beyond `process_match`, and the plan printer.
