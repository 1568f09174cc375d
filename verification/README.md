# A verified model of Tundra's build engine

Tundra compiles a dependency graph, selects the nodes its targets need, and lets any number of threads bring them up to
date under one lock, remembering the outcome in a database for the next build. This project models that engine and the
data structures around it in Dafny and proves what they promise.

The scheduler is modelled three times over, each level proved against the next:

* `BuildQueueObject` is the queue object of `src/BuildQueue.cpp`, updated in place: ring buffer, park list, node states
  and counters. Each method equals a function of
* `BuildQueueModel`, the lock-held sections as functions on values, which are the steps of
* `BuildSystem`, a transition system of threads that hold the lock for one section at a time. Exit codes, signatures,
  interruption and the schedule are arbitrary.

`BuildQueueInvariant` and `BuildQueueSections` prove what one section does, `BuildSystem` that every step keeps the
global invariant, `BuildHistory` what the event log of any build looks like, and `BuildTheorems`, `BuildCompletion`
and `BuildOutcomes` the results about whole builds. `DagCompiler` and `Driver` establish the scheduler's precondition;
`SortedArrays`, `StateDatabase`, `IncrementalBuilds` and `NullBuilds` carry the results across builds.

`TerminalBuffers`, `TerminalEmit`, `TerminalSystem` and `TerminalIo` do the same for the terminal protocol:
specification of the buffer pool, of one lock-held section of an emit, transition system of printing and sleeping jobs,
and the code on its fixed arrays. The remaining modules model one component each: `JsonText`, `JsonSpacing`,
`JsonStrict`, `JsonReader`, `JsonWriter` and `JsonEvents`, `HashTables`, `ScanCaches` and `Scanner`, `BinaryWriters`,
`Paths`, `HashStreams`. `EndToEnd` joins the DAG compiler to the driver and the scheduler, and the JSON writer to the
reader. `Options`, `Sequences`, `Sums`, `Arithmetic` and `Bits` are shared vocabulary; the ring buffer and both hash
tables compute their indices with the masks of `Bits`.

`dafny verify dfyconfig.toml` checks everything.

## Where the source does not do what one would expect

Each is a theorem that names the failing inputs exactly:

* A parked expensive node that a stopped build abandons is saved as a success it never earned
  (`AbandonedNode.SavedUnearned`). A build keeps the database truthful if and only if every node it leaves at
  kRunAction was executed under the saved signature by an earlier build (`IncrementalBuilds.TruthExact`, over whole
  histories `HistoryExact`); for the first build that means no node is left (`FirstBuildExact`).
* `m_ExpensiveRunning` counts the running expensive actions if and only if every expensive node has an action
  (`BuildCompletion.ThrottleExact`).
* The comment at the head of `src/TerminalIo.cpp` promises linear output per job. The pieces of a job are contiguous
  and complete, but their order depends on a comparison that overflows and on a sort that is not stable. Pieces come out
  in emission order for every permitted qsort if and only if, going round the circle of 32-bit values from the first
  key, different pieces lie strictly further and further, all within half a circle (`TerminalBuffers.FlushOrderExact`);
  for ascending keys that means that different pieces have different keys and that all keys span less than 2^31
  (`AscendingOrderExact`). Three inputs of the source miss the condition: the chunks of a long line share one key, so
  either order is permitted (`EqualKeysEitherWay`, `TerminalEmit.LongLineLosesOrder`); a failure notice buffered with
  nothing but annotation and command line always precedes them (`NoticeFirst`); and once output of the child is buffered
  with both, every order is permitted (`NoticeAnyOrder`).
* The JSON writer emits an escape for vertical tabs that the parser rejects; a tree of ASCII strings survives if and
  only if no string holds a vertical tab or a NUL (`JsonText.RoundTrip`). The writer's escape table is indexed with a
  signed character, so other strings are outside what it is defined for.
* The JSON parser accepts a comma before a closing brace (`JsonStrict.TrailingCommaAccepted`): it differs from a parser
  that rejects it exactly on the texts where an object closes behind a comma (`JsonStrict.LenientExact`).
* A node's guid is the digest of action, input names and annotation written one behind the other without a separator,
  so "x" annotated "y" and "xy" cannot both be in a DAG (`DagCompiler.PartsRunTogether`): with a digest that does not
  collide, nodes are refused if and only if one has nothing to digest or two of these texts agree
  (`DagCompiler.IdentifiableExact`).
* The digest padding has 64 bytes more than the standard's if and only if the length is 55 modulo 64
  (`HashStreams.PaddingIsStandardExactly`).
* `PathInit` keeps ".." segments above the root of an absolute path (`Paths.AboveRootKept`) if and only if some prefix
  of its segments has more ".." than names (`Paths.AboveRootExact`); only `PathConcat` clamps them.
* The scheduler's precondition holds of what the driver hands over if and only if no needed node depends on a node of a
  later pass (`Driver.ConfigWellFormed`); the source checks this only when it meets such a dependency.

## Model

| member | source | states |
|---|---|---|
| `BuildQueueObject.BuildQueue.constructor` | src/BuildQueue.cpp:710-762 | the least power of two above the node count as capacity, so that every buffer fits all nodes; the queue starts empty |
| `BuildQueueObject.BuildQueue.Enqueue` | src/BuildQueue.cpp:99-125 | appends an idle node to the FIFO with the masked index; by pigeonhole no unread slot is overwritten |
| `BuildQueueObject.BuildQueue.ParkExpensiveNode` | src/BuildQueue.cpp:127-132 | pushes the node on the park stack, which cannot overflow |
| `BuildQueueObject.BuildQueue.UnparkExpensiveNode` | src/BuildQueue.cpp:134-146 | moves the top of the park stack to the end of the FIFO |
| `BuildQueueObject.BuildQueue.AvailableNodeCount` | src/BuildQueue.cpp:47-54 | the masked 32-bit difference of the indices is the number of unread entries |
| `BuildQueueObject.BuildQueue.NextNode` | src/BuildQueue.cpp:622-645 | an available count of 0 means an empty FIFO; otherwise the oldest node comes out, active |
| `BuildQueueObject.BuildQueue.SetupDependencies` | src/BuildQueue.cpp:148-185 | refines the model: which dependencies are waited for and enqueued, and the resulting progress |
| `BuildQueueObject.BuildQueue.AllDependenciesReady` | src/BuildQueue.cpp:71-88 | true exactly when every dependency is completed |
| `BuildQueueObject.BuildQueue.UnblockWaiters` | src/BuildQueue.cpp:505-534 | enqueues exactly the idle back-links of this pass whose dependencies are all completed |
| `BuildQueueObject.BuildQueue.AdvanceNode` | src/BuildQueue.cpp:536-620 | the state machine from one lock acquisition to the next release refines `Advance`, events and broadcasts included |
| `BuildQueueObject.BuildQueue.OutputFilesDiffer` | src/BuildQueue.cpp:187-201 | true exactly when the two lists differ in length or in a name |
| `BuildQueueObject.BuildQueue.CheckInputSignature` | src/BuildQueue.cpp:336-382 | the decision chain, test by test, gives the specified decision |
| `BuildQueueObject.BuildQueue.ShouldKeepBuilding` | src/BuildQueue.cpp:647-672 | the loop test of the transition system, test by test |
| `BuildQueueObject.BuildQueue.AfterSigning` | src/BuildQueue.cpp:337-387 | the decision at the end of the signature check and everything that follows under the lock |
| `BuildQueueObject.BuildQueue.AfterAction` | src/BuildQueue.cpp:570-620 | the counter, the unparking and everything that follows an action under the lock |
| `BuildQueueObject.BuildQueue.BeginPass` | src/BuildQueue.cpp:803-833 | the ring holds the pass's slice of nodes in order, counters reset |
| `BuildQueueObject.UnreadPush` | src/BuildQueue.cpp:99-125 | writing at the write index and masking its increment appends to the unread part while a slot stays free |
| `BuildQueueObject.UnreadPop` | src/BuildQueue.cpp:622-645 | masking the incremented read index removes the oldest entry |
| `Bits.NextPowerOfTwo` | src/Common.cpp:262-278 | bit smearing gives the least power of two not below its argument, for every argument up to 2^31 |
| `Bits.MaskIsRemainder` | src/BuildQueue.cpp:99-125 | masking with a power of two less one takes the remainder |
| `Bits.MaskedIncrement` | src/BuildQueue.cpp:99-125 | masking an incremented index wraps it at the capacity |
| `Bits.MaskedDistance` | src/BuildQueue.cpp:47-54 | the masked 32-bit difference is the distance from read to write index round the ring |
| `Bits.NextAfterPower` | src/ScanCache.cpp:205-209 | the least power of two above a table size is its double |
| `BuildQueueInvariant.SetupNeverEnqueues` | src/BuildQueue.cpp:148-185 | the Enqueue inside SetupDependencies is never reached |
| `BuildQueueInvariant.UnblockEffect` | src/BuildQueue.cpp:505-534 | waking back-links changes flags of idle ready nodes of the pass only, and misses none |
| `BuildQueueInvariant.PopKeeps` | src/BuildQueue.cpp:622-645 | taking a node from the ring keeps the partition of nodes, now in a thread's hands |
| `BuildQueueInvariant.AdvanceKeeps` | src/BuildQueue.cpp:536-620 | a lock-held section keeps the partition: ring, park list, held, blocked or completed, flags and pending count to match |
| `BuildSystem.StepKeeps` | src/BuildQueue.cpp:505-697 | every step of every thread keeps the global invariant |
| `BuildSystem.RunInvariant` | src/BuildQueue.cpp:505-697 | the invariant holds in every state of every build |
| `BuildHistory.RunHistory` | src/BuildQueue.cpp:536-697 | what the event log of every build says about every node |
| `BuildTheorems.DeadlockFree` | src/BuildQueue.cpp:505-697 | on an acyclic graph an empty ring and no node in hand mean nothing is pending, in every reachable state |
| `BuildTheorems.NeverStuck` | src/BuildQueue.cpp:647-697 | if no thread is awake, the main thread has left the loop, because of completion, an error or quitting |
| `BuildOutcomes.HaltedRun` | src/BuildQueue.cpp:647-697 | once interrupted, told to quit or stopped by an error, a build stays so: no later pop, signature check or pass, and only nodes already in hand are decided, acted on or finished |
| `BuildOutcomes.HaltingSteps` | src/BuildQueue.cpp:470-483 | a signal, a child killed by one, the order to quit and, unless errors are ignored, a failed action halt the build |
| `BuildOutcomes.LoopExact` | src/BuildQueue.cpp:674-697 | a thread leaves the loop exactly when the build is halted or, for the main thread, nothing is pending; otherwise it takes the oldest node or sleeps |
| `BuildOutcomes.WorkersStayIn` | src/BuildQueue.cpp:647-697 | no worker thread is outside the loop in a build that is not halted |
| `BuildCompletion.CanFinish` | src/BuildQueue.cpp:505-697 | from every reachable state of a build that is going on without failures, some schedule completes every node with result 0 |
| `BuildTheorems.DependencyOrder` | src/BuildQueue.cpp:536-620 | a signature check or action starts after every dependency is done, with result 0 unless errors are ignored |
| `BuildTheorems.AtMostOnce` | src/BuildQueue.cpp:536-620 | no action is launched twice and no node completes twice in a build |
| `BuildTheorems.PassOrder` | src/Driver.cpp:754-767 | a pass begins only after every node of earlier passes is done with result 0 |
| `BuildTheorems.LaterPassWaits` | src/Driver.cpp:754-767 | no pop, signature check or action of a node before every node of the earlier passes is done with result 0 |
| `BuildTheorems.StopOnFirstError` | src/BuildQueue.cpp:598-612 | without continue-on-error, a node past blocking has only successful dependencies |
| `BuildOutcomes.CompletedHow` | src/BuildQueue.cpp:389-620 | a completed node was found up to date, or its command was launched and ended with this result, or it has no command; nothing up to date or without command is ever launched |
| `BuildTheorems.PassPopBound` | src/BuildQueue.cpp:505-645 | in every pass at most 2N + E ring pops for the N nodes of the pass, E of them expensive, under every schedule |
| `BuildTheorems.PopBound` | src/BuildQueue.cpp:505-645 | at most 2N + E ring pops over the whole build |
| `BuildCompletion.ThrottleExact` | src/BuildQueue.cpp:389-409 | the expensive counter is exact in every reachable state if and only if no expensive node has an empty action |
| `BuildCompletion.ThrottleBound` | src/BuildQueue.cpp:570-590 | running expensive actions never exceed the maximum; a non-empty park list has something that will unpark it |
| `BuildCompletion.CounterFallsShort` | src/BuildQueue.cpp:395-396 | an empty expensive node leads to a reachable state where the counter is too small |
| `SortedArrays.BinarySearch` | src/SortedArrayUtil.hpp:86-99 | finds a key exactly when the table holds it |
| `SortedArrays.TraverseSortedArrays` | src/SortedArrayUtil.hpp:24-84 | one callback per distinct key, in key order, the first array winning ties |
| `StateDatabase.SaveNew` | src/Driver.cpp:912-937 | a node that never got a signature keeps its old record, any other gets its own outcome |
| `StateDatabase.SaveOld` | src/Driver.cpp:939-958 | a record outside this build is kept exactly when its node still exists |
| `StateDatabase.SaveBuildState` | src/Driver.cpp:817-971 | the new database holds for every key exactly what this build owes it, strictly sorted |
| `IncrementalBuilds.IncrementalSoundness` | src/Driver.cpp:842-971 | over any sequence of builds that abandon no node, a saved success was earned by an execution under the saved signature |
| `IncrementalBuilds.TruthExact` | src/Driver.cpp:912-937 | a build keeps the database truthful if and only if every node it leaves at kRunAction was executed under the saved signature by an earlier build |
| `IncrementalBuilds.HistoryExact` | src/Driver.cpp:842-971 | all databases of a history are truthful if and only if every build of it leaves only such nodes |
| `IncrementalBuilds.FirstBuildExact` | src/Driver.cpp:912-937 | the first database is truthful if and only if no node is left at kRunAction |
| `IncrementalBuilds.SavedExactly` | src/Driver.cpp:854-937 | a selected node is saved with its old record if it never got a signature, otherwise with its own result, signature and output files |
| `IncrementalBuilds.SavedElsewhere` | src/Driver.cpp:939-958 | any other node keeps result and signature, with its outputs in this DAG, exactly if it still exists |
| `BuildOutcomes.UpToDateExact` | src/BuildQueue.cpp:336-382 | up to date if and only if the old record is a success under this signature with these outputs and no file is missing |
| `BuildOutcomes.SignedExact` | src/BuildQueue.cpp:336-387 | in every build the end of a signature check logs exactly that decision, and completes the node at once if it is up to date |
| `BuildOutcomes.SparedRun` | src/BuildQueue.cpp:336-387 | over every run in which an unchanged node is found unchanged, it is never launched and ends with its old outcome, whatever happens to other nodes |
| `NullBuilds.SuccessFound` | src/Driver.cpp:548-563 | the next build finds a saved success with the node's own outputs under its signature |
| `NullBuilds.NullDecision` | src/BuildQueue.cpp:336-382 | it decides up to date if and only if it computes the same signature and no output is missing |
| `NullBuilds.NullBuild` | src/Driver.cpp:854-937 | then over the whole next build the node's action is not launched and its record is saved unchanged |
| `NullBuilds.NothingRuns` | src/BuildQueue.cpp:336-387 | a build that finds every node unchanged launches nothing and completes nodes with result 0 only |
| `AbandonedNode.SavedUnearned` | src/BuildQueue.cpp:400-403 | a concrete two-node build whose saved success was never executed and is trusted by the next build |
| `DagCompiler.DigestInput` | src/DagGenerator.cpp:509-550 | the text digested for a node, piece by piece, or failure exactly when there is no action, input list or annotation |
| `DagCompiler.MaterialTellsApart` | src/DagGenerator.cpp:519-543 | of two nodes that agree on two of action, input text and annotation, the third alone decides whether they are told apart |
| `DagCompiler.MaterialIgnores` | src/DagGenerator.cpp:519-550 | pass, dependencies, outputs, environment and the expensive flag do not matter to a guid |
| `DagCompiler.IdentifiableExact` | src/DagGenerator.cpp:506-568 | with a digest that does not collide, nodes are refused exactly when one has nothing to digest or two texts agree |
| `DagCompiler.GroupsTellApart` | src/DagGenerator.cpp:540-543 | group nodes with different annotations are accepted |
| `DagCompiler.PartsRunTogether` | src/DagGenerator.cpp:519-543 | an action and the same text split into action and annotation collide under every digest |
| `DagCompiler.ComputeNodeGuids` | src/DagGenerator.cpp:506-576 | fails exactly on unidentifiable or colliding nodes; else strictly sorted guids, a permutation and its inverse |
| `DagCompiler.WriteNodes` | src/DagGenerator.cpp:179-314 | fails exactly on a dependency that is no node index or an environment variable without key or value; back-links are the converse of dependencies, with multiplicity |
| `DagCompiler.CollectLinks` | src/DagGenerator.cpp:203-231 | each node lists another as back-link as often as that one mentions it |
| `Driver.SelectNodes` | src/Driver.cpp:496-535 | exactly the nodes a dependency chain from a target reaches, each once, counted per pass |
| `Driver.PrepareNodes` | src/Driver.cpp:487-597 | the selection in pass order, with a remap table that is a bijection onto local indices and -1 elsewhere |
| `Driver.FillRemap` | src/Driver.cpp:573-588 | the remap table inverts the local order |
| `Driver.Slices` | src/Driver.cpp:754-767 | per-pass counts cut the sorted array into contiguous slices |
| `Driver.ConfigWellFormed` | src/Driver.cpp:487-597 | what the driver hands over satisfies the scheduler's precondition if and only if no needed node depends on one of a later pass |
| `Driver.LocalFields` | src/Driver.cpp:537-563 | every node of the queue has the flags, outputs and pass of its DAG node, and that node's record of the last build |
| `Driver.ConfigAcyclic` | src/Driver.cpp:487-597 | an acyclic DAG gives an acyclic local graph |
| `Driver.NothingDropped` | src/BuildQueue.cpp:56-68 | every dependency of a selected node maps to a selected node |
| `EndToEnd.CompileDag` | src/DagGenerator.cpp:579-659 | fails exactly on malformed input; otherwise sorted guids and converse links, which is all the driver relies on |
| `EndToEnd.CompiledPrepared` | src/DagGenerator.cpp:579-659 | acyclic nodes whose dependencies are in no later pass compile to a file from which every selection is a prepared build |
| `EndToEnd.PreparedNeverStuck` | src/Driver.cpp:487-597 | a build prepared by the front end from an acyclic DAG never has an empty ring, idle threads and work left |
| `EndToEnd.PreparedCanFinish` | src/Driver.cpp:739-767 | and some schedule completes every node of every pass |
| `EndToEnd.PreparedBuildSaves` | src/Driver.cpp:817-971 | a prepared build that has come to rest meets the assumptions of the database theorems |
| `EndToEnd.PreparedCommands` | src/BuildQueue.cpp:389-409 | in a prepared build a DAG node with a command completes by running it or by being up to date, and one without never runs |
| `EndToEnd.PreparedThrottle` | src/BuildQueue.cpp:570-590 | the running expensive DAG nodes never exceed the maximum, if the selected ones all have commands |
| `TerminalBuffers.CompactKeeps` | src/TerminalIo.cpp:203-236 | compaction frees exactly one job's buffers and leaves everyone else's |
| `TerminalBuffers.HoldAllKeeps` | src/TerminalIo.cpp:256-322 | buffering chunk after chunk keeps the pool and touches one job's share |
| `TerminalBuffers.HoldAllBytes` | src/TerminalIo.cpp:300-322 | the chunks and the rest are the data, in order |
| `TerminalBuffers.FlushOrderExact` | src/TerminalIo.cpp:161-196 | pieces with any 32-bit keys are written in order for every permitted qsort if and only if, on the circle of 32-bit values, different pieces lie in strict order within half a circle from the first key |
| `TerminalBuffers.AscendingOrderExact` | src/TerminalIo.cpp:161-196 | for ascending keys: if and only if different pieces have different keys and the keys span less than 2^31 |
| `TerminalBuffers.EqualKeysEitherWay` | src/TerminalIo.cpp:161-196 | two different pieces with one key may be written either way |
| `TerminalBuffers.NoticeFirst` | src/TerminalIo.cpp:161-167 | key INT_MAX always comes before keys -200 to -2 when nothing else is buffered |
| `TerminalBuffers.NoticeAnyOrder` | src/TerminalIo.cpp:161-167 | with output of the child between them, every order is permitted |
| `TerminalEmit.TurnsAreSafe` | src/TerminalIo.cpp:249-328 | at every turn of the chunk loop `buf` is null if the terminal is free or the job's own, and the buffer about to be queued is not queued |
| `TerminalEmit.EmitHolds` | src/TerminalIo.cpp:249-328 | the loop with its surviving `buf` buffers exactly the chunks, as long as buffers are free, and waits with `buf` null |
| `TerminalEmit.LongLineLosesOrder` | src/TerminalIo.cpp:300-363 | a line of more than 8191 characters becomes pieces whose order is not kept |
| `TerminalIo.QSort` | src/TerminalIo.cpp:161-196 | a permutation, in order whenever the comparison is consistent |
| `TerminalIo.Terminal.FlushOutputQueue` | src/TerminalIo.cpp:175-247 | writes exactly the job's queued pieces, once, and frees their buffers |
| `TerminalIo.Terminal.EmitLocked` | src/TerminalIo.cpp:249-328 | the chunk loop with `buf` carried from turn to turn and over waits: takes the terminal, writes directly, buffers, or waits as the specification says |
| `TerminalIo.Terminal.JobExitLocked` | src/TerminalIo.cpp:330-353 | exits exactly when the terminal is free or its own, flushing on the way |
| `TerminalSystem.StepKeeps` | src/TerminalIo.cpp:150-353 | every step of every job keeps the invariant |
| `TerminalSystem.BuffersConserved` | src/TerminalIo.cpp:150-159 | at every lock release all 64 buffers are accounted for, none twice |
| `TerminalSystem.BufferNeverStale` | src/TerminalIo.cpp:249-328 | in every reachable state an emitting job comes back from the lock with `buf` null, and the turns that follow are safe |
| `TerminalSystem.SessionsContiguous` | src/TerminalIo.cpp:249-353 | the writes of one job execution are contiguous in the output, over all interleavings |
| `TerminalSystem.WrittenExactlyOnce` | src/TerminalIo.cpp:249-353 | by its exit the pieces a job wrote are a permutation of pieces whose concatenation is what it emitted, keys and descriptors included |
| `TerminalSystem.WrittenInOrder` | src/TerminalIo.cpp:175-247 | and in emission order when the buffered keys advance |
| `TerminalSystem.OnlyTheOwnerPrints` | src/TerminalIo.cpp:256-306 | a job without the terminal has written nothing in this execution; its owner has nothing queued |
| `TerminalSystem.SleepersAreWoken` | src/TerminalIo.cpp:258-353 | a job sleeps only while another job that is awake has the terminal, or while a broadcast is due that wakes all |
| `TerminalSystem.OwnerNeverWaits` | src/TerminalIo.cpp:258-276 | the owner of the terminal never goes to sleep |
| `JsonText.ValueRoundTrip` | src/JsonParse.cpp:582-636 | a printed value followed by a delimiter is read back, or rejected exactly when a string in it is not clean |
| `JsonText.RoundTrip` | src/JsonParse.cpp:638-673 | parsing a printed tree of ASCII strings gives the tree exactly when its strings hold no NUL and no vertical tab, and fails otherwise |
| `JsonSpacing.ParseSeesLexemes` | src/JsonParse.cpp:582-673 | texts with the same lexemes have the same tree |
| `JsonSpacing.SpaceKeepsParse` | src/JsonParse.cpp:77-97 | white space of any of the six kinds at a lexeme boundary does not change the tree |
| `JsonStrict.LenientExact` | src/JsonParse.cpp:353-481 | the parser agrees with one that rejects a comma before a closing brace exactly on the texts without such a comma |
| `JsonStrict.TrailingCommaAccepted` | src/JsonParse.cpp:439-452 | an object with one member and a comma behind it is accepted |
| `JsonReader.UnescapeInPlace` | src/JsonParse.cpp:117-196 | the string replaces its literal in place; earlier text and unread text are untouched; fails exactly on bad literals |
| `JsonReader.Reader.FetchNext` | src/JsonParse.cpp:236-281 | the next lexeme of the original text, although the buffer has been rewritten up to the cursor |
| `JsonReader.Reader.Peek` | src/JsonParse.cpp:283-291 | one lexeme of lookahead does not move the reading position |
| `JsonReader.Reader.Next` | src/JsonParse.cpp:293-303 | delivers the lookahead or the next lexeme |
| `JsonReader.Reader.ParseObject` | src/JsonParse.cpp:353-481 | agrees with the specification on every text; names and values stay intact in the buffer |
| `JsonReader.Reader.ParseArray` | src/JsonParse.cpp:483-580 | agrees with the specification on every text |
| `JsonReader.Reader.ParseDocument` | src/JsonParse.cpp:638-673 | succeeds exactly when the specification does, and its tree denotes the specified tree in the final buffer |
| `JsonWriter.EventsPrint` | src/LuaJsonWriter.cpp:129-216 | the write events of a tree append its printed form, commas and names included |
| `JsonEvents.WellBracketedExact` | src/LuaJsonWriter.cpp:129-216 | a sequence of write events is well bracketed if and only if it is that of a tree |
| `JsonWriter.WriterRoundTrip` | src/LuaJsonWriter.cpp:106-216 | a tree written to a new file and parsed from it comes back, exactly when its strings are clean |
| `JsonWriter.Writer.Append` | src/LuaJsonWriter.cpp:41-51 | file and buffer together grow by one character, across flushes |
| `JsonWriter.Writer.WriteEscapedString` | src/LuaJsonWriter.cpp:106-127 | the quoted form of the string |
| `JsonWriter.Writer.Perform` | src/LuaJsonWriter.cpp:129-216 | each writer function performs its event |
| `EndToEnd.WriteAndParse` | src/JsonParse.cpp:638-673 | the writer object's file, read by the reader object in place, gives the tree back exactly when its strings are clean |
| `HashTables.MissIsAbsent` | src/HashTable.hpp:130-152 | an empty slot on a key's probe sequence proves the key absent |
| `HashTables.FillAdds` | src/HashTable.hpp:279-293 | filling the first empty slot of the probe sequence adds exactly that entry |
| `HashTables.LoadLeavesRoom` | src/HashTable.hpp:267-279 | the integer load test leaves an empty slot after the insertion |
| `HashTables.Rehash` | src/HashTable.hpp:174-220 | growing keeps exactly the same entries |
| `HashTables.HashTable.Lookup` | src/HashTable.hpp:110-153 | terminates, finds exactly the inserted keys, with their payloads |
| `HashTables.HashTable.Insert` | src/HashTable.hpp:266-301 | adds one record, growing as needed; a key already present is stored a second time |
| `HashTables.HashTable.Walk` | src/HashTable.hpp:308-326 | visits each record once, as many as the table counts |
| `ScanCaches.ScanCache.Rehash` | src/ScanCache.cpp:206-238 | relinking in place keeps exactly the same records at their positions, each in its new chain |
| `ScanCaches.ScanCache.LookupDynamic` | src/ScanCache.cpp:87-113 | finds exactly the records of this session |
| `ScanCaches.ScanCache.Lookup` | src/ScanCache.cpp:115-191 | the frozen entry, else the dynamic one, each only with the same time stamp |
| `ScanCaches.ScanCache.Insert` | src/ScanCache.cpp:240-295 | adds or updates one record, and nothing else changes |
| `Scanner.IncludesOf` | src/Scanner.cpp:162-246 | with a consistent cache, hit or miss, what scanning the file finds |
| `Scanner.ScanImplicitDeps` | src/Scanner.cpp:144-266 | terminates with exactly the files reachable by one or more includes, each once, whatever a consistent cache holds |
| `BinaryWriters.Encode32RoundTrip` | src/BinaryData.hpp:27-38 | a stored 32-bit offset is read back |
| `BinaryWriters.FixupPointers` | src/BinaryWriter.cpp:75-96 | fails exactly when an offset does not fit; fills every slot and changes no other byte |
| `BinaryWriters.SlotsApart` | src/BinaryWriter.cpp:65-73 | no two pointer slots of the file overlap |
| `BinaryWriters.BinaryWriter.WritePointer` | src/BinaryWriter.cpp:65-73 | a placeholder and a fixup behind everything written so far |
| `BinaryWriters.BinaryWriter.Align` | src/BinaryWriter.cpp:43-53 | pads to the next multiple with 0xfe |
| `BinaryWriters.BinaryWriter.Flush` | src/BinaryWriter.cpp:124-174 | segments start at multiples of 16; following any slot leads to the file position of its locator, or to null when that is the slot itself; all other bytes unchanged |
| `Paths.GetSegments` | src/PathUtil.cpp:95-135 | the non-empty stretches between separators |
| `Paths.WalkIsMove` | src/PathUtil.cpp:177-199 | walking along segments from any place is one move, which the right-to-left counter computes |
| `Paths.DropSegments` | src/PathUtil.cpp:174-218 | the right-to-left ".." counter equals the left-to-right stack |
| `Paths.Init` | src/PathUtil.cpp:137-218 | the normalised path of a string |
| `Paths.DropsIsLargestBalance` | src/PathUtil.cpp:177-199 | the right-to-left counter ends at the largest surplus of ".." over names in a prefix |
| `Paths.AboveRootExact` | src/PathUtil.cpp:137-218 | an absolute path keeps ".." above the root if and only if some prefix has more ".." than names |
| `Paths.AboveRootKept` | src/PathUtil.cpp:137-218 | "/../a" keeps its ".." |
| `Paths.Format` | src/PathUtil.cpp:297-345 | the printed path, leading ".." first |
| `Paths.FormatRoundTrip` | src/PathUtil.cpp:297-345 | any normalised path survives printing and parsing |
| `Paths.Idempotent` | src/PathUtil.cpp:137-218 | parsing, printing and parsing again changes nothing, for every string |
| `Paths.ConcatIsNormalize` | src/PathUtil.cpp:234-276 | joining two normalised lists is normalising their concatenation |
| `Paths.Concat` | src/PathUtil.cpp:234-295 | up and down moves from the base, clamped when it is absolute |
| `Paths.ConcatStrings` | src/PathUtil.cpp:278-295 | for strings: relative bases normalise the joined segments, absolute bases stop at the root, an absolute second path wins |
| `HashStreams.HashState.Update` | src/Hash.cpp:14-50 | the state depends on the concatenation of all updates only |
| `HashStreams.HashState.Finalize` | src/Hash.cpp:109-142 | the digest of the whole blocks of the padded message |
| `HashStreams.HashChunks` | src/Hash.cpp:14-142 | however the bytes are cut into updates, the digest is that of their concatenation |
| `HashStreams.PaddingEndsBlock` | src/Hash.cpp:109-142 | the padded message ends on a block boundary |
| `HashStreams.PaddingIsStandardExactly` | src/Hash.cpp:123-132 | the padding is that of section 5.1.1 of FIPS 180-4 if and only if the length is not 55 modulo 64 |
| `HashStreams.PaddingIsStandard` | src/Hash.cpp:123-132 | in that case it has exactly 64 zero bytes more |
| `HashStreams.PaddingInjective` | src/Hash.cpp:109-142 | below 2^61 bytes the padded message determines the message |

## Left out

- Processes, pipes, signals and the file system: exit codes, signature values, missing outputs and interruption are arbitrary inputs of the transition system; wake-up after a signal is not claimed.
- Mutexes and condition variables: a lock-held section is one atomic step; CondSignal may wake nobody and any sleeper may wake at any time, CondBroadcast wakes all.
- Digest mixing: digests, signatures and scan keys are numbers, the block function is a parameter, scan keys identify files.
- The Lua front end, command line, target selection by name, logging, profiling and the inspection tool.
- `BuildQueueObject.BuildQueue.constructor`: the node count is below 2^31, as the source's 32-bit node indices require.
- `BuildQueueObject.BuildQueue.SetupDependencies`: the DAG-to-local remap of GetStateForNode is applied once, in `Driver.IsConfig`, instead of at every access.
- `BuildTheorems.DeadlockFree`: acyclicity is a precondition, as the source never checks for cycles; so is that no dependency lies in a later pass, which the source checks only when it meets one.
- `Driver.SelectNodes`: visited bits are booleans rather than bits of words; pass indices are natural numbers, not truncated to 16 bits.
- `EndToEnd.CompileDag`: scanners, setup data, named and default nodes and the layout of the file are not compiled; output lists hold strings only.
- `TerminalSystem.SleepersAreWoken`: the signal for a freed buffer wakes nobody in particular, so a job waiting for a buffer may sleep on until the owner of the terminal exits.
- `TerminalIo.Terminal.EmitLocked`: the flush is one atomic piece of output; only the owner writes, so nothing can come between its writes.
- `JsonText.RoundTrip`: numbers stay text; strtod is a parameter that must take a numeral whole when a delimiter follows. Strings are ASCII, as the writer's escape table is indexed with a signed character. Error messages and line numbers are not modelled.
- `JsonSpacing.SpaceKeepsParse`: strtod is a parameter here too; white space must end a number.
- `StateDatabase.SaveBuildState`: the lists of auxiliary outputs, which no decision reads, are not stored.
- `HashTables.HashTable.Insert`: table sizes do not wrap at 2^32, and case-insensitive tables are not modelled.
- `ScanCaches.ScanCache.Insert`: record pointers are indices; table sizes do not wrap at 2^32; merging the cache into the file it is saved to is not modelled, nor the access flags beyond being set.
- `BinaryWriters.BinaryWriter.WritePointer`: locators must name a segment of the writer, as those from BinarySegmentPosition do.
- `Paths.Init`: Windows paths, the limits of 64 segments and 512 characters and the packed segment array are not modelled, nor PathStripLast and partial formatting.
- The stat cache, the digest cache, response files and include scanning itself.
