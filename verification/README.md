# Verified model of the Pithos archiver

Pithos is a deterministic archiver with a local job daemon. This project models six of its subsystems in Dafny and proves
what they promise.

- **Engine task scheduler** (`TaskGraph`, `TaskScheduler`): validation of the dependency graph by Kahn's algorithm, and the
  dispatch loop under a memory budget and a worker cap, as a transition system in which workers finish in any order. The
  executable loop returns such a run with its answer.
- **Durable job registry** (`JobIds`, `JobStore`, `JobRegistry`, `JobRegistryObject`, `JobRuns`, `JobReplayLoss`,
  `JobOutcomeLoss`): the record validation, every mutator, commits that fail or crash at each step, restart recovery, and
  theorems over whole runs. The registry object updates its fields in place and is tied to transition functions, about which the
  run theorems are.
- **Weighted fair queue** (`FairQueue`): lanes, credits and sessions as objects, with bounds on waiting.
- **Archive assembly and catalog** (`ArchiveFormat`, `ArchiveRecords`, `CatalogRules`, `SectionRanges`, `CatalogReader`,
  `ArchiveReader`, `ArchiveContents`, `ArchiveLayout`, `PackedTables`, `ArchiveRoundTrip`, `ArchiveRestore`, `ArchiveSpool`,
  `ArchiveWriter`, `GroupTasks`, `PackCompressed`, `PackRaw`, `PackRefusals`, `PackOperation`, `PackEstimates`, `StagingTree`,
  `Unpack`): what the reader accepts, what the writer builds, that one is the inverse of the other, where they disagree, and what
  a pack needs.
- **Chunking, microfiles and fingerprints** (`MergeSort`, `Chunks`, `Chunkers`, `StructuralChunks`, `ChunkIds`, `MicroPack`,
  `MicroMetadata`, `MicroValidate`, `MicroPlan`, `MicroPlanner`, `MicroChunks`, `RollingHash`, `Superfeatures`,
  `ChunkFingerprints`, `Fingerprints`).
- **Planner and path keys** (`GreedyPartition`, `SolidGroups`, `PathKeys`, `CodecRegistry`).

`dafny verify dfyconfig.toml` checks the whole project.

## Findings

- A pack can build an archive that its own verification then refuses. The exact condition is `ArchiveRoundTrip.PackFits`. Three
  of its parts are checked by the reader only: the expansion-ratio cap, which the choice of the cheapest codec ignores
  (`PackRefusals.RatioIsReadersOnly`, and `CompressibleFileIsRefused` for files under the default limits); the metadata total, to
  which the reader adds the directory length (`MetadataLimitIsTight`); and link targets with a component that the platform
  refuses to turn back into a path (`UnusableTargetIsRefused`).
- Files up to 1 GiB pass the walk and the reader's default limits, but a compressing pack reserves twice the length of a group
  and 129 MiB, and its memory is capped at 2 GiB: a pack with a file longer than 959.5 MiB less one byte is refused whatever memory
  limit is configured, and every other one fits the highest limit (`PackRefusals.MemoryCapDecides`). The resource estimate for such a
  pack is no help; apart from that and from metadata beyond its allowance the estimate is enough
  (`PackEstimates.EstimateIsEnough`).
- The transitions to Completed and Failed are admitted by the transition table but set no result or error, so their commit
  always fails validation and leaves the registry unhealthy; `JobOutcomeLoss.TransitionCanStop` is a run that gets there. A fresh
  request whose method does not match its operation, or with a zero limit, does the same (`RequestCanStop`): it is refused only by
  the validation of its own commit. While the disk works nothing else stops a registry (`OnlyTheseStop`). The daemon's service
  makes neither call: it checks the limits of a request (crates/pithos-daemon/src/limits.rs:29-42,
  crates/pithos-daemon/src/service.rs:739-744), passes the method of the operation, and moves jobs only to Running.
- A submit that is answered from the index can be forgotten: a failed directory sync in its commit and another in a restart leave
  the store healthy on a snapshot that was never synced, and a power loss then takes it back. The answer is final exactly when the
  synced snapshot already indexes the request (`JobReplayLoss.AnswerIsFinalExactly`); a fresh acceptance cannot be lost.
- Three kinds of archives verify but cannot be unpacked: those whose entries do not form a tree, say a file `a` and a file `a/b`,
  since the catalog rules ask only for distinct paths (`Unpack.VerifiesButCannotUnpack`); those with a link to the empty target,
  which the constructor of targets refuses but the reader does not (`EmptyTargetCannotUnpack`); and those with names that no system
  call takes, as UTF-8 components may hold a zero byte where the other encodings may not (`ZeroByteCannotUnpack`). The exact
  condition is `Unpack.Unpackable`; an archive packed from a directory tree meets it (`PackOperation.PackThenUnpack`).

## What is assumed

Hashes, checksums, compressors, JSON, FastCDC and the file system are parameters. `SoundCodecs`, `SoundRecords`, `SoundTables` and
`SoundCdc` say what is asked of them: codecs invert and the store codec copies, records whose fields fit read back, tables read
back, and FastCDC tiles its input with positive lengths up to its maximum. `ArchiveRecords.FixedRecordsAreSound` proves the
second of these for the byte layouts of the format. `EncodingsAreShort` says that a codec's output fits in a byte vector. `ScanOk`,
`ScannedTree` and `ScannedTaken` say what a scanned directory tree is: distinct usable paths, links that stay inside, files no
longer than a signed 64-bit number, one content per file identity; no non-directory at or above another entry; and names and link
targets that the file system takes. While unpacking, the file system does what it is asked to wherever it takes the names and
nothing stands in the way: it has the space, the permissions and the links, and the output directory does not exist yet. Which paths
and targets it takes beyond the rules on zero bytes and empty targets, by length for instance, is a parameter.

## Model

| member | source | states |
|---|---|---|
| `TaskGraph.ValidateDag` | crates/pithos-engine/src/scheduler.rs:295-344 | Accepts exactly the task lists with unique ids, known and repeat-free dependencies and an acyclic graph (a rank function exists); each refusal has the source's error, in the source's order. The indegree subtraction never underflows. |
| `TaskGraph.Release` | crates/pithos-engine/src/scheduler.rs:326-337 | The two error returns of the inner loop, on an absent child and on `checked_sub`, are unreachable for the dependents of a queued task. |
| `TaskGraph.IndexTasks` | crates/pithos-engine/src/scheduler.rs:299-318 | The first loop refuses exactly duplicate ids, repeated dependencies and unknown dependencies, and otherwise leaves for each id its number of open dependencies and its list of dependents. |
| `TaskGraph.KahnEnds` | crates/pithos-engine/src/scheduler.rs:325-343 | When the queue runs empty, everything was visited exactly if the graph is acyclic. |
| `TaskGraph.AcyclicMeansNoCycle` | crates/pithos-engine/src/scheduler.rs:339-343 | `DependencyCycle` is answered exactly for graphs with a closed walk of dependencies. |
| `TaskScheduler.ExecuteScheduled` | crates/pithos-engine/src/scheduler.rs:163-245 | The loop with every order of worker completions and cancellations: once it starts, what it returns is where a run of the transition system from its start ends; success is the id-sorted list with one payload per task; without cancellation and with every action within bound it does return success; the `DependencyCycle` return inside the loop is unreachable. |
| `TaskScheduler.CheckBudgets` | crates/pithos-engine/src/scheduler.rs:174-178 | Before anything runs, the first task whose reservation overflows or exceeds the budget is reported. |
| `TaskScheduler.NoWorkerBlocks` | crates/pithos-engine/src/scheduler.rs:132-134 | In every reachable state the results not yet received are fewer than the channel holds, so a finishing worker never waits to send. |
| `TaskScheduler.NeverStuck` | crates/pithos-engine/src/scheduler.rs:186-240 | In every reachable state that is not finished, the loop or a worker can move without outside help: there is no deadlock. |
| `TaskScheduler.StepKeeps` | crates/pithos-engine/src/scheduler.rs:186-240 | Every step keeps the invariant: free memory plus reservations equals the budget, running tasks are at most the workers, and a task has been dispatched only after its dependencies completed. |
| `TaskScheduler.DispatchedOnce` | crates/pithos-engine/src/scheduler.rs:190-212 | A task leaves `pending` once and never returns, and leaves only when all its dependencies have completed. |
| `TaskScheduler.RunsAreBounded` | crates/pithos-engine/src/scheduler.rs:186-240 | Every run ends: at most eighteen steps per task and five more. |
| `TaskScheduler.RunsEndWell` | crates/pithos-engine/src/scheduler.rs:186-245 | Every run that can go no further is finished; its answer is the expected list if all actions succeed and nobody cancels, else the error of some failing task or the cancellation. |
| `TaskScheduler.ScheduleIndependence` | crates/pithos-engine/src/scheduler.rs:163-245 | Any two runs that succeed give the same answer, whatever order workers finish in. |
| `FairQueue.FairScheduler.constructor` | crates/pithos-daemon/src/scheduler.rs:60-69 | Empty lanes, full credits, cursor 0. |
| `FairQueue.FairScheduler.Push` | crates/pithos-daemon/src/scheduler.rs:72-75 | The job joins its session in its lane, and the counter saturates; the queue's whole new state. |
| `FairQueue.FairScheduler.Pop` | crates/pithos-daemon/src/scheduler.rs:77-101 | Terminates, returns a job exactly when one is queued, and leaves the state the loop specification says. |
| `FairQueue.FairScheduler.Drain` | crates/pithos-daemon/src/scheduler.rs:107-113 | Empties the queue; per lane and session the jobs come out in the order they went in, none lost or added. |
| `FairQueue.PriorityLane.Push` | crates/pithos-daemon/src/scheduler.rs:22-28 | A session enters the rotation exactly with its first queued job. |
| `FairQueue.PriorityLane.Pop` | crates/pithos-daemon/src/scheduler.rs:30-46 | Serves the session at the front and puts it at the back if it has more jobs. |
| `FairQueue.QueuePop` | crates/pithos-daemon/src/scheduler.rs:77-101 | The loop ends with a job of a lane that has credit, in a valid queue one shorter: credits before the cursor are spent, those after it are full, and all-zero credits mean cursor 0. |
| `FairQueue.LaneStarvationBound` | crates/pithos-daemon/src/scheduler.rs:5-101 | From every reachable state a nonempty lane of weight w is served within 25 - w pops, whatever is pushed in between. |
| `FairQueue.SessionStarvationBound` | crates/pithos-daemon/src/scheduler.rs:30-101 | The head job of the session at place k of lane p is popped within (k + 1) * (25 - w_p) pops, whatever is pushed in between. |
| `FairQueue.PopBringsCloser` | crates/pithos-daemon/src/scheduler.rs:77-101 | One pop serves the waiting job or strictly lowers the number of pops it may still have to wait. |
| `FairQueue.FirstInFirstOut` | crates/pithos-daemon/src/scheduler.rs:21-50 | Over any run, what a lane and session had queued and pushed equals what came out followed by what is still queued, as sequences. |
| `JobIds.JobIdRoundTrip` | crates/pithos-daemon/src/store.rs:1015-1022 | Parsing a formatted job id returns its number. |
| `JobIds.MapKeyInjective` | crates/pithos-daemon/src/store.rs:1058-1060 | The index key determines owner and key, because a session id has no colon. |
| `JobRegistryObject.ValidateState` | crates/pithos-daemon/src/store.rs:891-945 | The loops accept exactly the states in which ids, events, results, markers, the counter and the index agree. |
| `JobRegistryObject.TrimRetained` | crates/pithos-daemon/src/store.rs:883-889 | Every job keeps its newest events; says whether any job had too many. |
| `JobRegistryObject.JobRegistry.Commit` | crates/pithos-daemon/src/store.rs:662-687 | New memory, disk and health for every way the commit can fail: before the rename nothing changes, after it memory already equals the published file. |
| `JobRegistryObject.JobRegistry.SubmitWithLimit` | crates/pithos-daemon/src/store.rs:230-315 | Replay, refusal or fresh admission; the whole new registry state. |
| `JobRegistryObject.JobRegistry.UpdateOwned` | crates/pithos-daemon/src/store.rs:642-660 | All owner updates: transition, cancel, finish, complete, record, expire and fail run on a copy and commit. |
| `JobRegistryObject.JobRegistry.RecordPackPublication` | crates/pithos-daemon/src/store.rs:428-493 | An identity read outside the lock is recorded only for a started pack of that owner, and is checked again under the lock. |
| `JobRegistryObject.JobRegistry.CloseAndCancelAll` | crates/pithos-daemon/src/store.rs:603-640 | Closes admission first, then moves every queued or running job in one commit, without looking at health. |
| `JobRegistryObject.RecoverJobs` | crates/pithos-daemon/src/store.rs:193-212 | Restart recovery of every unfinished job. |
| `JobRegistryObject.ReloadState` | crates/pithos-daemon/src/store.rs:179-215 | Validate, trim, recover, trim and validate again. |
| `JobRegistryObject.OpenStore` | crates/pithos-daemon/src/store.rs:179-220 | Opening returns a registry or an error, with exactly the files the attempt left behind. |
| `JobStore.TransitionKeepsJob` | crates/pithos-daemon/src/store.rs:317-338 | A transition keeps a job valid exactly when its target needs no result or error: Running, Cancelling and Cancelled, not Completed or Failed. |
| `JobStore.RetainedIsNewest` | crates/pithos-daemon/src/store.rs:851-889 | Under one retention policy the kept events are exactly the last min(n, max) of the full history, with consecutive numbers. |
| `JobStore.RecoverKeepsJob` | crates/pithos-daemon/src/store.rs:194-212 | Recovery of one job yields a valid, finished job that still carries its request and history. |
| `JobRegistry.MutationKeepsState` | crates/pithos-daemon/src/store.rs:317-555 | Every owner update commits a state that validates, except the two transitions straight to an outcome, which never do. |
| `JobRegistry.AdmitKeepsState` | crates/pithos-daemon/src/store.rs:275-312 | Admitting a fresh request yields a valid state exactly when method and limits of the request are well formed; its id is new. |
| `JobRegistry.AdmitIndexes` | crates/pithos-daemon/src/store.rs:275-312 | The index stays one-to-one with the jobs. |
| `JobRegistry.CloseKeepsState` | crates/pithos-daemon/src/store.rs:603-640 | Shutdown commits a state that validates. |
| `JobRegistry.CloseLeavesNothingPending` | crates/pithos-daemon/src/store.rs:603-640 | After a shutdown no job is queued or running. |
| `JobRegistry.RecoveryIsIdempotent` | crates/pithos-daemon/src/store.rs:179-220 | Recovering a recovered state changes nothing. |
| `JobRuns.EveryRunIsSound` | crates/pithos-daemon/src/store.rs:152-687 | Over every interleaving of calls, failing commits, crashes, power losses and restarts from the empty store, memory is the newest published snapshot at every return and every snapshot is valid and follows the one before. The theorems below hold for every stretch of such a run. |
| `JobRuns.UnhealthyRefuses` | crates/pithos-daemon/src/store.rs:230-240 | An unhealthy registry refuses every submit and owner update and does not change. |
| `JobRuns.UnhealthyStays` | crates/pithos-daemon/src/store.rs:667-687 | After a failed commit the registry stays unhealthy until a restart; a shutdown does not heal it. |
| `JobRuns.SubmitIsExactlyOnce` | crates/pithos-daemon/src/store.rs:230-315 | All successful submits of one owner and key return the same job id, across failures and restarts, when any snapshot that holds the key outlives the calls between them; a synced one always does. |
| `JobRuns.FreshAcceptanceSurvives` | crates/pithos-daemon/src/store.rs:667-687 | The snapshot behind a fresh acceptance holds the key and survives every failure and power loss. |
| `JobReplayLoss.AnswerIsFinalExactly` | crates/pithos-daemon/src/store.rs:179-315 | A registry that would answer a request with a job keeps to that answer in every continuation exactly when the synced snapshot already indexes the request; this can be checked at that moment. |
| `JobReplayLoss.AnswerCanChange` | crates/pithos-daemon/src/store.rs:179-315 | From every serving registry with room there is a continuation in which a new request is acknowledged under two ids: one failed sync in its commit and one in a restart leave a replayed answer unsynced, and a power loss takes it back. |
| `JobReplayLoss.ReplayCanChange` | crates/pithos-daemon/src/store.rs:152-315 | For any two different requests there is such a run from the empty store. |
| `JobOutcomeLoss.OnlyTheseStop` | crates/pithos-daemon/src/store.rs:230-687 | While the disk works, a call makes a healthy registry unhealthy exactly when it is a new malformed request or a permitted transition straight to an outcome; nothing else of the registry changes. |
| `JobOutcomeLoss.TransitionCanStop` | crates/pithos-daemon/src/store.rs:317-338 | For every usable request there is a run without a disk failure that ends unhealthy: open, submit, move the job to Running, move it to Completed or Failed. |
| `JobOutcomeLoss.RequestCanStop` | crates/pithos-daemon/src/store.rs:275-312 | For every malformed request with a valid key there is such a run: open, and submit it. |
| `JobRuns.TerminalIsFrozen` | crates/pithos-daemon/src/store.rs:1045-1056 | State, result, error and marker of a finished job never change once a surviving snapshot shows it finished. |
| `JobRuns.RunsAtMostOnce` | crates/pithos-daemon/src/store.rs:317-338 | No job enters Running twice, whatever failures, power losses and restarts lie in between. |
| `JobRuns.CompletedPackIsOwned` | crates/pithos-daemon/src/store.rs:392-493 | A completed pack was earlier on disk, unfinished, with its output found absent before it ran and the identity of its archive recorded. |
| `JobRuns.OpenKeepsSound` | crates/pithos-daemon/src/store.rs:179-220 | A store opens only with every job finished; a failed open leaves a store that can be opened again. |
| `JobRuns.ReloadIsIdempotent` | crates/pithos-daemon/src/store.rs:179-220 | Reading a recovered store back changes nothing more, whatever the output files look like by then. |
| `PathKeys.BuildSortKey` | crates/pithos-format/src/lib.rs:516-524 | The loop builds the key the specification says. |
| `PathKeys.SortKeyIsInjective` | crates/pithos-format/src/lib.rs:516-524 | Two paths have the same key exactly when they are the same path. |
| `PathKeys.CheckResolvesWithin` | crates/pithos-format/src/lib.rs:577-592 | The depth loop decides what the specification says. |
| `PathKeys.ResolvesWithinIsExact` | crates/pithos-format/src/lib.rs:577-592 | The depth count accepts exactly the targets that, followed from the directory of the link, never leave the root. |
| `CodecRegistry.EncodeRegistry` | crates/pithos-format/src/lib.rs:246-268 | Encodes exactly lists of nonzero, distinct chains that fit a 32-bit count. |
| `CodecRegistry.DecodeRegistry` | crates/pithos-format/src/lib.rs:270-300 | Decodes exactly the bytes that hold an acceptable registry, and returns it. |
| `CodecRegistry.RegistryRoundTrip` | crates/pithos-format/src/lib.rs:246-300 | Decoding reads back every registry the encoder writes. |
| `ArchiveRecords.HeaderRoundTrip` | crates/pithos-format/src/lib.rs:88-145 | A header whose fields fit reads back as itself, checksum included. |
| `ArchiveRecords.FooterRoundTrip` | crates/pithos-format/src/lib.rs:658-691 | A footer whose fields fit reads back as itself. |
| `ArchiveRecords.SectionRoundTrip` | crates/pithos-format/src/lib.rs:158-181 | A directory record whose fields fit reads back as itself. |
| `ArchiveRecords.FixedRecordsAreSound` | crates/pithos-format/src/lib.rs:88-181 | These encodings satisfy everything the archive theorems assume of the fixed-size records. |
| `SolidGroups.PlanSolidGroups` | crates/pithos-planner/src/lib.rs:34-74 | Fails exactly on overflow; otherwise the groups tile the items in order, one per item for RAW and greedy within the target for other profiles. |
| `SolidGroups.NoOverflowWithin64Bits` | crates/pithos-planner/src/lib.rs:34-74 | The planner never fails on lengths whose total fits in 64 bits. |
| `SolidGroups.Total` | crates/pithos-planner/src/lib.rs:87-103 | The checked sum is exact or an overflow error, never a wrapped value. |
| `GreedyPartition.GreedyIsOptimal` | crates/pithos-planner/src/lib.rs:34-74 | No contiguous partition of the same items within the same target, oversize items alone, has fewer parts. |
| `GreedyPartition.GreedyIsUnique` | crates/pithos-planner/src/lib.rs:34-74 | There is only one greedy partition, so a plan depends on the lengths alone. |
| `SectionRanges.ValidateSectionRanges` | crates/pithos-engine/src/lib.rs:2140-2164 | Sorting and comparing neighbours accepts exactly the directories whose sections lie between directory and footer and are pairwise disjoint. |
| `SectionRanges.ReadDirectory` | crates/pithos-engine/src/lib.rs:1647-1671 | Accepts exactly directories with known, distinct section types and all required ones. |
| `ArchiveReader.ReadCatalog` | crates/pithos-engine/src/lib.rs:1599-1936 | Succeeds exactly on files that have an acceptable catalog, and returns it. |
| `CatalogReader.CheckEntries` | crates/pithos-engine/src/lib.rs:1730-1805 | The entry loop accepts exactly consecutive ids, distinct safe paths, valid links, totals within limits and matching index and integrity records. |
| `CatalogReader.CheckRestores` | crates/pithos-engine/src/lib.rs:1807-1826 | Accepts exactly one restore record for each file and none for anything else. |
| `CatalogReader.CheckMappings` | crates/pithos-engine/src/lib.rs:1891-1909 | The slices of a group follow one another from 0 to its length. |
| `CatalogReader.CheckGroups` | crates/pithos-engine/src/lib.rs:1828-1914 | Accepts exactly groups with valid headers, sizes, ratio and codec whose payloads tile the payload section. |
| `CatalogRules.EveryFileIsRestored` | crates/pithos-engine/src/lib.rs:1807-1826 | In an accepted catalog every file has a restore record. |
| `CatalogRules.SliceFits` | crates/pithos-engine/src/lib.rs:1891-1909 | The slice of every restore record lies inside its group. |
| `CatalogRules.SlicesAreDisjoint` | crates/pithos-engine/src/lib.rs:1891-1909 | Slices of one group never overlap. |
| `CatalogRules.EveryByteIsRestored` | crates/pithos-engine/src/lib.rs:1891-1909 | Every byte of a decoded group belongs to some slice. |
| `CatalogRules.PayloadsAreDisjoint` | crates/pithos-engine/src/lib.rs:1881-1914 | Payloads of different groups never overlap and lie in the payload section. |
| `ArchiveContents.SliceIsThere` | crates/pithos-engine/src/lib.rs:2038-2062 | Taking a slice succeeds exactly inside the entry, and cannot fail for a whole entry that fits its group. |
| `ArchiveContents.RangeReadIsSlice` | crates/pithos-engine/src/lib.rs:1392-1447 | A range read succeeds exactly when the whole entry can be read, the range lies in it and is within the output limit, and yields that slice of the extracted file. |
| `ArchiveContents.VerifyOpenFile` | crates/pithos-engine/src/lib.rs:1938-1983 | Succeeds exactly when the catalog is acceptable and every checksum, hash and slice agrees. |
| `ArchiveContents.VerifiedEntriesAreReadable` | crates/pithos-engine/src/lib.rs:1352-1390 | After verification no extraction of a file or hardlink fails, and its bytes have the stated size and hash. |
| `ArchiveLayout.DirectoryReadsBack` | crates/pithos-engine/src/lib.rs:2292-2308 | Reading the written directory yields the records that were written. |
| `ArchiveLayout.AssembledIsAccepted` | crates/pithos-engine/src/lib.rs:430-550 | The reader accepts an assembled file exactly when its tables obey the catalog rules and the sizes are within the limits. |
| `ArchiveLayout.AssembledCatalogIsOnly` | crates/pithos-engine/src/lib.rs:1599-1936 | No other catalog can be read from an assembled file. |
| `ArchiveSpool.CheckMetadata` | crates/pithos-engine/src/lib.rs:864-875 | The writer's own metadata check: each section and their sum, without the directory. |
| `ArchiveSpool.ReaderAddsDirectory` | crates/pithos-engine/src/lib.rs:1698-1708 | The reader's metadata total is the writer's plus the length of the directory. |
| `ArchiveSpool.WriteArchive` | crates/pithos-engine/src/lib.rs:895-972 | The spool steps produce exactly the assembled file: section by section, records sorted by type, header and footer from the positions and counts of what was written. |
| `ArchiveWriter.WalkEntry` | crates/pithos-engine/src/lib.rs:606-688 | One scanned entry gives its record and, for a file not seen before, a source; a second name of a file becomes a hardlink to the first. |
| `ArchiveWriter.WalkInputs` | crates/pithos-engine/src/lib.rs:606-688 | Succeeds exactly when the total and every file are within their limits; what the walk refuses, no layout of these inputs could make acceptable. |
| `ArchiveWriter.AssignGroup` | crates/pithos-engine/src/lib.rs:693-714 | Members of a group get consecutive offsets, every placeholder of the group is replaced, and the plan's length is met exactly. |
| `ArchiveWriter.EncodeSolidGroup` | crates/pithos-engine/src/lib.rs:1022-1075 | Picks the candidate that every other loses to: the cheapest, the smaller codec number on ties. |
| `ArchiveWriter.BestCodecIsUnique` | crates/pithos-engine/src/lib.rs:1041-1070 | The choice does not depend on the order of the candidates. |
| `ArchiveWriter.BestNeverGrows` | crates/pithos-engine/src/lib.rs:994-1007 | With the store codec among the candidates a group never grows. |
| `GroupTasks.CodecMemoryIsMost` | crates/pithos-engine/src/lib.rs:735-742 | The scratch memory of a task covers every candidate codec. |
| `GroupTasks.SpoolsInOrder` | crates/pithos-engine/src/scheduler.rs:243-245 | The scheduler's list for the group tasks is each task's own envelope, in group order. |
| `GroupTasks.RunGroupTasks` | crates/pithos-engine/src/lib.rs:743-763 | The group tasks all succeed exactly when every reservation fits the memory budget, whatever order workers finish in. |
| `GroupTasks.OpenEnvelope` | crates/pithos-engine/src/lib.rs:779-785 | Taking an envelope apart returns the codec and the payload that were put in. |
| `PackCompressed.TaskAtSucceeds` | crates/pithos-engine/src/lib.rs:731-760 | The action of a group task stays within its output bound, because the chosen encoding never grows the group. |
| `PackCompressed.EncodeGroups` | crates/pithos-engine/src/lib.rs:728-763 | The group tasks, run by the scheduler: one envelope per planned group with its cheapest encoding, exactly when every group fits the memory budget. |
| `PackCompressed.AppendGroups` | crates/pithos-engine/src/lib.rs:777-811 | Group records and payload area from the spool files, each payload where the one before ends; no spool file of the group tasks is refused. |
| `PackCompressed.BuildRegistry` | crates/pithos-engine/src/lib.rs:817-832 | The reader accepts this registry, finds every used codec in it under the chain id its groups carry, and no other codec; chain ids rise strictly. |
| `PackCompressed.ExpectedLength` | crates/pithos-engine/src/lib.rs:876-879 | The length the writer expects before it writes the metadata is the length of the finished archive. |
| `PackCompressed.FinishArchive` | crates/pithos-engine/src/lib.rs:851-978 | Succeeds exactly when the archive fits the reader's limits and archive and spool files the output and temporary budgets, and returns the assembled file. |
| `PackCompressed.PackInputs` | crates/pithos-engine/src/lib.rs:600-979 | From the scan on, packing with a compressing profile succeeds exactly when the planned archive fits the reader's limits, its groups the memory budget, and its files the output and temporary budgets; it returns that archive. |
| `PackCompressed.PlannedIsUnique` | crates/pithos-engine/src/lib.rs:690-763 | The same inputs and profile always give the same archive. |
| `PackRaw.PackRawInputs` | crates/pithos-engine/src/lib.rs:281-557 | From the scan on, RAW packing succeeds exactly when the archive of single-file groups fits the reader's limits and the smaller of the output and temporary budgets, and returns that archive. |
| `PackRefusals.RatioIsReadersOnly` | crates/pithos-engine/src/lib.rs:1852-1859 | Whatever is packed: with an expansion ratio that some group exceeds, every check before the final verification passes and the verification refuses. |
| `PackRefusals.CompressibleFileIsRefused` | crates/pithos-engine/src/lib.rs:569-979 | Under the default limits a file that compresses more than a thousandfold passes every check of the packer and is refused by its verification. |
| `PackRefusals.MetadataLimitIsTight` | crates/pithos-engine/src/lib.rs:864-878 | Whatever is packed: a metadata limit of just the sections' length passes the packer and fails the verification. |
| `PackRefusals.UnusableTargetIsRefused` | crates/pithos-engine/src/lib.rs:1777-1784 | Under the default limits a link whose target has a component that is no usable file name is packed up to the verification, which refuses it. |
| `PackRefusals.FilesDecideMemory` | crates/pithos-engine/src/lib.rs:723-763 | With a memory budget that a group of the profile's target length fits, the groups of any plan fit exactly when every file fits it alone. |
| `PackRefusals.MemoryCapDecides` | crates/pithos-engine/src/lib.rs:723-763 | For every scan and its planned layout, with the memory limit as high as it goes: the groups fit exactly when no file is longer than 959.5 MiB less one byte; with a longer file they fit no limit. |
| `PackRefusals.OneFileMemory` | crates/pithos-engine/src/lib.rs:723-763 | A single file of up to 1 GiB passes the walk, and is refused for memory exactly when it is longer than that. |
| `PackOperation.Pack` | crates/pithos-engine/src/lib.rs:250-979 | Packing scanned inputs with any profile: no inputs, an existing output and a zero budget are refused first, in this order; otherwise success is exactly that the archive the profile lays out fits the derived reader limits and all budgets, and that archive is returned. |
| `PackOperation.OneLayout` | crates/pithos-engine/src/lib.rs:690-763 | Scan and profile determine the layout, and so the archive. |
| `PackOperation.DefaultsAgree` | crates/pithos-core/src/lib.rs:169-187 | The default pack limits lead to the reader limits under which the refused examples are stated. |
| `PackOperation.PackThenUnpack` | crates/pithos-engine/src/lib.rs:250-1585 | An archive that packing returned for a scanned tree can be unpacked under the limits it was packed with, and the only tree that unpacking can finish with is the scanned one. |
| `PackEstimates.EstimateIs` | crates/pithos-engine/src/lib.rs:74-131 | The estimate exists exactly when nothing it adds up overflows, and has a closed form: twice the largest group and 129 MiB, or the scan if that is more. |
| `PackEstimates.MemoryIsEnough` | crates/pithos-engine/src/lib.rs:103-121 | With the estimated memory as limit all groups of any plan fit, exactly unless a file is too long for the cap of 2 GiB, where no limit helps. |
| `PackEstimates.PayloadsNeverGrow` | crates/pithos-engine/src/lib.rs:994-1007 | The payload area is no longer than the files together. |
| `PackEstimates.EstimateIsEnough` | crates/pithos-engine/src/lib.rs:74-131 | The estimate is conservative: with it as limits, and metadata within its allowance, a pack fails exactly for the reader's limits or a file too long for the memory cap. |
| `ArchiveRoundTrip.PackedTablesOk` | crates/pithos-engine/src/lib.rs:1730-1914 | The catalog rules on packed tables come down to usable link targets, the total size and the group limits; everything else always holds. |
| `ArchiveRoundTrip.PackedIsAccepted` | crates/pithos-engine/src/lib.rs:1599-1936 | The reader accepts a packed archive exactly when the limits fit: section, group and chunk counts, total size, metadata total with the directory, group sizes and expansion ratio, and usable link targets. |
| `ArchiveRestore.PackedGroupDecodes` | crates/pithos-engine/src/lib.rs:2064-2107 | Decoding a group of the packed file yields the contents of its files, joined. |
| `ArchiveRestore.PackedEntryBytes` | crates/pithos-engine/src/lib.rs:1352-1390 | Reading a file or hardlink of a packed archive yields the scanned content. |
| `ArchiveRestore.PackedVerifies` | crates/pithos-engine/src/lib.rs:1938-1983 | Full verification of a packed archive succeeds exactly when the limits fit; only its own catalog can be read from it. |
| `StagingTree.PlaceItem` | crates/pithos-engine/src/lib.rs:1485-1510 | A directory is created with those above it, anything else only at a free place below directories, and only under names and link targets that the file system takes; what stands in the way is reported. |
| `StagingTree.OneMoreItem` | crates/pithos-engine/src/lib.rs:1485-1580 | Placing one more entry keeps the tree exactly the placed entries and the directories above them. |
| `StagingTree.Obstruction` | crates/pithos-engine/src/lib.rs:1485-1580 | Whatever stands in the way belongs to an entry already placed that conflicts with the new one. |
| `Unpack.UnpackArchive` | crates/pithos-engine/src/lib.rs:1462-1585 | Every entry is put at its own path exactly when the archive verifies, fits the staging limit, no non-directory entry lies at or above another entry's path, and the file system takes all names and link targets; what happens below an unpacked link is left open. |
| `Unpack.UnpackedIsShaped` | crates/pithos-engine/src/lib.rs:1485-1580 | A finished tree holds no entry at or below the place of a non-directory entry, and only names and targets the file system takes. |
| `Unpack.PackedIsUnpackable` | crates/pithos-engine/src/lib.rs:1462-1585 | A packed archive that fits the limits verifies; it can be unpacked exactly when its entries came from a directory tree with names and targets the file system takes, and fit the staging limit. |
| `Unpack.VerifiesButCannotUnpack` | crates/pithos-engine/src/lib.rs:1730-1805 | A file and another below it make an archive that verifies and cannot be unpacked: the catalog asks only for distinct paths. |
| `Unpack.EmptyTargetCannotUnpack` | crates/pithos-format/src/lib.rs:566-575 | A link with an empty target makes such an archive too: a target is refused only for its components. |
| `Unpack.ZeroByteCannotUnpack` | crates/pithos-format/src/lib.rs:399-410 | So does a usable component whose name holds a zero byte, which the check of UTF-8 components lets through. |
| `Unpack.RoundTrip` | crates/pithos-engine/src/lib.rs:246-1585 | Packing and unpacking return the scanned tree: the same paths, every file with its bytes and mode, names of one file still sharing it, every link with its target, and besides them only directories above entries. |
| `MergeSort.TrySort` | crates/pithos-analysis/src/chunking.rs:719-788 | On success the array holds its sorted content; a run stopped by its checkpoint promises nothing about the array. |
| `MergeSort.MergeRuns` | crates/pithos-analysis/src/chunking.rs:739-770 | Two adjacent runs are merged into the same place of the scratch buffer. |
| `MergeSort.SortIsStableSort` | crates/pithos-analysis/src/chunking.rs:719-788 | For any total preorder the result is sorted, a permutation, and keeps the order of equivalent elements. |
| `MergeSort.SortIsOrderIndependent` | crates/pithos-analysis/src/chunking.rs:719-788 | When only equal elements are equivalent, every permutation of the input sorts to the same list. |
| `Chunks.ValidateChunkCoverage` | crates/pithos-analysis/src/chunking.rs:559-612 | Accepts exactly the coverings of the object, and for an empty object at most one empty microfile chunk. |
| `Chunks.CoversEachByteOnce` | crates/pithos-analysis/src/chunking.rs:559-612 | In an accepted covering every byte of the object lies in exactly one chunk, and no byte outside lies in any. |
| `Chunks.NoEndInside` | crates/pithos-analysis/src/chunking.rs:559-612 | No chunk of a covering ends strictly inside another. |
| `Chunkers.ChunkFastCdc` | crates/pithos-analysis/src/chunking.rs:138-177 | Succeeds exactly within the limits, with the library's cuts as chunks; the final coverage check never fails. |
| `Chunkers.ChunkFastCdcStream` | crates/pithos-analysis/src/chunking.rs:191-254 | The streaming version succeeds exactly when the slice version does on the bytes it sees, with the same chunks. |
| `Chunkers.BoundedFits` | crates/pithos-analysis/src/chunking.rs:205-210 | Seeing at most one byte more than the limit is enough: slice and stream succeed on the same inputs with the same chunks. |
| `Chunkers.ChunkFixedHighEntropy` | crates/pithos-analysis/src/chunking.rs:267-319 | Succeeds exactly when the rounded-up block count is within the limit, with blocks of the fixed size and a shorter last one. |
| `Chunkers.FixedCutsTile` | crates/pithos-analysis/src/chunking.rs:297-316 | Fixed blocks tile the object; all but the last have the full size. |
| `Chunkers.FixedCutsCount` | crates/pithos-analysis/src/chunking.rs:285-291 | The number of blocks is the size over the block size, rounded up. |
| `StructuralChunks.ValidateBoundaryEnds` | crates/pithos-analysis/src/chunking.rs:790-810 | Accepts exactly strictly ascending ends of which the last is the size. |
| `StructuralChunks.ChunkStructural` | crates/pithos-analysis/src/chunking.rs:335-424 | On a slice: succeeds exactly when boundaries, sizes and chunk count are good, with the chunks the specification says. |
| `StructuralChunks.ChunkStructuralReader` | crates/pithos-analysis/src/chunking.rs:438-547 | On a reader with reads of any size: success and chunks by the same specification on the bytes still to be read, and the reader is then at its end. |
| `StructuralChunks.ConsumeExactRegion` | crates/pithos-analysis/src/chunking.rs:865-888 | Skips exactly the region, or reports a short stream exactly when it is short. |
| `StructuralChunks.ResultCovers` | crates/pithos-analysis/src/chunking.rs:366-424 | The chunks cover the object without gap or overlap, none longer than the FastCDC maximum. |
| `StructuralChunks.BoundaryIsChunkEnd` | crates/pithos-analysis/src/chunking.rs:366-420 | Every boundary of the scanner is the end of a chunk. |
| `StructuralChunks.NoChunkCrosses` | crates/pithos-analysis/src/chunking.rs:366-420 | No chunk has a boundary strictly inside it. |
| `ChunkIds.AssignChunkIds` | crates/pithos-analysis/src/chunking.rs:626-684 | The outcome is that of the sorted drafts: their numbering, or the first error in the source's order. |
| `ChunkIds.AssignedExactly` | crates/pithos-analysis/src/chunking.rs:626-684 | Ids are assigned exactly when positions are distinct, only microfiles are empty, ends fit 64 bits and the count is within a nonzero limit. |
| `ChunkIds.AssignmentIsOrderIndependent` | crates/pithos-analysis/src/chunking.rs:626-684 | Every permutation of the drafts gives the same ids or the same error. |
| `ChunkIds.IdsFollowPositions` | crates/pithos-analysis/src/chunking.rs:663-683 | Ids count from zero in strict order of position, and every draft has exactly one. |
| `ChunkIds.CoveredObjectsAreAssignable` | crates/pithos-analysis/src/chunking.rs:559-684 | The accepted chunks of different objects never collide and are all usable. |
| `MicroPack.BuildPack` | crates/pithos-analysis/src/micro_file.rs:704-800 | Front coding, timestamp deltas, mode dictionary and records of one pack; fails exactly on overflow. |
| `MicroPack.PackDecodes` | crates/pithos-analysis/src/micro_file.rs:744-790 | Decoding a built pack returns each path, each timestamp over the whole 64-bit range and each mode. |
| `MicroPack.PackIsUnique` | crates/pithos-analysis/src/micro_file.rs:704-800 | The inputs determine the pack. |
| `MicroPack.DedupSorted` | crates/pithos-analysis/src/micro_file.rs:821-840 | In-place removal of repeated neighbours with a write index. |
| `MicroPack.BinarySearch` | crates/pithos-analysis/src/micro_file.rs:770-776 | The lookup in the dictionary finds the index of a mode that is in it. |
| `MicroPack.CommonPrefixLen` | crates/pithos-analysis/src/micro_file.rs:802-819 | The longest common prefix. |
| `MicroMetadata.ExpandedPaths` | crates/pithos-analysis/src/micro_file.rs:78-226 | Decodes exactly the acceptable metadata; invalid metadata is reported only for metadata that is. |
| `MicroValidate.ValidatePack` | crates/pithos-analysis/src/micro_file.rs:251-295 | Accepts exactly packs of the right shape within the limits. |
| `MicroValidate.ValidatePlan` | crates/pithos-analysis/src/micro_file.rs:312-382 | Accepts exactly plans of valid packs with dense ids, no entry twice and totals within the limits. |
| `MicroValidate.BuiltPackIsValid` | crates/pithos-analysis/src/micro_file.rs:251-295 | A built pack always has the required shape; it fits exactly when its metadata size does. |
| `MicroPlan.ValidateUniqueInputs` | crates/pithos-analysis/src/micro_file.rs:605-677 | Accepts exactly inputs with usable paths and no repeated id or path. |
| `MicroPlan.SelectEligible` | crates/pithos-analysis/src/micro_file.rs:477-507 | Splits the ordered inputs into eligible ones and exclusions with their reason. |
| `MicroPlan.EveryInputOnce` | crates/pithos-analysis/src/micro_file.rs:477-507 | Every input is eligible or excluded, exactly once. |
| `MicroPlan.RequiredPackCount` | crates/pithos-analysis/src/micro_file.rs:559-591 | The count is the number of parts of the greedy partition, the fewest of any partition within the target. |
| `MicroPlan.FillPacks` | crates/pithos-analysis/src/micro_file.rs:525-552 | One pack per part of the greedy partition, so the announced count is met. |
| `MicroPlan.OrderedIsCanonical` | crates/pithos-analysis/src/micro_file.rs:465-475 | The canonical order does not depend on the order of the inputs. |
| `MicroPlan.PlanIsUnique` | crates/pithos-analysis/src/micro_file.rs:445-557 | The inputs determine the plan. |
| `MicroPlanner.PlanMicroFilePacks` | crates/pithos-analysis/src/micro_file.rs:445-557 | Succeeds exactly on plannable inputs and returns their plan; on accepted inputs no failure is reported as invalid metadata. |
| `MicroPlanner.PlanPassesValidation` | crates/pithos-analysis/src/micro_file.rs:551-556 | The final validation of a plan never finds its shape invalid; it can only report a limit. |
| `MicroPlanner.PlanCoversInputs` | crates/pithos-analysis/src/micro_file.rs:445-557 | The ids of the plan are those of the inputs, each once, in a pack or in the exclusions. |
| `MicroPlanner.PlanningIsOrderIndependent` | crates/pithos-analysis/src/micro_file.rs:465-475 | Success and plan are the same for every permutation of the inputs. |
| `MicroPlanner.PlanUsesFewestPacks` | crates/pithos-analysis/src/micro_file.rs:509-591 | No way to cut the eligible files, in this order, into packs within the target uses fewer packs. |
| `MicroChunks.MicroFileLogicalChunks` | crates/pithos-analysis/src/micro_file.rs:398-430 | Succeeds exactly on valid plans, with one chunk per member, pack by pack. |
| `MicroChunks.PlanChunksAreAssignable` | crates/pithos-analysis/src/micro_file.rs:398-430 | Every chunk of a valid plan gets an id. |
| `RollingHash.RollSlides` | crates/pithos-analysis/src/fingerprint.rs:591-602 | Multiply, add and subtract with 64-bit wrap-around take the hash of a window to the hash of the window one byte on. |
| `RollingHash.MaximumIsGreatest` | crates/pithos-analysis/src/fingerprint.rs:603-608 | The specified maximum is attained by a window and exceeded by none. |
| `RollingHash.RollingRegion.constructor` | crates/pithos-analysis/src/fingerprint.rs:560-580 | An empty region whose base power is the wrapped power of its window. |
| `RollingHash.RollingRegion.Push` | crates/pithos-analysis/src/fingerprint.rs:582-609 | After every byte the maximum is that of all windows so far, hashed from scratch; a byte is refused exactly when the region is full. |
| `Superfeatures.SharesTile` | crates/pithos-analysis/src/fingerprint.rs:480-492 | The floors of equal shares tile the chunk. |
| `Superfeatures.SuperfeatureAccumulator.constructor` | crates/pithos-analysis/src/fingerprint.rs:476-505 | One region per share, of the length of the share. |
| `Superfeatures.SuperfeatureAccumulator.Push` | crates/pithos-analysis/src/fingerprint.rs:507-524 | One byte goes to the one region its position is in; it is refused exactly beyond the announced length. |
| `Superfeatures.SuperfeatureAccumulator.Update` | crates/pithos-analysis/src/fingerprint.rs:507-524 | A block of any size has the effect of its bytes. |
| `Superfeatures.SuperfeatureAccumulator.Finish` | crates/pithos-analysis/src/fingerprint.rs:526-546 | Exactly at the announced length, each superfeature is the hash of its region maxima. |
| `Superfeatures.SuperfeaturesOfStream` | crates/pithos-analysis/src/fingerprint.rs:475-546 | A stream of the announced length never fails, even with empty regions, and how it was cut into blocks does not matter. |
| `Fingerprints.FindCollisions` | crates/pithos-analysis/src/fingerprint.rs:367-402 | Sorting and marking runs of equal keys marks exactly the chunks whose compact key another chunk of the batch has. |
| `Fingerprints.TwinsAreCollisions` | crates/pithos-analysis/src/fingerprint.rs:387-402 | In the sorted list a neighbour with the same key exists exactly when any other chunk has it. |
| `Fingerprints.EscalateCompactCollisions` | crates/pithos-analysis/src/fingerprint.rs:361-413 | Never fails on fingerprints of the given bytes; exactly the colliding chunks get their full hash and nothing else changes. |
| `ChunkFingerprints.FingerprintAccumulator.Update` | crates/pithos-analysis/src/fingerprint.rs:434-444 | A block of any size has the effect of its bytes on all hashes; it is refused exactly beyond the announced length. |
| `ChunkFingerprints.FingerprintAccumulator.Finish` | crates/pithos-analysis/src/fingerprint.rs:446-467 | Exactly at the announced length, the fingerprint of everything fed, superfeatures included, however it was cut into blocks. |
| `ChunkFingerprints.FingerprintBytes` | crates/pithos-analysis/src/fingerprint.rs:342-359 | Succeeds exactly within the chunk size limit, with the fingerprint of the chunk. |
| `ChunkFingerprints.FingerprintReader` | crates/pithos-analysis/src/fingerprint.rs:191-235 | With reads of any size: succeeds exactly when the limits allow the announced length and the reader holds exactly that many bytes, reads all of them, and yields the fingerprint of those bytes. |
| `ChunkFingerprints.BatchCoversEach` | crates/pithos-analysis/src/fingerprint.rs:622-676 | A chunk of a batch that fits the metadata and working memory limits fits them on its own. |
| `Fingerprints.CheckLimits` | crates/pithos-analysis/src/fingerprint.rs:253-275 | Accepts exactly batches with right lengths, within the limits on count, chunk size, total, metadata and working memory. |
| `Fingerprints.OrderedFits` | crates/pithos-analysis/src/fingerprint.rs:140-174 | No chunk of an accepted batch can be refused for its limits later, when a collision escalates it. |
| `Fingerprints.FingerprintChunks` | crates/pithos-analysis/src/fingerprint.rs:244-340 | Succeeds exactly for a valid configuration, a batch within its limits, right lengths and distinct ids, with the canonical output of the batch. |
| `Fingerprints.FullHashExactlyOnCollision` | crates/pithos-analysis/src/fingerprint.rs:361-413 | Under the standard policy a chunk has its full hash exactly when another chunk of the output has the same compact key. |
| `Fingerprints.BatchIsCanonical` | crates/pithos-analysis/src/fingerprint.rs:280-340 | The output is strictly ordered by chunk id and the same for every order of inputs and workers. |

## Left out

- Cancellation checkpoints, except in the merge sort and the task scheduler: the public entry points without one are modelled.
- Allocation failures; sizes of structures in memory are parameters where a limit counts them.
- The kinds of the errors on a refused catalog, pack or chunking request: only success and refusal are exact there.
- File-system scanning with its own memory budget, changes to inputs during a pack, modification times, and the creation of the
  output's own parent.
- Reader I/O errors: a reader may return any number of bytes, but it does not fail.
- Read-only queries of the registry (snapshots, events, operation, list of unfinished jobs): they copy fields.
- The bodies of BLAKE3, XXH3, CRC32C, zstd, brotli, liblzma and the FastCDC gear table: foreign code.
- Record fields are unbounded numbers with explicit width checks where the source has machine words.
- TaskScheduler.RunsEndWell: which failing task's error is returned is left open, as it depends on the order workers finish in.
- JobReplayLoss.AnswerIsFinalExactly: asks for a restart to be possible from the synced snapshot (no unfinished job out of event
  numbers, two ids left) and for one request it does not know; without them there may be nothing left that could answer.
- Unpack.UnpackArchive: leaves open what becomes of a symlink entry that belongs below an earlier symlink entry, where creating its
  parents follows the link; the result then names the link and the entry.
- PackEstimates.EstimateIsEnough: takes as a hypothesis that the metadata stays within the allowance of 1 MiB per entry and 16 MiB,
  because the length of JSON text is a parameter here.
- Chunkers.ChunkFastCdcStream: assumes that the streaming chunker cuts the bytes it sees where the slice version does.
- Daemon transport, service orchestration, configuration, the command line, and the placeholder crates.
