# Cloud adaptor: a verified model of its task engine

The cloud adaptor creates, updates and initialises Kubernetes clusters. An HTTP request inserts a row into
one of three task tables and pushes a message into a bounded queue; a consumer starts one runner per message;
the runner emits step events through a channel of capacity 10; a handler writes them into an event table and
projects them onto the statuses of the rows; listing events repeats that projection from the stored log.
This project models that engine in Dafny, from single statements up to all interleavings, together with the
five algorithms around it: the install poller, the RKE node configuration, text tables, the template cache and
backup/recovery.

| module | about |
|---|---|
| `Basics`, `TaskModel` | options, results, substring search; messages, events, task rows |
| `EventLog`, `EventRaces`, `EventStatements` | the event table: an upsert in which a stored success is final; its methods statement by statement, for any callers and as the program calls them |
| `ClusterUsecase` | recording an event in one transaction, listing events, synchronising them |
| `TaskHistory` | arbitrary interleavings of recordings and status writes |
| `UpdateTasks` | the update table and its optimistic lock |
| `Pipeline` | runner, channel and handler |
| `Dispatch` | queue, consumer and the memory of handled IDs |
| `RkeAdaptor` | the RKE adaptor as an emitter of events |
| `TaskRuns` | from the trace of a run to its rows |
| `UpdateProtocol` | requests, queue, consumer, runs, listings and database as one transition system |
| `InitRegion`, `InitListings` | the install poller, the row of its run, and what later listings make of that row |
| `NodeConfig` | node conversion, validation and the adaptor's role gate |
| `TextTable` | column layout on ANSI-stripped lengths |
| `TemplateCache` | the template cache |
| `Recovery` | backup and recovery |

Step names and statuses are datatypes with one `Other` constructor for the rest. A `char` stands for one byte
of a Go string. A row ID is a natural number and a table a sequence in ID order. A version is a natural number,
a port a 64-bit integer. What comes from outside (the database refusing a statement, RKE, Kubernetes, files, a
fetch, the observations of a poll) is a parameter that ranges over all outcomes. The update rows carry their
version in the field `extra`.

Where the code differs from what its names or messages suggest, the model follows the code and says exactly when:
the `start` write of an update request goes to the create table; a failure recorded for an update leaves its row
incomplete until events are listed; a late `start` write undoes a completion; an update whose last message cannot
be recorded is never completed; the mark of a finished run returns to `running` if the run ends before its start is
recorded; a refused status write of a listing mostly panics, since its error is logged through a variable that is
nil; a later status write undoes the outcome in an init row; a listing turns a failed init row to `inited` once an
earlier one has seen the region running; an unclosed ANSI escape is not stripped; a table without columns is not
aligned when separators are drawn; a store object edited after a miss makes the cache return templates of its old
location.

## Model

| member | source | states |
|---|---|---|
| `EventLog.TaskEventRepo.Create` | internal/repo/cloud_task_event.go:44-70 | The argument comes back cut to 512 bytes, with a fresh ID only if it was inserted without one; the table changes by an upsert per (task, step) |
| `EventLog.TaskEventRepo.UpdateStatusInBatch` | internal/repo/cloud_task_event.go:82-87 | Exactly the rows with one of the event IDs become successful; no other status and no other column changes |
| `EventLog.TaskEventRepo.ListEvent` | internal/repo/cloud_task_event.go:73-79 | The list holds the rows of the given ID at strictly increasing places of the table and leaves none out, so each comes once and in table order |
| `EventLog.SuccessIsFinal` | internal/repo/cloud_task_event.go:62-69 | Over any sequence of upserts and batch updates, each one step, no row disappears or changes key, place or ID, a stored success never changes at all, and no (task, step) gets a second row |
| `EventRaces.LosesIff` | internal/repo/cloud_task_event.go:49-67 | The methods alone, for any callers: in every run of lookups, write-backs and batch updates a stored success is lost exactly when an event that is no success is written back over a row that a batch update named after it was looked up |
| `EventRaces.SaveIsUpsertIff` | internal/repo/cloud_task_event.go:49-67 | Lookup and write-back amount to one upsert at the time of the write exactly if no batch update named the row in between, or the event is a success with the text and reason of the row |
| `EventRaces.MarkIsOverwritten` | internal/repo/cloud_task_event.go:82-87 | A sequence of calls of the methods, which the program itself never makes, that loses the success stored by a batch update |
| `EventStatements.SuccessIsNeverLost` | internal/usecase/cluster.go:705-725 | The program as a whole, statement by statement: with one handler per task and listings that collect event IDs after a stored failure and mark them later, in every interleaving no stored success is ever lost or changed |
| `EventStatements.RecordingIsUpsert` | internal/repo/cloud_task_event.go:49-67 | In every such interleaving lookup and write-back of a message amount to one upsert |
| `EventStatements.NextKeepsInv` | internal/usecase/cluster.go:1318-1367 | The invariant behind both: a stored failure of such a task means that nothing is left to record, and collected IDs are those of its own events |
| `InitRegion.SelfManagedFailsLast` | internal/task/init_wutong_cluster.go:61-220 | An init run whose adaptor emits nothing has no failure but its last message |
| `EventLog.RowsSummariseMessages` | internal/repo/cloud_task_event.go:44-70 | After any messages there is one row per step that occurred, in order of first occurrence, holding the first success if there was one and the last message otherwise |
| `EventLog.ViewOfUpsert` | internal/repo/cloud_task_event.go:49-69 | An event changes the rows of its own task only, by absorbing text cut to 512 bytes and the reason of the uncut text |
| `TaskHistory.LogFollowsOwnMessages` | internal/usecase/cluster.go:601-617 | However recordings, status writes and batch updates of all tasks interleave, the stored events of a task that no batch update names depend on its own messages in order and on nothing else |
| `TaskHistory.DecidedIsStored` | internal/repo/cloud_task_event.go:62-69 | The message that decides a step is what its stored event holds |
| `TaskHistory.StoredIsDecided` | internal/repo/cloud_task_event.go:62-69 | Conversely every stored event is the deciding message of its step |
| `ClusterUsecase.Service.CreateTaskEvent` | internal/usecase/cluster.go:601-660 | All or nothing: it succeeds exactly if no statement executed for this message is refused, each of them named with the step and status that need it; the stored event has the text cut to 512 bytes and the reason of the uncut text; otherwise event table and task tables are unchanged |
| `ClusterUsecase.Service.ListTaskEvent` | internal/usecase/cluster.go:670-728 | For every choice of refused statements: a failed read changes nothing; otherwise it panics exactly if a refused status write is one whose error is logged through the outer variable, the task tables then keeping the writes made so far; without a panic the events of the task come back, and those of done steps are marked exactly after a stored failure of an init task of a self-managed cluster that could be queried |
| `ClusterUsecase.Service.GetTask` | internal/usecase/cluster.go:730-771 | The last of the three tables in which the task is found says its type, and only a task found in the init table alone, for a provider `rke` or `custom`, is one to synchronise |
| `ClusterUsecase.SyncableIff` | internal/usecase/cluster.go:1318-1321 | Synchronised are exactly the tasks whose first init row has one of the two providers and that have no row in the later tables |
| `ClusterUsecase.Service.RecomputeStatuses` | internal/usecase/cluster.go:684-719 | The loop makes the status writes of all events in order, passing over refused ones or panicking at them, leaves the events alone, and reports whether one is a failure |
| `ClusterUsecase.FatalIff` | internal/usecase/cluster.go:687-718 | A refused status write panics exactly if it is made after a failure or is to the create table |
| `ClusterUsecase.Service.SyncTaskEvents` | internal/usecase/cluster.go:1334-1366 | An event ID is collected exactly if it belongs to the first event of a step that the cluster shows to be done, each step by its own condition |
| `ClusterUsecase.DoneIff` | internal/usecase/cluster.go:1336-1366 | The four steps that a cluster can show to be done, and the condition that shows each |
| `ClusterUsecase.SyncMarksDoneSteps` | internal/usecase/cluster.go:1334-1367 | With distinct event IDs, a synchronisation makes the first event of each done step of the task successful and changes no other row of the event table |
| `ClusterUsecase.FailedIff` | internal/usecase/cluster.go:705-706 | Synchronisation is wanted exactly if some stored event is a failure |
| `TaskHistory.PutAllRewrites` | internal/repo/update_kubernetes_task.go:78-84 | A list of status writes leaves every row of every table with the last status written to its task ID, and touches nothing else |
| `TaskHistory.RecomputeIdempotent` | internal/usecase/cluster.go:684-719 | Repeating the recomputation on an unchanged log changes nothing in any table |
| `TaskHistory.ListingHeals` | internal/usecase/cluster.go:684-719 | Whatever statuses were written before, one listing completes the create (update) row whenever the log holds a failure or the success that ends the work |
| `UpdateTasks.UpdateKubernetesTaskRepo.Create` | internal/repo/update_kubernetes_task.go:47-66 | An insertion is refused, changing nothing, exactly if a row has the same task and cluster ID or the same cluster and version, and the two refusals are told apart |
| `UpdateTasks.UpdateKubernetesTaskRepo.GetTaskByClusterID` | internal/repo/update_kubernetes_task.go:69-75 | The last row of the cluster in ID order, if it has one |
| `UpdateTasks.UpdateKubernetesTaskRepo.UpdateStatus` | internal/repo/update_kubernetes_task.go:78-84 | All rows of one task ID have the status, no other row and no other column changes, and completion keeps every chain of versions |
| `UpdateTasks.UpdateKubernetesTaskRepo.IsLastTaskComplete` | internal/usecase/cluster.go:412-436 | It succeeds exactly if the last update row and the last create row of the cluster, as far as they exist, are complete, and the result is the version of that update row, or 0 without one |
| `UpdateTasks.CheckedVersionIsBuilt` | internal/usecase/cluster.go:412-436 | On a chain of versions the check returns the number of rows, the version of the last row, which is complete, or 0 before the first |
| `UpdateTasks.InsertionAccepted` | internal/repo/update_kubernetes_task.go:55-57 | Of requests that build on a chain, the index accepts exactly the one whose version is next |
| `UpdateTasks.NextVersionIsAccepted` | internal/usecase/cluster.go:371-386 | Progress: on a chain with the last update and create row complete or absent, the check passes with the last version and the insertion of a new row with the next one is accepted |
| `UpdateTasks.ChainGrows` | internal/repo/update_kubernetes_task.go:47-66 | An accepted insertion extends the chain of its cluster and leaves the others |
| `Pipeline.EveryScheduleHandlesTheTrace` | internal/task/init_wutong_cluster.go:345-368 | In every interleaving of sender, handler and return: handled, buffered and unsent messages are the trace in order, all of it is handled before `run` returns, no reachable state is stuck, and every schedule ends after a fixed number of steps |
| `Pipeline.NeverStuck` | internal/task/update_kubernetes.go:125-148 | A run that has not returned has an enabled step |
| `Dispatch.StartedOnce` | internal/task/init_wutong_cluster.go:304-324 | For any deliveries and redeliveries and any interleaving with finishing runs, an ID is started exactly once if an acceptable message of it was consumed and never otherwise; messages are consumed in order |
| `Dispatch.RejectedAre` | internal/task/init_wutong_cluster.go:309-318 | The messages answered with a failure are, in order, exactly those not acceptable of tasks that no earlier message has started |
| `Dispatch.NextKeepsInv` | internal/nsqc/channel_consumer.go:61-74 | The invariant behind it, and that no delivery is lost, doubled or reordered between queue and consumer |
| `Dispatch.OverwrittenIff` | internal/task/init_wutong_cluster.go:321-322 | In every run this overwriting happens exactly if the runner has finished before its start is recorded |
| `Dispatch.CompleteMayBeOverwritten` | internal/task/update_kubernetes.go:101-102 | A run in which recording the start of a task overwrites its mark `complete` by `running` |
| `RkeAdaptor.Adaptor.ExpansionNode` | internal/adaptor/rke/rke.go:558-649 | It announces success exactly if the cluster was found, the state file exists and every call worked, and otherwise the text of the first that did not; if the last save works, success stores the new access to the cluster as running, and every failure but that of the lookup stores it as failed and changes nothing else |
| `RkeAdaptor.Adaptor.CreateWutongKubernetes` | internal/adaptor/rke/rke.go:131-272 | A run that the gate or anything before it stops changes nothing; a configuration that cannot be written at most resets a failed cluster; otherwise, if the last save works, the cluster is stored as running with its new access exactly after a success and as failed after a failure; the events are those of the way it returns |
| `RkeAdaptor.CreationOutcome` | internal/adaptor/rke/rke.go:131-272 | The last event of a creation is the success with the cluster ID exactly if every call works and the nodes pass the gate, and otherwise the text of the first obstacle in the order of the code |
| `RkeAdaptor.Adaptor.PrepareCluster` | internal/adaptor/rke/rke.go:131-240 | Its first part gets to the installation exactly if the cluster is found, a configuration is there, each role is held by some node, and the configuration can be written |
| `RkeAdaptor.Adaptor.InstallKubernetesWith` | internal/adaptor/rke/rke.go:241-272 | Its last part: success is announced only after the cluster was saved as running, failure of the installation after it was saved as failed |
| `RkeAdaptor.UpdateRunsEndWell` | internal/task/update_kubernetes.go:51-63 | On every exit path of an RKE update the last message is final, is the one that decides its step, and no earlier message is final |
| `RkeAdaptor.CreateRunsEndWell` | internal/task/create_kubernetes.go:51-63 | The same for every exit path of an RKE creation |
| `RkeAdaptor.RunUpdate` | internal/task/update_kubernetes.go:51-63 | The runner announces an update success exactly if there is an adaptor and every call of the expansion works; without an adaptor the cluster is not touched |
| `RkeAdaptor.RunsStartFirst` | internal/task/create_kubernetes.go:51-63 | In every update and create run each result of a step comes after the start of that step |
| `TaskRuns.CreateTaskHeals` | internal/usecase/cluster.go:231-237 | In every interleaving of a create run with late `start` writes, with all work on other tasks and with batch updates of their events, one later listing leaves its row complete |
| `TaskRuns.LateStartUndoesCompletion` | internal/usecase/cluster.go:234-236 | A row that a recorded message has completed is back at `start` after the late write |
| `TaskHistory.RowsHaveLastStatus` | internal/usecase/cluster.go:619-652 | After any recordings, status writes and batch updates, a row of any of the three tables has a status exactly if the last write to its task in its table gave it, or if there was none and it had it before |
| `TaskHistory.MessageWrites` | internal/usecase/cluster.go:619-652 | What the last write of a recorded message is, for each table: completion of the create row, completion or `inited` of the init row, completion of the update row by a success alone |
| `TaskRuns.RecordingLeavesFailedUpdate` | internal/usecase/cluster.go:635-652 | Recording changes the update table for an update success only; a failure leaves the row as it is |
| `TaskRuns.UpdateHealsIff` | internal/task/update_kubernetes.go:137-142 | The handler drops the error of a recording: whichever messages of an update run are refused and whatever interleaves, a listing completes the row if and only if the last message was recorded |
| `UpdateProtocol.NextKeepsInv` | internal/usecase/cluster.go:371-402 | Every atomic step of requests, queue, consumer, runs, listings and environment keeps the invariant on locks, rows, deliveries, runs, log and pending listing writes |
| `UpdateProtocol.VersionsAreConsecutive` | internal/usecase/cluster.go:371-386 | In every execution the rows of each cluster have versions 1 to n in ID order and all but the last are complete |
| `UpdateProtocol.UpdatesExcludeEachOther` | internal/usecase/cluster.go:412-436 | Of two update rows of a cluster at least one belongs to a run that has recorded its last message |
| `UpdateProtocol.OneRequestWins` | internal/repo/update_kubernetes_task.go:52-65 | In every execution an insertion is accepted exactly if its version is the next of its cluster, and that version stays taken |
| `UpdateProtocol.FirstInsertionWins` | internal/usecase/cluster.go:377-386 | Of all insertions of one version of a cluster the first is accepted and no other |
| `UpdateProtocol.NoStuckCluster` | internal/usecase/cluster.go:699-717 | In every interleaving a listing that starts after the run of an update has recorded its last message, however that run ended, has completed its row when the listing ends, for good; if the update is then still the last of its cluster, the check of the next request passes it |
| `UpdateProtocol.ChecksLetPassIff` | internal/usecase/cluster.go:412-436 | A request survives its two checks exactly if the last update row and then the last create row of its cluster are complete or absent, and it then holds the version of that update row, or 0 |
| `UpdateProtocol.LoneRequestInserts` | internal/usecase/cluster.go:371-386 | In every execution, a request that runs alone while the last tasks of its cluster are complete passes both checks and inserts its row with the next version, so a cluster can be updated again and again |
| `UpdateProtocol.StartGoesToCreates` | internal/usecase/cluster.go:399-401 | The `start` write of an update request goes to the create table and leaves the update rows alone |
| `UpdateProtocol.ReturnedRunIsRecorded` | internal/task/update_kubernetes.go:125-148 | A run that has returned has recorded its last message |
| `UpdateProtocol.NeverDeadlocked` | internal/nsqc/producer/channel_task.go:50-61 | While a message is unsent, unconsumed or a run has not returned, a sender, the consumer or a runner can step |
| `UpdateProtocol.WorkIsFinite` | internal/nsqc/channel_consumer.go:61-74 | In every execution each insertion brings at most 18 steps of sending, consuming and running, so finitely many requests lead to a quiet system |
| `InitRegion.CheckPackages` | internal/task/init_wutong_cluster.go:201-208 | However many conditions are ready, the package success is sent once and only if it was not sent before |
| `InitRegion.WakeUp` | internal/task/init_wutong_cluster.go:157-217 | One wake-up does exactly one turn: what it sends, whether it leaves the loop, and the flags it leaves behind, for every observation |
| `InitRegion.Poll` | internal/task/init_wutong_cluster.go:156-219 | Every announced success of a milestone was shown by an observation and is followed by its `start`, there are no more of them than wake-ups, and a region success is shown by the observation at which the loop is left, after a package success; a failure carries the text of the observation that gave up, and the loop gives up at the first such observation |
| `InitRegion.MilestonesAtMostOnce` | internal/task/init_wutong_cluster.go:178-209 | For all observations the operator, image-hub and package successes are emitted at most once each, and not at all when already flagged |
| `InitRegion.RegionAfterPackage` | internal/task/init_wutong_cluster.go:215-219 | A region success comes only after a package success |
| `InitRegion.LeavesWithOneRegionMessage` | internal/task/init_wutong_cluster.go:157-219 | A loop that is left ends in exactly one region message, a success or a failure; before that there is none |
| `InitRegion.ThreeTicksSuffice` | internal/task/init_wutong_cluster.go:178-217 | Three observations of everything up end the loop with success, whatever the flags were |
| `InitRegion.SeenIsAnnounced` | internal/task/init_wutong_cluster.go:178-217 | Whatever comes in between: the operator is announced the first time it is seen, the image hub at the second time at the latest, the packages at the third, and a loop that goes on has seen packages and region together at most twice |
| `InitRegion.FlagsAreAnnounced` | internal/task/init_wutong_cluster.go:178-209 | The flags are set exactly for the milestones whose success has been sent |
| `InitRegion.LeavingIsFinal` | internal/task/init_wutong_cluster.go:156-219 | Observations after the loop was left change nothing |
| `InitRegion.HubStartMayFollowSuccess` | internal/task/init_wutong_cluster.go:178-190 | Two observations for which the image hub's `start` is emitted after its success |
| `InitRegion.Run` | internal/task/init_wutong_cluster.go:61-220 | A whole run, message by message up to the loop: the steps it gets to are announced, and it ends with the text of the first call that fails |
| `InitRegion.SuccessIsStored` | internal/repo/cloud_task_event.go:62-69 | A success once emitted is what the stored step says, whatever is emitted later, a late `start` included |
| `InitRegion.InitRunEnds` | internal/task/init_wutong_cluster.go:61-220 | Every init run ends with a failure or with its only region message, a success |
| `InitRegion.InitRowSaysOutcome` | internal/usecase/cluster.go:627-652 | In every interleaving with recordings and writes of other tasks and with any batch updates, if nothing touches the row after the last message of the run, the row is `inited` if the run ended with region success and `complete` if it ended with a failure |
| `InitRegion.ListingSetsOutcome` | internal/usecase/cluster.go:693-709 | Whatever status the row has, the status writes of one listing, of a log that holds what the run emitted, give it the outcome of the run |
| `InitRegion.InitTaskHeals` | internal/usecase/cluster.go:339-345 | In every interleaving of an init run with late `start` writes, writes of users and work on other tasks, one later listing gives the row the outcome of the run |
| `InitRegion.LateWriteUndoesOutcome` | internal/usecase/cluster.go:342-344 | A later status write, the `start` of the request or a user's (internal/usecase/cluster.go:914-915), does undo what a message gave the row |
| `InitListings.OutcomeKeptIff` | internal/usecase/cluster.go:684-725 | After a finished run, with listings that overlap write by write, synchronisations, and other writers of the row, once no listing is under way: the row holds what its last writer gave it; if that is a listing, it is the outcome of the run if and only if the run succeeded or the listing did not read the region event as a success, and otherwise `inited` |
| `InitListings.ReadsSuccessIff` | internal/usecase/cluster.go:1358-1367 | A listing reads the region event as a success exactly if the run succeeded, or it failed waiting for the region of a self-managed cluster and an earlier listing has seen the region running |
| `InitListings.TimeoutTurnsInited` | internal/usecase/cluster.go:1358-1367 | A run that timed out: one listing that finds the region running leaves the row `complete`, the next turns it to `inited` |
| `NodeConfig.AtoiOfItoa` | internal/usecase/cluster.go:1149-1154 | Parsing a printed port is the identity for every 64-bit integer |
| `NodeConfig.ItoaIsCanonical` | internal/usecase/cluster.go:1149-1154 | A port is printed with a minus sign exactly if negative, and without leading zeros |
| `NodeConfig.AtoiReads` | internal/usecase/cluster.go:282-282 | The texts that read as a number are a sign or none followed by decimal digits, of a value that fits 64 bits, and the number read is that value |
| `NodeConfig.NodeListToRKEConfigNodes` | internal/usecase/cluster.go:1143-1168 | One RKE node per entry, in order, field by field: the port reads back as the given one, 22 stands for port 0 and docker for an empty user |
| `NodeConfig.RKEConfigToNodeList` | internal/usecase/cluster.go:275-296 | It succeeds exactly if every port is readable, each entry then describing its RKE node; otherwise the error names the first unreadable port |
| `NodeConfig.NodeRoundTrip` | internal/usecase/cluster.go:1143-1168 | The only entry that describes a converted node is the original with port 0 read as 22 and an empty user as docker |
| `NodeConfig.ConversionIsStable` | internal/usecase/cluster.go:275-296 | Converting a list, back, and again gives the defaulted list and the same RKE nodes |
| `NodeConfig.JoinedSearchIsPerRole` | internal/adaptor/v1alpha1/cluster.go:230-238 | Searching a name without comma in the joined roles finds it exactly if some role contains it |
| `NodeConfig.CountIs` | internal/adaptor/v1alpha1/cluster.go:221-239 | The counters of the loop are the numbers of nodes that hold the role |
| `NodeConfig.Validate` | internal/adaptor/v1alpha1/cluster.go:217-247 | Accepts exactly the non-empty lists with usable addresses, ports 0 to 65533, a control-plane and a worker node and an odd number of etcd nodes; each error is characterised |
| `NodeConfig.RoleGate` | internal/adaptor/rke/rke.go:145-172 | The loop over the nodes returns no error exactly if there is a node and each of the three roles is held by one |
| `NodeConfig.GateErrors` | internal/adaptor/rke/rke.go:145-172 | Which error the gate gives: no nodes, otherwise the first of worker, control plane and etcd that no node holds |
| `NodeConfig.GateIff` | internal/adaptor/rke/rke.go:149-172 | The gate passes exactly the configurations in which each of the three roles is held by some node |
| `NodeConfig.ValidatedPassesGate` | internal/adaptor/rke/rke.go:145-172 | A configuration that converts and validates passes the gate |
| `NodeConfig.DefaultNodes` | internal/adaptor/v1alpha1/rke_cluster.go:31-53 | One node per address, the last given, none twice, none missing |
| `NodeConfig.PruneUpdateRKEConfig` | internal/usecase/cluster.go:1105-1141 | It fails exactly if the configuration cannot be decoded, the result not encoded, or a port left in it not read, the first such port being named; otherwise the node list describes the configuration returned, in which given nodes have replaced the old ones with their two defaults or, without a configuration, the last given node of each address stands |
| `TextTable.ClosedIffStripDistributes` | pkg/util/table.go:28-28 | Texts whose escapes are all closed are exactly those after which stripping distributes over concatenation |
| `TextTable.StripAppend` | pkg/util/table.go:180-182 | The stripped text of closed text followed by anything is the two stripped texts |
| `TextTable.EscapeVanishes` | pkg/util/table.go:28-28 | An escape up to its first `m` strips to nothing |
| `TextTable.Table.Recalculate` | pkg/util/table.go:90-101 | Each column holds its cells in row order and its width is the largest visible length among them |
| `TextTable.ColumnIs` | pkg/util/table.go:90-101 | A column of a full table holds the cells of the rows in their order |
| `TextTable.Table.SetHeader` | pkg/util/table.go:69-74 | The header becomes the first row, and columns and widths describe the rows again |
| `TextTable.Table.AddRow` | pkg/util/table.go:77-80 | The row becomes the last, and columns and widths describe the rows again |
| `TextTable.Table.CellsFit` | pkg/util/table.go:168-168 | No cell is wider than its column, so no padding count is negative |
| `TextTable.Table.GetCell` | pkg/util/table.go:156-178 | With separators a bar and padding, then the cell as it is, then spaces up to the width of the column and its padding, and a bar after the last column; its precondition is that the cell fits |
| `TextTable.Table.SeparatorLine` | pkg/util/table.go:147-154 | Dashes with a plus exactly at the borders of the columns |
| `TextTable.Table.Render` | pkg/util/table.go:104-145 | If no cell holds a line feed, splitting the text gives each row its line, on which each of its cells stands unchanged after the earlier ones with only spaces and bars between, and rulers around header and body; in any case the text is the expected lines joined by line feeds |
| `TextTable.SplitOfJoin` | pkg/util/table.go:104-145 | Splitting a text joined from lines without line feed gives these lines |
| `TextTable.ColumnsStandBelow` | pkg/util/table.go:156-178 | Stripped of escapes, each cell of a column of plain cells begins at the same place in every row: that given by the widths of the columns before it |
| `TextTable.TableAligns` | pkg/util/table.go:104-182 | All lines of a rectangular table of closed one-line cells have the same visible length if and only if there is a body row and, with separators, a column (or, without, no header or zero length) |
| `TextTable.Table.RenderedAligns` | pkg/util/table.go:104-145 | The same for the lines of a table object, whose widths are computed from its rows |
| `TextTable.NoColumnsMisalign` | pkg/util/table.go:147-154 | With separators, a row without cells is not aligned |
| `TemplateCache.AppStore.Equals` | internal/domain/appstore.go:42-56 | Equal exactly if URL, branch and credentials are |
| `TemplateCache.Storer.ListAppTemplates` | internal/repo/appstore/storer.go:49-67 | What is stored under the name for the same URL, branch and credentials is answered and nothing is written; otherwise the fetch is answered and, only if it succeeded, replaces whatever is stored under the name |
| `TemplateCache.Storer.Resync` | internal/repo/appstore/storer.go:44-46 | The key is forgotten, other keys stay |
| `TemplateCache.Storer.DeleteAppTemplates` | internal/repo/appstore/storer.go:70-72 | The key is forgotten, other keys stay |
| `TemplateCache.HitIffListed` | internal/repo/appstore/storer.go:49-67 | Over every run, a listing hits exactly if the last operation that dropped its name or listed it with success was a listing of the same location |
| `TemplateCache.AnswersAre` | internal/repo/appstore/storer.go:50-56 | A hit is answered what that listing was answered, and every other listing what its fetch gives |
| `TemplateCache.ListedIsStored` | internal/repo/appstore/storer.go:49-67 | After any run, a listing that is answered with templates leaves exactly these, with its location, under its name |
| `TemplateCache.AnswerWasFetched` | internal/repo/appstore/storer.go:49-67 | Templates that are answered were fetched by a listing of the same name and location, with no deletion or resynchronisation of the name since |
| `TemplateCache.CacheIsTransparent` | internal/repo/appstore/storer.go:49-67 | While the remote stores stay the same, a listing answers what a fetch would, errors included |
| `TemplateCache.EditStore` | internal/handler/appstore.go:143-149 | Editing a store object changes the cache exactly if it is the cached object |
| `TemplateCache.EditIsSafeIff` | internal/handler/appstore.go:143-149 | Whatever the remote stores hold, the edit keeps a truthful cache truthful exactly if the location stays the same or some cached store already shows the same templates at the new one, which the caller can see without a fetch |
| `TemplateCache.EditServesStaleTemplates` | internal/handler/appstore.go:143-149 | A miss, an edit of the listed object and a listing at the new location return the templates of the old one |
| `Recovery.SystemHandler.Backup` | internal/handler/system.go:59-69 | Each row of each of the nine tables in ID order, without its ID, as far as its scan gets, whose error is ignored; a table is complete exactly if its scan gives all rows, and the rows of a valid database can be inserted again |
| `Recovery.SystemHandler.Recover` | internal/handler/system.go:207-304 | It succeeds exactly if no statement is refused and no two rows clash in a unique index; then every table holds the backup in order under new, increasing IDs, and otherwise no table has changed |
| `Recovery.SystemHandler.CreateRows` | internal/handler/system.go:269-273 | One table's rows are re-created in order, or the first refusal stops |
| `Recovery.ClashIff` | internal/model/cloud.go:53-57 | Two rows clash exactly if they are update tasks of one cluster and version or application stores of one name |
| `Recovery.RecoveryKeepsLatest` | internal/model/models.go:26-30 | A backup of a valid database never clashes, and after recovery every filtered query for the row with the largest ID finds the same row as before, or none in both |
| `Recovery.CutScanLosesRows` | internal/handler/system.go:59-67 | A recovered table has all rows of the table backed up exactly if the scan of the backup gave all of them |

## Left out

- `EventLog.TaskEventRepo.Create`: lookup and write are one step, here and in every module but `EventRaces` and `EventStatements`; the latter proves that in the program they amount to that.
- `ClusterUsecase.Service.ListTaskEvent`: a cluster that cannot be queried, for whatever reason, is one outcome.
- `Pipeline.EveryScheduleHandlesTheTrace`: runs whose adaptor panics, and event recordings that fail, which the handler only logs.
- `UpdateProtocol.NoStuckCluster`: recordings and the status writes of listings are taken to work (`TaskRuns.UpdateHealsIff` and the contracts of `ClusterUsecase.Service` say what refused ones do), and providers other than RKE are not covered: the request refuses them (internal/usecase/cluster.go:356).
- `UpdateProtocol.NextKeepsInv`: IDs of update rows and of events are fresh (UUIDs), rows are not deleted, and recovery does not run beside update requests. Event IDs marked by a synchronisation belong to init tasks.
- `Dispatch.StartedOnce`: accesses of the consumer and of finishing runs to the shared map are taken as atomic; in the code they are unsynchronised. Create messages, which are not deduplicated, are not dispatched here.
- `RkeAdaptor.Adaptor.ExpansionNode`: work after its last event (describing the cluster) and files are not modelled, nor the descriptive columns of the cluster row.
- `InitRegion.InitRowSaysOutcome`: the eight exits of the cluster check share one shape, a `CheckCluster` failure with a text; the adaptor's own events are arbitrary but about its own steps.
- `InitListings.OutcomeKeptIff`: the status writes of listings are taken to work; event IDs of the task are distinct, and batch updates for other tasks name none of them.
- `EventStatements.SuccessIsNeverLost`: new event IDs are fresh, tasks are new when their run starts, and a task has one run (`Dispatch.StartedOnce`).
- `InitRegion.Poll`: tickers and timers are choices of the environment; status fields are the three conditions and the package list.
- `NodeConfig.Validate`: `net.ParseIP` and `IsLoopback` are one function parameter.
- `NodeConfig.PruneUpdateRKEConfig`: base64 and YAML are outcomes, decoded or not and encoded or not; nil and empty lists are not told apart, and the rest of the default configuration is not modelled.
- `TextTable.Table.Recalculate`: widths are computed with natural numbers; the code passes through floating point, which is exact below 2^53.
- `TextTable.Table.Render`: padding is a natural number; a negative padding panics in the code.
- `TemplateCache.Storer.ListAppTemplates`: calls are sequential; the single-flight grouping of fetches is not modelled.
- `Recovery.SystemHandler.Recover`: backups that do not decode (the code goes on with an empty backup) and recovery beside other work are not covered; its nine deletions and nine re-creations are loops over the tables.
- Selecting gateway and chaos nodes, and the event traces of the ACK, TKE and custom adaptors.
- Creating, installing and deleting clusters as HTTP requests, access keys, cluster configuration, SSH keys, kubeconfigs and node commands.
- The NSQ consumer and producer: the program is wired to the channel versions; redelivery is an environment step.
- JSON, tar and file contents of backups.
