# Pertisk Kube: verified models of its stateful core

Pertisk Kube is a desktop application for Kubernetes: a Tauri shell that starts and watches a Rust
backend, which indexes and streams cluster resources. This project models the parts of it whose
correctness is a statement about every run or every input, and proves those statements.

| file | what it models |
|---|---|
| `Supervisor.dfy` | restart callers, monitor thread and exit handler, interleaved freely over a shared child slot, restart flag and shutdown flag |
| `SupervisorExit.dfy` | what can still happen after the exit handler, with restarts that wait for the flag and switches that roll back |
| `Sidecar.dfy` | port scan, configuration, restart, cluster switch and monitor restart of the sidecar, one operation at a time |
| `Shell.dfy` | the shell quoter, against a tokenizer for sections 2.2.2, 2.2.3 and 2.3 of the Shell Command Language of POSIX.1-2017 |
| `PortForwards.dfy`, `PortForwardRaces.dfy` | the port-forward registry: records, process handles, id counter, saved file; and its handlers as interleaved steps |
| `HelmReleases.dfy`, `HelmWatch.dfy` | the incremental release index, the batch aggregation, and the watch that feeds one and streams to a client |
| `HelmCharts.dfy` | the stale-while-revalidate chart cache and its canonical keys |
| `ResourceMap.dfy` | the graph that the resource map is meant to be, as a function of the cluster and the namespace filter |
| `ResourceMapFilter.dfy`, `ResourceMapTypes.dfy`, `ResourceMapServices.dfy`, `ResourceMapReferences.dfy`, `ResourceMapNodes.dfy`, `ResourceMapMeaning.dfy`, `ResourceMapBuilder.dfy` | filter pushdown, the types of edges, the edges of services, what pods refer to, uniqueness of node ids, which edges and nodes there are in terms of the resources alone, and the handler's loops that build the graph |
| `BackupScheduler.dfy` | backup schedules and runs: cron polling with catch-up, manual runs, edits, the last 500 runs, one operation at a time |
| `BackupTasks.dfy`, `BackupHistory.dfy`, `BackupPaths.dfy` | the same handlers as tasks over one config map that read, compute, fetch and write it back while others do too; what holds in their histories; and what goes wrong in some |
| `WatchTable.dfy` | the watcher tasks of one gRPC connection |
| `IngressAddresses.dfy` | ordering of ingress addresses and the fallback to the addresses of the class |
| `Quantities.dfy`, `QuantityMeaning.dfy`, `Numbers.dfy` | printing and parsing of memory and CPU amounts, and which texts stand for which amounts |
| `Strings.dfy`, `Sorting.dfy`, `Wrappers.dfy` | what the code uses of Rust's strings, stable sort and dedup |

Kubernetes, HTTP, processes and the operating system are replaced by parameters and free choices.
Objects whose methods update fields are classes; each method is tied to a function of the old state,
and the properties over whole runs are lemmas about those functions.

Conditions that the theorems turn on:

- The sidecar never has a second live child exactly if the monitor never starts a binary over a
  running child that the slot or the exit handler leads to (`OneChildExactly`); it could find out by
  looking at the slot again. A quiet back-off window is enough. `TwoChildren` is a run of the code
  as written in which it does not hold.
- After exit nothing runs again, unless somebody asks for a restart anew, exactly under the condition
  of `RunsNothingExactly`. `ChildAfterExit`, `MonitorAfterExit` and `RollbackAfterExit` are runs in
  which a child survives: a restart that was under way, the monitor past its check, and the rollback
  of a switch that had failed before.
- The backup handlers write the whole config map back without looking at its version
  (`backend/src/handlers/backup.rs:497-528`). So a scheduled run can follow an earlier one without a
  tick (`EditLosesAMark`), and a run can be missing from the stored history
  (`OverlappingEndsLoseARun`). Scheduled runs have a tick between them if no write takes the schedules
  from an older list (`ScheduledRunsAreSeparated`), and exactly if the worker begins no run that is not
  due by its own test from the last one (`RunsAreSeparatedExactly`). The stored history is complete
  exactly if every write is computed from the runs stored at that moment (`RunsAreKeptExactly`).
- Even without older lists a run by hand can be repeated (`RunRepeatsWithoutTick`), but only one that
  was not stored when the poll loaded its list (`OnlyManualRunsOvertake`).
- Handlers of port forwards lock two maps one after the other. Records and handles agree if no two
  handlers work on the same forward at once (`ExclusiveHandlersEndWell`); the exact conditions are
  those of `IdleForwardsAreConsistentExactly` and `NothingLeaksExactly`.
- Restoring port forwards comes before the handlers. The backend starts it about half a second
  after boot (`backend/src/main.rs:486-492`); `Restore` says exactly what goes wrong if a forward
  was created before.
- The helm index agrees with the live secrets exactly as long as updates keep their labels. The
  client's view loses agreement exactly at events that drop a release without a message, and
  `Event::Restarted` can be one.
- Namespaces contain no slash (they are DNS labels), and objects of one kind have different names
  within a namespace.
- `cron` is any pair of a tick predicate and a function that gives the first tick after a time.

The backup module is in the repository but `backend/src/handlers/mod.rs:1-10` does not declare it;
its source is taken as the specification.

## Model

| member | source | states |
|---|---|---|
| Supervisor.FlagIsExclusive | frontend/src-tauri/src/main.rs:793-822 | in every interleaving of callers, monitor and exit handler, the restart flag is up exactly while one actor is between begin and end |
| Supervisor.RestartStops | frontend/src-tauri/src/main.rs:1265-1300 | a restart that nothing falls into wins the flag and stops the child of the slot, if there is one |
| Supervisor.RestartGivesUp | frontend/src-tauri/src/main.rs:806-816 | a caller that waits too long gives up; a cluster switch waits once more, to go back |
| Supervisor.RestartSpawns | frontend/src-tauri/src/main.rs:906-1057 | it spawns a binary and waits for its child |
| Supervisor.RestartStores | frontend/src-tauri/src/main.rs:1265-1369 | a child that is ready and verified gets into the slot, and the flag goes down |
| Supervisor.RestartDiscards | frontend/src-tauri/src/main.rs:1265-1604 | any other is stopped and the flag goes down; a cluster switch then waits for the flag again, to go back |
| Supervisor.MonitorLooks | frontend/src-tauri/src/main.rs:1375-1428 | the monitor sleeps again at a running child, and empties the slot of one that is gone |
| Supervisor.MonitorSpawns | frontend/src-tauri/src/main.rs:1429-1470 | after the back-off it spawns a binary with the flag up, unless somebody restarts |
| Supervisor.MonitorStores | frontend/src-tauri/src/main.rs:1470-1489 | and puts its child into the slot and lowers the flag |
| Supervisor.ExitAlone | frontend/src-tauri/src/main.rs:3157-3168 | the exit handler sets the shutdown flag and stops the child of the slot, if there is one |
| Supervisor.AtMostOneChild | frontend/src-tauri/src/main.rs:1265-1369 | if the monitor never starts a binary over a running child of the slot or the exit handler, at most one child lives in every state of every run, and with the flag down it is one of those |
| Supervisor.OneChildExactly | frontend/src-tauri/src/main.rs:1265-1489 | for every run, at most one child lives in all its states if and only if that condition holds of all its steps |
| Supervisor.QuietRunIsClear | frontend/src-tauri/src/main.rs:1429-1434 | a run in which no restart completes inside the monitor's back-off window meets the condition |
| Supervisor.QuietRunHasOneChild | frontend/src-tauri/src/main.rs:1375-1489 | so in such a run at most one child is ever alive |
| Supervisor.TwoChildren | frontend/src-tauri/src/main.rs:1375-1489 | a run of sixteen steps that ends with two live children, the flag down and only one of them in the slot |
| SupervisorExit.ExitLeavesNothingRunning | frontend/src-tauri/src/main.rs:3157-3168 | at the moment the exit handler has finished, with no restart under way, no child is alive and the shutdown flag is set |
| SupervisorExit.StartsNothingExactly | frontend/src-tauri/src/main.rs:807-1369 | from a reachable state with the shutdown flag up, no continuation in which nobody asks for a restart anew starts a child, if and only if nobody waits for the flag, no cluster switch can still fail, every restart under way is past its spawn, and the monitor sleeps, has stopped, or has its child already |
| SupervisorExit.RunsNothingExactly | frontend/src-tauri/src/main.rs:1265-1489 | and no child is alive in any state of any such continuation if and only if, moreover, none is alive now |
| SupervisorExit.ExitIsFinalExactly | frontend/src-tauri/src/main.rs:3157-3168 | when the exit handler finishes with no restart under way, it is final if and only if nobody waits for the flag and the monitor sleeps or has stopped |
| SupervisorExit.RequestAfterExit | frontend/src-tauri/src/main.rs:793-816 | whoever asks for a restart, at any time, gets in and can start a child, because callers never read the shutdown flag |
| SupervisorExit.ChildAfterExit | frontend/src-tauri/src/main.rs:3157-3168 | a run of ten steps in which a restart that is under way at exit stores its child after the handler has emptied the slot |
| SupervisorExit.MonitorAfterExit | frontend/src-tauri/src/main.rs:1375-1489 | a run of eleven steps without any restart request: the exit handler finishes with nothing running and the monitor, past its check of the flag, starts a child |
| SupervisorExit.RollbackAfterExit | frontend/src-tauri/src/main.rs:1577-1591 | a run of seventeen steps: a switch fails before exit, the handler finishes with nothing running, no restart under way and the monitor asleep, and the rollback of the switch starts a child |
| Sidecar.FindAvailablePort | frontend/src-tauri/src/main.rs:824-846 | the result is the free port of the window that comes first: the preferred one, then upwards by 200, then downwards to positive ports; `None` iff the window has none |
| Sidecar.BackendState.EnsureSidecarPortAvailable | frontend/src-tauri/src/main.rs:848-871 | only the port changes; a free default port is taken, else the first free port of the scan, and it fails iff there is none |
| Sidecar.BackendState.SpawnBackend | frontend/src-tauri/src/main.rs:906-1057 | a started child listens on the configured port, and on the preferred gRPC port when nobody else holds ports |
| Sidecar.BackendState.RestartBackendSidecar | frontend/src-tauri/src/main.rs:1265-1369 | the flag is down again in every case, only the port of the configuration may change and a change is saved, and success means the slot holds a child on the configured port |
| Sidecar.BackendState.SetSidecarConfig | frontend/src-tauri/src/main.rs:1523-1604 | a switch is transactional: success leaves the validated request, failure the previous configuration, both in memory and on disk and up to the port; on success each of binary, path and context is the environment's if set and not blank and else the requested one, with no binary for a packaged application that names none, and the status shows the context in every case |
| Sidecar.ValidatedConfigIs | frontend/src-tauri/src/main.rs:110-155 | what validation makes of a request, field by field: each variable that is set and not blank wins over its own field and no other; a readable positive `PORT`, or `APP_PORT` when `PORT` is unset, wins over the port, and 0 means 15222 |
| Sidecar.ParsePortPrinted | frontend/src-tauri/src/main.rs:130-137 | a port variable is read if it is a number up to 65535, with or without a plus sign |
| Sidecar.BackendState.MonitorRestart | frontend/src-tauri/src/main.rs:1429-1489 | the monitor's restart changes only the port, saves the change, and what it leaves in the slot is on the configured port |
| Sidecar.BackendState.RunOperations | frontend/src-tauri/src/main.rs:824-1604 | in every sequence of restarts, switches and monitor restarts the configured port stays 15222 or 15223, if only the sidecar's child holds ports and switches ask for those |
| Shell.ReadShellQuote | frontend/src-tauri/src/main.rs:403-408 | a quoted value is read back literally in every unquoted position, whatever follows |
| Shell.ShellRoundTrip | frontend/src-tauri/src/main.rs:403-417 | the shell reads a built command as exactly the command and its arguments, for all strings |
| Shell.BuildShellCommandInjective | frontend/src-tauri/src/main.rs:410-417 | different commands or arguments give different command lines |
| Shell.OmniCommandRoundTrip | frontend/src-tauri/src/main.rs:2452-2458 | with the environment prefix the first word is the assignment of the literal URL and the command is unchanged |
| PortForwards.PersistenceRoundTrip | backend/src/handlers/portforward.rs:170-206 | restoring a saved file gives back the next id and a subset of the running forwards, all of them if every respawn succeeds, and saving again writes the same content |
| PortForwards.RestoredInv | backend/src/handlers/portforward.rs:277-317 | restored records run, carry their own key and stay below the restored counter, unless the largest 64-bit id is among them |
| PortForwards.RestoredExact | backend/src/handlers/portforward.rs:283-317 | an id is restored iff an item of that id came up, as the last such item, with its request and time of creation, running |
| PortForwards.NextIdIsAfterAnItem | backend/src/handlers/portforward.rs:299-321 | the restored counter is the saved one or follows the id of an item that came up |
| PortForwards.InvAfterRestore | backend/src/handlers/portforward.rs:283-321 | over any registry, a restore keeps the invariant iff it restores no largest id and sets the counter above every forward that was there |
| PortForwards.PortForwardState.Save | backend/src/handlers/portforward.rs:170-206 | the file then holds the cluster key, the next id and each running forward once |
| PortForwards.PortForwardState.Reconcile | backend/src/handlers/portforward.rs:208-252 | exited processes lose their handle, their forwards are paused, all else stays |
| PortForwards.PortForwardState.Create | backend/src/handlers/portforward.rs:395-469 | a new record under an id that no forward had, or nothing at all; the invariant survives iff the counter does not wrap around |
| PortForwards.PortForwardState.Stop | backend/src/handlers/portforward.rs:471-502 | the forward is paused, its handle is gone, the file agrees |
| PortForwards.PortForwardState.Delete | backend/src/handlers/portforward.rs:504-533 | forward and handle are gone, the file agrees |
| PortForwards.PortForwardState.Restart | backend/src/handlers/portforward.rs:535-617 | succeeds iff the forward exists, is paused and its process comes up; else nothing changes |
| PortForwards.PortForwardState.Restore | backend/src/handlers/portforward.rs:254-328 | a file of this cluster adds the respawned records and sets the counter; the invariant holds after it under an exact condition |
| PortForwards.PortForwardState.RunHandlers | backend/src/handlers/portforward.rs:374-617 | in every run of handlers and process exits, an id has a handle iff its forward runs, keys are the records' ids, and ids stay below the counter |
| PortForwardRaces.CreateAlone | backend/src/handlers/portforward.rs:395-469 | the steps of a creation, with nothing in between, store a running record under a new id and the handle of the process it spawned |
| PortForwardRaces.StopAlone | backend/src/handlers/portforward.rs:471-502 | those of a stop kill the process and pause the record |
| PortForwardRaces.DeleteAlone | backend/src/handlers/portforward.rs:504-533 | those of a deletion kill the process and remove the record |
| PortForwardRaces.RestartBegins | backend/src/handlers/portforward.rs:535-580 | a restart is refused iff there is no record or it runs; else it kills what the handle leads to |
| PortForwardRaces.RestartEnds | backend/src/handlers/portforward.rs:580-617 | and ends with the record as it was read, but running, and a new handle, or with neither |
| PortForwardRaces.ReconcileAlone | backend/src/handlers/portforward.rs:208-252 | reconciling drops exactly the handles of processes that are gone and pauses their running records |
| PortForwardRaces.IdleForwardsAreConsistentExactly | backend/src/handlers/portforward.rs:208-617 | in every interleaving, each forward that no handler works on has a handle exactly if it runs, in all states, if and only if the last step of every handler that is alone on its forward finds the other map as the handler left it |
| PortForwardRaces.ExclusiveHandlersEndWell | backend/src/handlers/portforward.rs:374-617 | with one handler at a time for each forward that is so, and a restart brings back no record that was deleted or changed since it was read |
| PortForwardRaces.NothingLeaksExactly | backend/src/handlers/portforward.rs:447-454 | no `kubectl` ever runs without a handle or a handler that holds it, if and only if no handle is inserted over one whose process still runs |
| PortForwardRaces.ExclusiveHandlersLeakNothing | backend/src/handlers/portforward.rs:374-617 | and with one handler at a time for each forward none does |
| PortForwardRaces.DeletedForwardRuns | backend/src/handlers/portforward.rs:447-528 | a run of six steps: a forward is deleted between the two inserts of its creation, and its `kubectl` runs on without a record |
| PortForwardRaces.RestartOutlivesDelete | backend/src/handlers/portforward.rs:535-614 | a run of seven steps: a paused forward is deleted while it is restarted, and comes back |
| HelmReleases.ReleasesOf | backend/src/handlers/helm.rs:361-367 | the releases of an index are its (name, namespace) pairs with their newest revision |
| HelmReleases.StoreRevision | backend/src/handlers/helm.rs:223-227 | storing a revision in the index changes the releases exactly as merging it does |
| HelmReleases.IndexEqualsBatch | backend/src/handlers/helm.rs:277-327 | for every list, duplicates included, the index and the batch aggregation have the same releases |
| HelmReleases.FilterCommutes | backend/src/handlers/helm.rs:277-299 | filtering secrets by namespace first is filtering the aggregated releases |
| HelmReleases.ListingUnique | backend/src/handlers/helm.rs:301-304 | the sorted listing does not depend on the order in which a hash map gives its values |
| HelmReleases.AggregateFromSecrets | backend/src/handlers/helm.rs:277-305 | the listing of the batch aggregation; in terms of the secrets: one item for each release that a secret in a wanted namespace shows, ordered by namespace and name, taken from the last of the secrets with its largest version number |
| HelmReleases.ItemIsShown | backend/src/handlers/helm.rs:229-275 | a secret gives an item iff it has owner "helm" and a name; name, status, namespace and revision are those of its labels and namespace, and a version that is missing or unreadable counts as 0 |
| HelmReleases.LabelledSecretShows | backend/src/handlers/helm.rs:229-275 | a secret labelled with any number of 64 bits as its version gives the item with exactly that revision, name, status and namespace |
| HelmReleases.RemovedIs | backend/src/handlers/helm.rs:339-359 | a deletion names the revision that the labels of the deleted secret have |
| HelmReleases.ListingMeans | backend/src/handlers/helm.rs:277-305 | every listing of the batch aggregation is the listing of the newest secrets |
| Numbers.ParseI64Printed | backend/src/handlers/helm.rs:244-247 | every number of 64 bits reads back as printed, with or without a plus sign, and no larger one is read |
| Numbers.ParseI64Refuses | backend/src/handlers/helm.rs:244-247 | text with anything but digits after an optional sign is no number |
| Numbers.LeadingZero | backend/src/handlers/helm.rs:244-247 | zeros in front of a number change nothing |
| HelmReleases.HelmReleaseAggregator.LoadInitial | backend/src/handlers/helm.rs:316-327 | replaces the index and returns the listing of the batch aggregation |
| HelmReleases.HelmReleaseAggregator.IngestSecret | backend/src/handlers/helm.rs:329-337 | stores one revision and returns the newest one of its release |
| HelmReleases.HelmReleaseAggregator.RemoveSecret | backend/src/handlers/helm.rs:339-359 | drops the revision the labels name and returns what is left of the release |
| HelmReleases.HelmReleaseAggregator.AggregateFor | backend/src/handlers/helm.rs:361-367 | the newest revision of a release, whatever the order of iteration |
| HelmReleases.HelmReleaseAggregator.AllReleases | backend/src/handlers/helm.rs:369-381 | the listing of all releases, whatever the order of iteration |
| HelmWatch.NextWellKeyed | backend/src/handlers/helm.rs:316-359 | every event leaves each revision stored under its own name, namespace and number |
| HelmWatch.StaysInStepExactly | backend/src/handlers/helm.rs:316-359 | one change of the live secrets keeps the index in agreement with them iff it keeps the labels |
| HelmWatch.IncrementalEqualsBatch | backend/src/handlers/helm.rs:277-359 | at every point of every such watch, the index's releases are the batch aggregation of the live secrets in any order |
| HelmWatch.ViewStep | backend/src/ws_handler.rs:1762-1825 | each event leaves the client's view equal to the index plus a computed set of stale releases |
| HelmWatch.ViewStaysEqualExactly | backend/src/ws_handler.rs:1762-1825 | from a faithful view one event leaves it faithful iff it drops no release without a message |
| HelmWatch.ViewTracksIndex | backend/src/ws_handler.rs:1724-1825 | after every event of every run the view contains the index's releases and agrees on each; it equals them iff nothing is stale |
| HelmWatch.ViewEqualsIndex | backend/src/ws_handler.rs:1724-1825 | while no event drops a release silently, the view is the index |
| HelmWatch.ClientSeesBatch | backend/src/ws_handler.rs:1724-1825 | so the client of a label-keeping watch shows the batch aggregation of the live secrets |
| HelmWatch.HelmWatcher.Start | backend/src/ws_handler.rs:1728-1741 | the first list is indexed and sent once, as ADDED, in order |
| HelmWatch.HelmWatcher.Handle | backend/src/ws_handler.rs:1762-1825 | an event moves the index as specified and appends exactly the messages specified for it |
| HelmWatch.HelmWatcher.Run | backend/src/ws_handler.rs:1724-1825 | start and loop over any events are a watch as the lemmas have it, and folding all that was sent gives its last view |
| HelmCharts.ParseResult | backend/src/handlers/helm.rs:115-130 | parsing yields different, non-empty, trimmed URLs without commas |
| HelmCharts.KeyRoundTrip | backend/src/handlers/helm.rs:193-197 | parsing a key gives back the sorted list it was made from |
| HelmCharts.KeyIsCanonical | backend/src/handlers/helm.rs:115-197 | two URL strings have the same key iff they parse to the same set |
| HelmCharts.CacheStep | backend/src/handlers/helm.rs:867-1167 | every step keeps single flight (a flag is up iff exactly one refresh of its key is outstanding) and provenance (stored data was fetched from the key's URLs) |
| HelmCharts.CacheRun | backend/src/handlers/helm.rs:867-899 | both hold in every interleaving of requests, refresh completions and the clock |
| HelmCharts.ResponsesAreHonest | backend/src/handlers/helm.rs:867-899 | a response marked final has data of exactly the requested URLs no older than 30 s; one marked refreshing leaves a refresh outstanding; data of other URLs is never served |
| HelmCharts.AnswersAreTheLastFetched | backend/src/handlers/helm.rs:867-1167 | in every interleaving an answer has the charts and warnings of the last completed refresh of its key, or none before the first; the read section answers iff that was at most 30 s ago or a refresh is under way, the write section always |
| HelmCharts.WriteStartsRefresh | backend/src/handlers/helm.rs:879-899 | the write section starts a refresh of exactly the requested URLs unless one of that key is under way |
| HelmCharts.TimePasses | backend/src/handlers/helm.rs:867-877 | a run can be continued by any lapse of time, which changes the clock alone, and no other step moves the clock |
| HelmCharts.HelmChartsCache.ReadEntry | backend/src/handlers/helm.rs:868-877 | the read section answers as the cache machine does and changes nothing |
| HelmCharts.HelmChartsCache.MarkRefreshing | backend/src/handlers/helm.rs:879-899 | the write section is the machine's write step |
| HelmCharts.HelmChartsCache.StoreRefresh | backend/src/handlers/helm.rs:1154-1167 | storing a refresh is the machine's completion step: fetched charts and warnings become those of the entry of its key, with the time, the flag goes down and the refresh is over |
| ResourceMapFilter.FilterAdmits | backend/src/handlers/resource_map.rs:108-120 | a non-empty parameter admits exactly the non-blank names between its commas, an absent or empty one admits all |
| ResourceMapFilter.FilteredEdges | backend/src/handlers/resource_map.rs:133-784 | the finished edges under a filter are the unfiltered ones whose source id is in a wanted namespace |
| ResourceMapFilter.FilterIsRestriction | backend/src/handlers/resource_map.rs:108-784 | the map built with a filter is the restriction of the whole map: nodes by namespace, edges by the namespace of their source, a volume iff a kept edge leads to it |
| ResourceMapTypes.FinalEdgesExact | backend/src/handlers/resource_map.rs:782-784 | the finished edges are exactly the pushed ones, type included: deduplicating by source and target loses nothing, because the kinds of the two ends determine the type |
| ResourceMapTypes.FinalEdgesKeepPairs | backend/src/handlers/resource_map.rs:782-784 | for any list, sorting and deduplicating invent no edge and lose no pair of source and target |
| ResourceMapServices.FinalEdgesStrict | backend/src/handlers/resource_map.rs:782-784 | the finished edges are strictly increasing in (source, target) |
| ResourceMapServices.RsToDepExact | backend/src/handlers/resource_map.rs:502-518 | the ReplicaSet table holds a Deployment for a key iff a search of all ReplicaSets finds it |
| ResourceMapServices.ControllerExact | backend/src/handlers/resource_map.rs:520-551 | the controller computed for a pod is the one found by following owners without tables |
| ResourceMapServices.ServiceEdgesAreSelects | backend/src/handlers/resource_map.rs:583-615 | every finished edge that leaves a service is a "selects" edge |
| ResourceMapServices.ServiceSelectsControllers | backend/src/handlers/resource_map.rs:502-615 | a service in scope has finished edges to exactly the top-level controllers of the pods it selects |
| ResourceMapNodes.NodeIdsAreUnique | backend/src/handlers/resource_map.rs:133-780 | no two nodes of the map have the same id, over all fifteen kinds, if names are different within a kind and namespace |
| ResourceMapReferences.ReferencedSasExact | backend/src/handlers/resource_map.rs:176-186 | the recorded `ns/name` strings are exactly the service accounts that a pod in scope runs under, "default" excepted |
| ResourceMapReferences.ReferencedPvcsExact | backend/src/handlers/resource_map.rs:188-222 | and exactly the claims that a pod in scope mounts by a volume that is not the root CA's |
| ResourceMapReferences.PodReferencesExact | backend/src/handlers/resource_map.rs:174-252 | what a pod in scope pushes to objects of its namespace are exactly its references, each with its edge type |
| ResourceMapReferences.PodOwnersExact | backend/src/handlers/resource_map.rs:156-172 | and the "owns" edges to it come from exactly its owners of a known kind |
| ResourceMapReferences.PodsAreJoined | backend/src/handlers/resource_map.rs:133-784 | no reference and no ownership of a pod in scope is missing from the finished map, each with its edge type |
| ResourceMapReferences.PodLeadsToReferences | backend/src/handlers/resource_map.rs:133-784 | in the finished map a pod in scope leads to exactly what it refers to in its namespace, by edges of the type that says how |
| ResourceMapReferences.OnlyClaimsLeadToVolumes | backend/src/handlers/resource_map.rs:719-784 | a finished edge leads to a volume if and only if a claim in scope, mounted by a pod of its namespace, is bound to it |
| ResourceMapMeaning.MapEdgesMean | backend/src/handlers/resource_map.rs:108-784 | an edge is in the map iff one of the seven kinds of resources asks for it, stated over the resources in scope: what pods refer to and who owns them, the Deployment or CronJob that owns a ReplicaSet not scaled to zero or a Job, the workload an autoscaler scales, the controllers of the pods a service selects, the services of an ingress, the volume of a mounted claim |
| ResourceMapMeaning.MapNodesMean | backend/src/handlers/resource_map.rs:108-784 | a node is in the map iff a resource in scope stands for it, with its id, kind, name, namespace and status text: without retired ReplicaSets, services without selector, skipped secrets and config maps, and accounts, claims and volumes that nothing refers to |
| ResourceMapBuilder.Builder.PodPass | backend/src/handlers/resource_map.rs:133-254 | the pod loop pushes the specified nodes and edges and records the referenced service accounts and claims |
| ResourceMapBuilder.Builder.BuildRsToDep | backend/src/handlers/resource_map.rs:502-518 | the insert loop builds the specified table |
| ResourceMapBuilder.Builder.FindController | backend/src/handlers/resource_map.rs:527-548 | the search stops at the first owner of a known kind |
| ResourceMapBuilder.Builder.PushSelected | backend/src/handlers/resource_map.rs:583-615 | with its set of seen controllers, the loop pushes one edge for each, in pod order |
| ResourceMapBuilder.Builder.PvcPass | backend/src/handlers/resource_map.rs:719-758 | the claim loop pushes the specified nodes and edges and records the bound volumes |
| ResourceMapBuilder.GetResourceMap | backend/src/handlers/resource_map.rs:108-787 | the fifteen passes, the tables, the sort and the dedup together build the specified map, whose edges and nodes are those that the resources ask for |
| BackupScheduler.NormalizeIsStable | backend/src/handlers/backup.rs:245-257 | a normalized cron expression is normal already, so what is stored is accepted again at every poll |
| BackupScheduler.NormalizeWords | backend/src/handlers/backup.rs:245-257 | five words get a zero for the seconds in front, six or seven stay as they are, any other number is refused |
| BackupScheduler.DueExactly | backend/src/handlers/backup.rs:1972-2017 | a stored schedule is due iff it is not paused and its cron ticked after the baseline and not after the check |
| BackupScheduler.PollExact | backend/src/handlers/backup.rs:1972-2017 | a poll that nothing else falls into marks each due schedule once and appends its run, however many ticks it missed and whatever the uploads do, and leaves the others alone |
| BackupScheduler.PollRunsOnce | backend/src/handlers/backup.rs:1972-2017 | exactly one of the runs it appends is of a given due schedule, and none of one that is not due |
| BackupScheduler.PollCatchesUp | backend/src/handlers/backup.rs:2000-2017 | after it no schedule in service has an unserved tick behind its check |
| BackupTasks.HistoryKeepsInv | backend/src/handlers/backup.rs:484-581 | in every history, whatever is read or written in between: all lists that are stored, loaded, computed or fetched have different names, runnable crons and no baseline in the future; a run is appended once, after its mark was written; a poll gives each schedule one turn |
| BackupTasks.RemovesTheNamed | backend/src/handlers/backup.rs:2521-2551 | deleting a schedule stores the others in their order; a blank name is refused |
| BackupTasks.DropsTheNamed | backend/src/handlers/backup.rs:1695-1771 | deleting runs stores exactly those that no name asks for, up to whitespace, in their order; blank names ask for nothing |
| BackupHistory.RunsAreSeparatedExactly | backend/src/handlers/backup.rs:1892-2017 | in every history there was a tick of the cron between any run of a schedule and a later scheduled one, if and only if the worker never begins a run that is not due by its own test, counted from the last run of the schedule; and likewise for scheduled runs among themselves |
| BackupHistory.ScheduledRunsAreSeparated | backend/src/handlers/backup.rs:497-528 | in a history whose writes never take the schedules from an older list, two scheduled runs of a schedule have a tick between them, whatever else falls in between |
| BackupHistory.EarlyRunLostAMark | backend/src/handlers/backup.rs:1893-1913 | in every history, a scheduled run that is early was decided by a list that had lost the mark of an earlier scheduled run, stored before |
| BackupHistory.OnlyManualRunsOvertake | backend/src/handlers/backup.rs:1973-1974 | without older lists, a run that begins early counts from a run by hand that was not stored when the poll loaded its list |
| BackupHistory.TurnStartsExactly | backend/src/handlers/backup.rs:1975-2013 | in every history a turn starts a run exactly if the loaded schedule is not paused and its cron ticked after the loaded baseline and not after the check |
| BackupHistory.FirstPollPastTick | backend/src/handlers/backup.rs:1893-1913 | when that run begins, exactly one run of this schedule is begun, the first in this poll, unless the schedule is gone or paused by then |
| BackupHistory.MarkedBeforeUpload | backend/src/handlers/backup.rs:1910-1922 | in every history, before an upload ends, well or badly, a write had put the time of its run into the stored schedule |
| BackupHistory.RunsAreKeptExactly | backend/src/handlers/backup.rs:530-581 | in every history the stored runs are at all times what the appended and the deleted ones ask for, if and only if every write is computed from the runs stored at that moment |
| BackupHistory.StoredRunsAreTheLast | backend/src/handlers/backup.rs:1942-1963 | so if every write is, and none is deleted by name, the last 500 of all runs are stored |
| BackupHistory.AppendedRunsWereBegun | backend/src/handlers/backup.rs:1905-1956 | an appended run is the record of one that was begun, appended once and after its mark was written |
| BackupHistory.AppendedRunsReport | backend/src/handlers/backup.rs:1915-1956 | in every history, an appended run is completed iff its upload succeeded, with the key, size and summary of the upload or none; its schedule, namespaces, time and whether it was by hand are those of the run that began |
| BackupHistory.RunBegins | backend/src/handlers/backup.rs:1893-1913 | a run begins with the schedule as it was read, and puts its time into that schedule and no other; it is refused iff there is none of that name or it is paused |
| BackupPaths.UndisturbedTask | backend/src/handlers/backup.rs:484-581 | a task that nothing falls into stores what it computes from the stored map, whichever task it is |
| BackupPaths.UndisturbedTurn | backend/src/handlers/backup.rs:1892-1970 | a turn, its upload and the end of it, with nothing in between, are the run that the class method makes |
| BackupPaths.OverlappingEndsLoseARun | backend/src/handlers/backup.rs:1942-1963 | from every state in which two uploads have ended, both runs can be appended and only one be stored |
| BackupPaths.RunRepeatsWithoutTick | backend/src/handlers/backup.rs:1972-2017 | a history of nine steps without older lists: a run by hand after the load is repeated by the poll without a tick |
| BackupPaths.EditLosesAMark | backend/src/handlers/backup.rs:2479-2507 | a history of twenty steps: an edit of another schedule, computed before a run and written after it, takes back the mark of the run, and the next poll runs the schedule again without a tick |
| BackupScheduler.BackupStore.TriggerScheduleRun | backend/src/handlers/backup.rs:1892-1970 | the class method is the specified run; in terms of the store: refused for unknown or paused names, else the schedule is marked with the time and a run appended that is completed iff the upload succeeded, with the upload's key, size and summary or none; the last 500 runs stay |
| BackupScheduler.BackupStore.CreateBackupSchedule | backend/src/handlers/backup.rs:2479-2507 | a valid request replaces the schedule of that name or adds one, with the normalized cron, and keeps the time of its last run; an invalid one changes nothing |
| BackupScheduler.BackupStore.DeleteBackupSchedule | backend/src/handlers/backup.rs:2521-2551 | exactly the schedules of other names stay, in their order; a blank name changes nothing |
| BackupScheduler.BackupStore.RunDueSchedules | backend/src/handlers/backup.rs:1972-2017 | the loop over the loaded schedules is the specified poll |
| WatchTable.WantedIsLastAction | backend/src/grpc_service.rs:67-144 | a subscription stands iff it is the last action on its type |
| WatchTable.Connection.HandleEvent | backend/src/grpc_service.rs:64-158 | after each event the table has one watcher for each standing subscription, in its newest namespace, and owns every live task |
| WatchTable.Connection.Listen | backend/src/grpc_service.rs:61-164 | so it is for every sequence of requests, up to the first stream error |
| WatchTable.Connection.Serve | backend/src/grpc_service.rs:60-172 | each action before the first stream error got one reply, in order: its type with subscribed true or false, or the timestamp of the ping; no task is alive after the stream ends |
| IngressAddresses.SortAddressesExact | backend/src/handlers/network.rs:16-26 | sorting and deduplicating gives the same addresses in strict order, IPv4 first |
| IngressAddresses.Ipv4First | backend/src/handlers/network.rs:16-26 | an address with points and no colons comes before any other, and otherwise the order is that of the characters |
| IngressAddresses.SortAddressesUnique | backend/src/handlers/network.rs:16-26 | the list depends only on which addresses there are, not on their order or repetition |
| IngressAddresses.FormatReadsBack | backend/src/handlers/network.rs:262-270 | a dash is shown iff there is no real address; else the shown string reads back as the sorted addresses |
| IngressAddresses.ClassAddressesExact | backend/src/handlers/network.rs:289-324 | the addresses of a class are those of its controller and of siblings that show some, each once, in order |
| IngressAddresses.FallbackExact | backend/src/handlers/network.rs:289-338 | only dashes are replaced, by a string that reads back as the class's addresses; a dash stays iff there is none or only a literal dash |
| IngressAddresses.FallbackIsIdempotent | backend/src/handlers/network.rs:289-338 | a second fallback changes nothing, for all items |
| IngressAddresses.ApplyFallback | backend/src/handlers/network.rs:289-338 | the two phases over the array, with the map of classes in between, are the specified fallback |
| Quantities.FormatBinaryBytes | backend/src/utils.rs:745-760 | the text is a number and the unit that the amount calls for; from 10 on the nearest integer, below the nearest tenth without a last zero, negative amounts too; it parses back iff the amount is at least 1024, and then to within five per cent |
| QuantityMeaning.MemoryReadsExactly | backend/src/utils.rs:700-730 | a text reads as an amount of memory iff, up to outer whitespace, it is a number without sign and one of the twelve units or none, and as their product |
| QuantityMeaning.CpuReadsExactly | backend/src/utils.rs:675-698 | a text reads as an amount of CPU iff it is a number, with a sign or not, followed by m, n, u or nothing, and as that many millicores |
| QuantityMeaning.NumberReads | backend/src/utils.rs:682-697 | a text reads as a number iff it is digits with at most one point after an optional sign |
| QuantityMeaning.MillicoresUnit | backend/src/utils.rs:732-743 | less than a core is shown in millicores, from one core on in cores |
| QuantityMeaning.CoresText | backend/src/utils.rs:737-742 | a whole number of cores is shown without a point and a fraction without a zero at its end |
| Quantities.MillicoresRoundTrip | backend/src/utils.rs:732-743 | printed millicores always parse back, and to within 1/2 below one core and 5 above, iff the printed integer fits 64 bits |

## Left out

- Kubernetes, S3, Helm, Artifact Hub, cloud and omnictl calls: their answers are parameters or free choices.
- Mutex poisoning, panics, failing writes of files and config maps, and errors of `try_wait`: assumed absent; reads of the config map that fail are modelled.
- PortForwards.PortForwardState.RunHandlers: is about handlers one after the other; `PortForwardRaces` interleaves them, without the saved file and the wrap-around of the counter.
- Supervisor: ports and configuration are not part of the interleaved model, so the monitor's copy of the configuration racing with a cluster switch is not covered; `Sidecar` covers them one operation at a time.
- SupervisorExit.ExitLeavesNothingRunning: is about one moment; `RunsNothingExactly` is about all later ones.
- Sidecar: time-outs are free choices of a number of polls; the candidate binaries and their environment are a count.
- Shell: characters that would start an expansion outside quotes make the modelled tokenizer give up; a built command never leaves them unquoted.
- Shell: a NUL character is an ordinary character of the model.
- PortForwards: the fields of a record other than its id and status are carried along; commands, ports and readiness probes of `kubectl` are one boolean.
- HelmReleases: decoded chart fields are part of a secret; base64, gzip and JSON are not modelled.
- HelmWatch: reconnects with back-off, errors of the stream and a closed client channel end the modelled run; the view is keyed by the pair of namespace and name.
- HelmCharts: fetching charts and the branch without configured URLs are not modelled; a write section may also come without its read section, which only adds behaviours.
- ResourceMap: the sets of referenced config maps and secrets, which the source fills and never reads, are left out; containers are flattened to their `envFrom` lists and ingress rules to their service backends.
- ResourceMap: lower-casing of kinds and phases is for ASCII letters.
- ResourceMapBuilder: passes that push one node or nothing for a resource share two generic loops.
- BackupScheduler: time zones, which the source stores and does not use, and the summary by kind are left out; a stored time always parses.
- BackupTasks: a write is one step that replaces all entries of the config map; the settings themselves and the objects deleted along with a run are not modelled.
- WatchTable: the watch tasks' own messages and the set of connections.
- IngressAddresses: how the addresses of controllers are collected from services and classes.
- Quantities: `f64` is a real number, so rounding of the floating-point operations themselves is not modelled, and exponents, `inf` and `nan` do not parse.
- CRUD handlers, exec and log sessions, log tails, the other websocket watchers, snapshot restore, kubeconfig discovery and the React front end: easier than what is here, or I/O.
