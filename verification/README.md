# Publishing controller: a verified model

The controller publishes a game update to client stations. It snapshots a dataset on TrueNAS, clones it once per
station, switches each station's iSCSI extent to its clone and reads the result back. Around that run it keeps a
registry of clones, a job pipeline with a transactional outbox, a registry of stations, agents and one-time tokens, a
command channel to Windows agents, and an authenticated JSON-RPC transport.

The model follows the program. Where the program changes fields, rows or remote state step by step there is a class
whose methods do the same, each proved to do what a specification function says; the theorems are lemmas about those
functions, over every run.

| files | part of the program |
|---|---|
| `Text`, `Naming` | string operations, clone and snapshot names, the write adapter's validators |
| `PublishJobs`, `Storage`, `PublishRun`, `PublishWorkflow` | job statuses, storage and its faults, the run as a function and as an object |
| `PublishSafety`, `PublishResults`, `PublishVerified`, `PublishConvergence`, `PublishRuns` | frame, soundness, exactness of VERIFIED and crash-and-rerun convergence of the run, and runs that surprise |
| `PublishFaults`, `PublishOutcomes`, `LiveMapping` | what each station and run reports for which faults, and how names lead to a device |
| `Artifacts`, `ArtifactRecords`, `CloneNames`, `Reconcile`, `PublishReconcile` | the clone registry, what a run writes into it, its names, reconciliation with live extents |
| `Cleanup`, `CleanupMarks`, `CleanupQueue`, `CleanupDecisions`, `CleanupLive`, `CleanupRuns` | cleanup passes and their marks, the cleanup gate and its answers, and what they do to clones in use |
| `Pipeline`, `PipelineSafety`, `PipelineEffects`, `PipelineReports`, `PublishDelivery` | create, prepare, dispatch, persist, every interleaving of them, and a delivery from message to stored result |
| `Outbox`, `OutboxProgress`, `OutboxSafety` | outbox rows, one relay's poll, any number of relays |
| `AgentCommands`, `AgentLeases` | command leases on the server |
| `AgentProtocol`, `AgentRuntime`, `AgentSafety`, `AgentProgress`, `AgentDelivery` | the agent's loops, and server, network and agents together |
| `Lifecycle`, `StationRegistry`, `RegistrySafety`, `RegistryEffects` | stations, agents, tokens, their invariants, and what each use case leaves |
| `JsonRpc`, `RpcTransport`, `RpcSafety`, `RpcProgress` | the two-layer transport; responses are correlated as section 5 of the JSON-RPC 2.0 specification requires |

How the world is modelled:

- Storage is explicit state. Every client call may return, raise, or be the point where the process dies, and a write
  that did not return may or may not have been applied (`Storage.Fault`). Nothing else changes storage during a run.
- A transaction is a copy of the database that is committed or dropped as a whole.
- Hypotheses are stated in the lemmas that need them: distinct extents per run, job ids that differ in the digits a
  clone name keeps, serial deliveries of one job, marks before the lease ends, a server clock that does not run
  backwards, secrets that never repeat.
- Answers of a network are functions of the position in the event log, so a lemma for every such function covers every
  pattern of losses, delays and faults.

Behaviour a reader may not expect, kept as the code has it and stated exactly:

- The failure mark of a cleanup may hit a row that became current meanwhile (`Artifacts.FailedMarkCoherence`, with the
  run `CleanupRuns.LateFailureMark`). Only the invariants that need it assume otherwise; the gate and the
  reconciliation are proved for such tables too.
- Two rows naming the clone in use shield each other from the cleanup gate (`CleanupQueue.DuplicatesSlipThrough`). That
  takes two jobs whose ids share 12 hex digits (`CleanupRuns.TwinClonesSlipThrough`).
- A periodic pass looks at single rows. It deletes a clone that another station's current row names
  (`CleanupRuns.SharedCloneIsDeleted`) and one that an extent still uses after a failed publish
  (`CleanupRuns.LiveCloneIsDeleted`).
- Stations that share an extent but not a clone are all reported as verified (`PublishConvergence.SharedExtentOverwrites`,
  `PublishRuns.SharedExtentRun`).
- A clone whose call raises although it was applied is never recorded, so no cleanup pass will find it
  (`PublishOutcomes.ForgottenCloneExactly`).
- A second delivery of a job may turn COMPLETED into FAILED (`PublishRuns.LateDeliveryOverwrites`).
- A relay that outlives its lease can always make its event be sent twice (`OutboxSafety.LateRelaySendsTwice`).
- The comment of `ApiKeyJsonRpcTransport` promises that no request runs on a recreated, unauthenticated connection; that
  holds exactly while the transport below it does not retry by itself (`RpcSafety.AuthenticatedExactly`), as both
  builders configure it.

## Model

| member | source | states |
|---|---|---|
| Naming.SlugIsSafe | application/truenas_publish.py:280-282 | for every display name the slug has 1 to 48 characters of the safe alphabet and starts with a letter or digit |
| Naming.SlugFixedPoint | application/truenas_publish.py:280-282 | a name is its own slug exactly when it is already short, clean and free of outer dashes |
| Naming.DestinationInjective | application/truenas_publish.py:268-269 | two stations of a job share a clone exactly when their slugs coincide |
| Naming.DistinctNamesMayShareAClone | application/truenas_publish.py:268-282 | distinct display names can give one clone: a concrete pair |
| Naming.SlugIgnoresRuns | application/truenas_publish.py:280-282 | a run of foreign characters is worth one: shortening it to any one foreign character leaves the slug as it is, for every name |
| Naming.DestinationAccepted | truenas_adapter/write.py:81-83 | the clone's name passes the dataset check exactly when the source does, up to a ".." in the source's last component; it strictly extends the source |
| Naming.SuffixedDatasetValid | truenas_adapter/write.py:11-83 | which sources stay valid dataset names under a dashed suffix |
| Naming.DeviceAccepted | truenas_adapter/write.py:51-56 | the extent device passes the zvol check exactly when the dataset has no ".." component, and stripping the prefixes gives the dataset back |
| Naming.SnapshotAccepted | truenas_adapter/write.py:86-96 | "source@snapshot" partitions back into source and name exactly when the source holds no "@", and is accepted for every valid source |
| Naming.PlanAccepted | application/truenas_publish.py:263-277 | every name a plan sends passes the write adapter, for every display name and valid source |
| Text.SplitConcat | truenas_adapter/write.py:82 | splitting a concatenation joins the last and first pieces and leaves the others |
| Text.PartitionConcat | truenas_adapter/write.py:92 | partition recovers the two halves exactly when the first holds no separator |
| PublishJobs.RankAlong | domain/publish.py:41-57 | every legal transition raises the rank, so paths are bounded |
| PublishJobs.ReachAntisymmetric | domain/publish.py:41-84 | the transition table has no cycle and terminal statuses are final |
| Storage.Client.Query | truenas_adapter/write_fake.py:25-45 | a read may raise or die but leaves storage as it is |
| Storage.Client.CreateSnapshot | truenas_adapter/write_fake.py:45-56 | a refused name changes nothing; otherwise the call has its effect, or not, as the fault says |
| Storage.Client.CloneSnapshot | truenas_adapter/write_fake.py:58-69 | the clone appears once, or not, as the fault says |
| Storage.Client.UpdateExtentDevice | truenas_adapter/write_fake.py:71-82 | exactly one extent's device changes, in canonical form, or nothing does |
| Storage.Client.DeleteDataset | truenas_adapter/write_fake.py:84-86 | exactly the named dataset goes; an absent one is no error |
| PublishWorkflow.Workflow.ReadMappings | application/truenas_publish.py:110-147 | the four reads and the station loop resolve every station or fail as a whole |
| PublishWorkflow.Workflow.VerifyReadBack | application/truenas_publish.py:228-246 | reads back association and device, and raises unless both match |
| PublishWorkflow.Workflow.ApplyStation | application/truenas_publish.py:168-226 | clone if missing, switch if needed, read back; after an attempted switch a failed step is judged by a second read-back |
| PublishWorkflow.Workflow.EnsureSnapshot | application/truenas_publish.py:149-166 | reuses the job's snapshot or creates it |
| PublishWorkflow.Workflow.ApplyAll | application/truenas_publish.py:86-88 | the station loop collects one result per plan, in order |
| PublishWorkflow.Workflow.Execute | application/truenas_publish.py:48-98 | the whole run, refusals and dry run included |
| PublishWorkflow.Workflow.Write | application/truenas_publish.py:84-98 | snapshot, switches and final status |
| PublishSafety.PermittedStaysFramed | application/truenas_publish.py:84-98 | one permitted write keeps the storage frame |
| PublishSafety.ResolveStable | application/truenas_publish.py:110-147 | storage with the same wiring resolves every station to the same target, extent and LUN |
| PublishSafety.RunFrame | application/truenas_publish.py:84-226 | after every call of every faulty run: associations and unselected extents as before, each selected extent on its old device or its own clone, nothing removed, no foreign dataset, and a switch only to an existing clone |
| PublishSafety.RunAllTracked | application/truenas_publish.py:48-98 | the frame of the first storage holds through any number of interrupted runs |
| PublishSafety.DryRunWritesNothing | application/truenas_publish.py:69-82 | a dry run makes no write call and leaves storage as it is |
| PublishResults.ApplyHonest | application/truenas_publish.py:168-226 | one station's result against storage: VERIFIED is switched, ERROR still has the old device, RECOVERY_REQUIRED follows an attempted switch; no other extent moved |
| PublishResults.ApplyAllHonest | application/truenas_publish.py:86-88 | the same for all stations at the end of the loop, on distinct extents |
| PublishResults.RunSound | application/truenas_publish.py:48-98 | on distinct extents every result of a finished faulty run is honest about the final storage, results are in station order, and COMPLETED means every extent is switched |
| PublishVerified.VerifiedExactly | application/truenas_publish.py:84-226 | every VERIFIED of every finished run is true of the final storage, under all faults, if and only if no plan that has to switch shares its extent with an earlier plan for another clone |
| PublishVerified.CompletedWithoutClash | application/truenas_publish.py:90-98 | without a clash COMPLETED means every extent is on its clone, whatever the faults |
| PublishResults.FinishedFromPlans | application/truenas_publish.py:65-98 | the results of a finished run are those of the plans resolved on the storage it started from |
| PublishResults.RunConcludes | application/truenas_publish.py:90-98 | a run is refused exactly when it may not start, never tries an illegal transition, and its status summarises its results |
| PublishResults.RunStatus | domain/publish.py:41-84 | a finished run ends in a terminal status reached through the table |
| PublishResults.Entering | application/truenas_publish.py:249-256 | exactly draft and publishing jobs enter, through legal transitions |
| PublishConvergence.CleanApply | application/truenas_publish.py:168-226 | an undisturbed station step succeeds from any partly done state |
| PublishConvergence.CleanApplyAll | application/truenas_publish.py:86-88 | so does the loop, while no two plans fight over an extent |
| PublishConvergence.CleanRun | application/truenas_publish.py:48-98 | an undisturbed run on resolvable stations finishes with every target VERIFIED and the job COMPLETED |
| PublishConvergence.ConvergedUnique | application/truenas_publish.py:84-98 | the switched state is unique up to the listing order of clones |
| PublishConvergence.CrashAndRerunConverges | application/truenas_publish.py:48-246 | after any sequence of faulty or crashed runs, one undisturbed rerun succeeds and reaches the very state of an uninterrupted run |
| PublishConvergence.ConvergesExactly | application/truenas_publish.py:48-246 | the rerun reaches the switched state if and only if stations that share an extent share their clone |
| PublishConvergence.SharedExtentOverwrites | application/truenas_publish.py:84-98 | with a shared extent and two clones both stations are reported VERIFIED, though the first ends on the other's clone |
| PublishRuns.ClashCompletes | application/truenas_publish.py:48-98 | so a whole run on such a pair is COMPLETED with both VERIFIED, and the shared extent is on the second clone |
| PublishRuns.SharedExtentRun | application/truenas_publish.py:48-98 | a run: two targets on one extent |
| PublishConvergence.LostSwitch | application/truenas_publish.py:187-203 | a switch that is lost and unconfirmed gives RECOVERY_REQUIRED with the clone made and every extent where it was |
| PublishFaults.StatusExactly | application/truenas_publish.py:168-226 | VERIFIED is reported exactly when the last call was a read-back that met no fault and found the plan in storage, whatever the switch answered; otherwise RECOVERY_REQUIRED exactly when a switch was called; the flag that makes a clone recorded is set exactly when the step got past cloning |
| PublishFaults.CrashExactly | application/truenas_publish.py:168-226 | a station has no result exactly when the process died in its last call, and nothing is called after that |
| PublishFaults.HarmlessRun | application/truenas_publish.py:48-98 | a run whose only faults are switches that raised although they were applied is COMPLETED, every target VERIFIED, in the very storage of an undisturbed run |
| PublishOutcomes.ForgottenCloneExactly | application/truenas_publish.py:168-226 | a clone exists without being reported, so that no row is made for it, exactly when the call that made it raised all the same |
| PublishOutcomes.StationsInTurn | application/truenas_publish.py:86-88 | whatever becomes of one station the next one is tried, and no station fails without a cause: its last call raised, its clone name was refused, or storage is not as planned |
| PublishOutcomes.AbortsExactly | application/truenas_publish.py:48-166 | a run that may start is given up exactly for a fault or a missing piece before its first station, with no extent switched; later faults are a single station's |
| PublishOutcomes.RunDies | application/truenas_publish.py:48-98 | a run dies exactly in a call that met a crash, its last one |
| PublishOutcomes.SimulatesExactly | application/truenas_publish.py:69-82 | a dry run finishes exactly if its four listings succeed and show source and stations; it simulates every planned switch in station order and reports no storage as made |
| LiveMapping.ResolvesExactly | application/truenas_publish.py:110-147 | a station resolves exactly by the first target of its name, the only association of that target and a listed extent |
| LiveMapping.SourceExactly | application/truenas_publish.py:100-108 | the source is the first dataset with that name or id, under its name |
| LiveMapping.ReadBackExactly | application/truenas_publish.py:228-246 | a read-back asks for exactly one association of this target, extent and LUN, and for the clone's device |
| Artifacts.ArtifactTable.RetireStationArtifacts | repository/publish_artifacts.py:67-76 | every current row of the station but one is retired |
| Artifacts.ArtifactTable.SetCurrentArtifact | repository/publish_artifacts.py:78-95 | the station's rows after the loop: deleted ones stay deleted, the chosen one is current, the others are not |
| Artifacts.ArtifactTable.SaveArtifact | repository/publish_artifacts.py:49-65 | insert, or overwrite the row of the same job and station, keeping its id and creation time |
| Artifacts.ArtifactTable.MarkArtifactDeleted | repository/publish_artifacts.py:119-126 | the deletion mark, or a missing row |
| Artifacts.ArtifactTable.MarkArtifactFailed | repository/publish_artifacts.py:128-133 | the failure mark with its error squeezed and cut to 1000 characters, or a missing row |
| Artifacts.ArtifactTable.PersistResults | application/publish_executor.py:143-172 | retire and save for each recorded result, in order |
| ArtifactRecords.ErrorStored | repository/publish_artifacts.py:128-133 | the failure mark changes its row alone and stores as much of the squeezed error as fits into 1000 characters |
| Text.SqueezeApart | repository/publish_artifacts.py:133 | whatever blanks stand between two texts, squeezing leaves one between their words |
| Text.SqueezeWord | repository/publish_artifacts.py:133 | and changes nothing within a word |
| Artifacts.SetCurrentOk | repository/publish_artifacts.py:78-95 | setting the current row keeps the table invariant, and consistent or coherent rows as they were |
| Artifacts.PersistOk | application/publish_executor.py:127-174 | persisting a run keeps unique rows and one current row per station, and consistent or coherent rows as they were |
| ArtifactRecords.PersistsExactly | application/publish_executor.py:157-201 | with one result per station: every clone that exists is recorded, whether or not its station was switched, in a new row or in that of the same job, which keeps id and creation time; the station's current row is retired; without such a result its rows stay as they were |
| ArtifactRecords.OthersKept | application/publish_executor.py:157-172 | stations without a result keep their rows |
| Artifacts.OneCurrentAlways | repository/publish_artifacts.py:49-133 | at most one current clone per station and consistent rows under every interleaving of commits, late failure marks included |
| Artifacts.FailedMarkCoherence | repository/publish_artifacts.py:128-133 | the failure mark keeps flag and status coherent exactly when the row is still retired or failed |
| Reconcile.MapStationMappings | application/datasets.py:161-186 | the loop's map holds exactly the stations with one target, one association and a device |
| LiveMapping.MapsExactly | application/datasets.py:161-186 | a station shows a device exactly by the only target of its name and its only association, if the extent has one |
| LiveMapping.SeeAlike | application/datasets.py:161-186 | reconciliation and run see the same extent, except where two targets share the name or the extent has no device |
| LiveMapping.SpellingsAgree | application/datasets.py:271-275 | blanks around a device, "disk=" and "/dev/" make no difference |
| LiveMapping.BacksExactly | application/datasets.py:253-257 | a row backs the device of its recorded mapping and the volume of its dataset, and no other |
| Reconcile.ReconcileArtifacts | application/datasets.py:212-250 | the in-memory loop computes the reconciled rows |
| Reconcile.PersistCurrentState | application/datasets.py:189-209 | the table after the per-station updates |
| Reconcile.ViewEqualsStored | application/datasets.py:189-250 | the in-memory view equals the stored rows after the persistent update, for every table that commits can leave |
| Reconcile.ReconcileIdempotent | application/datasets.py:212-250 | reconciling twice is reconciling once, for every list and mapping |
| Reconcile.StoredOneCurrent | repository/publish_artifacts.py:78-95 | whatever the flags were, a resolved station ends with exactly the row its live mapping selects as current, or none |
| CleanupDecisions.StoredExactly | repository/publish_artifacts.py:78-95 | the update by row: the one row that backs the live device is current without marks, any other loses its flag and is retired if it was current, deleted rows and unresolved stations keep their status |
| Reconcile.StoredIdempotent | application/datasets.py:189-209 | a second persistent update changes nothing, for every table that commits can leave |
| Reconcile.ListingEqualsStored | application/datasets.py:50-69 | the default listing, which never loads deleted rows, agrees with the table afterwards |
| PublishReconcile.PersistSaves | application/publish_executor.py:157-201 | a VERIFIED result leaves its row in the table, current, whatever else the transaction saves |
| PublishReconcile.RecordedRowSelected | application/datasets.py:161-209 | a recorded VERIFIED clone is the row its live device selects, and the update leaves the station's rows alone |
| PublishReconcile.VerifiedTarget | application/truenas_publish.py:263-277 | a VERIFIED station's live mapping is its own clone |
| PublishReconcile.PublishThenReconcile | application/publish_executor.py:157-201 | publish, persist, reconcile: the live mapping resolves to the row just saved and nothing of that station changes, if the station's other jobs differ in the 12 digits a clone name keeps |
| PublishReconcile.PublishThenReconcileAlways | application/publish_executor.py:157-201 | the same from every table that an interleaving of persisted runs, reconciliations and marks leaves behind |
| Cleanup.ListCleanupCandidates | repository/publish_artifacts.py:97-117 | the batch holds the oldest expired, deletable rows, up to the limit, none skipped |
| Cleanup.DatasetCleanup.Execute | application/dataset_cleanup.py:46-113 | selects the expired rows or the chosen ids, deletes each selected clone and marks its row; inspected = deleted + failed with writes enabled, no write without |
| Cleanup.PassEffect | application/dataset_cleanup.py:84-100 | a pass counts every candidate once, deletes only candidates' datasets, and touches only their rows, stamped ones included |
| CleanupMarks.PassMarks | application/dataset_cleanup.py:84-113 | a row is DELETED, stamped now, exactly when its own delete returned, and CLEANUP_FAILED with the error exactly when that raised; the counters count them; the datasets left are all but those whose delete reached the appliance |
| CleanupMarks.DeletedIsGone | application/dataset_cleanup.py:84-100 | a row this pass marked DELETED names a dataset that is gone |
| CleanupDecisions.ChosenExactly | application/dataset_cleanup.py:46-62 | a pass over chosen ids takes exactly the unflagged, retired or failed, unstamped rows among them |
| CleanupDecisions.ExpiredExactly | repository/publish_artifacts.py:97-117 | the periodic pass considers exactly the unflagged, retired or failed rows old enough whose dataset is not their source |
| CleanupDecisions.DueAgain | application/dataset_cleanup.py:84-113 | a failed row is due again in every later periodic pass, a deleted one never |
| Cleanup.PassCoherent | application/dataset_cleanup.py:84-113 | a pass keeps flag and status coherent |
| CloneNames.RunNames | application/truenas_publish.py:263-277 | every result of a run names a clone of its own job, whatever the faults |
| CloneNames.PersistMinted | application/publish_executor.py:181-201 | so does every row that persisting the run leaves, and its device is the clone's |
| CloneNames.NamesAlways | repository/publish_artifacts.py:49-133 | and every row of the table, under every interleaving of commits |
| CloneNames.MintedDiffer | application/truenas_publish.py:263-277 | clones of jobs whose ids differ in the first 12 digits are different, whatever the stations are called |
| Cleanup.StepOk | application/dataset_cleanup.py:46-113 | each delete goes to a row that is neither current nor deleted and whose clone is not its own source, and a pass leaves DELETED rows exactly as they are |
| Cleanup.RegistryInvariant | application/dataset_cleanup.py:46-113 | with uninterrupted passes: current flag iff CURRENT, DELETED iff stamped, clones extend sources, after every sequence of commits and passes |
| CleanupLive.FlaggedSparedExactly | repository/publish_artifacts.py:97-117 | a pass spares every dataset that a current row names, under all faults, if and only if no selected row shares its dataset with one |
| CleanupLive.LiveSparedExactly | application/dataset_cleanup.py:84-100 | a pass spares every dataset an extent uses, under all faults, if and only if it selects none of them |
| CleanupLive.ReconciledSparesExactly | application/datasets.py:189-209 | right after a reconciliation no pass can select a clone in use if and only if every row in use is the only one backing its station's live extent, or is flagged where the station is unresolved, or, for the periodic pass, is not stamped and marked failed later |
| CleanupRuns.SharedCloneIsDeleted | repository/publish_artifacts.py:97-117 | a run: two stations share a clone, one publishes again, a periodic pass deletes the clone that the other's current row names |
| CleanupRuns.LiveCloneIsDeleted | application/publish_executor.py:162-172 | a run: a failed publish retires the row of the clone still in use, and a periodic pass deletes that clone |
| CleanupRuns.LateFailureMark | repository/publish_artifacts.py:128-133 | a run: the failure mark comes after a reconciliation made the row current, which is then flagged and CLEANUP_FAILED |
| CleanupRuns.TwinClonesSlipThrough | application/datasets.py:117-134 | a run: two jobs whose ids share 12 hex digits give a station two rows for the clone in use, and the gate accepts both |
| CleanupQueue.DedupeIds | application/datasets.py:92 | the loop behind the de-duplicated ids |
| CleanupQueue.DedupeSpec | application/datasets.py:92 | the ids queued are the first occurrences, in order, and no others |
| CleanupQueue.CleanupGate.ReadLiveState | application/datasets.py:137-158 | four reads, any of which turns the request into a refusal |
| CleanupQueue.CleanupGate.Decide | application/datasets.py:96-131 | unknown ids, a refused read, live or deleted rows are told apart on the rows read first; the table, whatever was committed since, is updated as soon as the live mapping could be read, and never otherwise |
| CleanupQueue.CleanupGate.Execute | application/datasets.py:91-134 | the verdict and the rows stored on the way are the decision on the de-duplicated ids; one message on acceptance unless the enqueue raised and lost it, none otherwise |
| CleanupQueue.GateExact | application/datasets.py:117-134 | for every table with unique ids: the reconciled selection passes exactly when every chosen row is undeleted and is not the only chosen row backing its station's live extent, or is unflagged where the station is unresolved |
| CleanupQueue.DecisionExact | application/datasets.py:91-134 | so a live-checked gate accepts exactly the non-empty requests of known, releasable rows whose live state could be read, whatever is committed between its two transactions |
| CleanupDecisions.RequestExactly | application/datasets.py:91-134 | which answer every request gets, by the rows, the faults of the four listings and the live devices, and exactly when the table is updated |
| CleanupDecisions.HandsOverExactly | application/datasets.py:126-134 | success exactly for an accepted request whose enqueue returned |
| CleanupQueue.GateExactDistinct | application/datasets.py:117-134 | with distinct clones per station: passes exactly when nothing chosen is deleted, live, or flagged for an unresolved station |
| CleanupQueue.GateExactAlways | application/datasets.py:117-134 | so it does on every table that an interleaving of persisted runs, reconciliations and marks left, if the jobs of a station differ in the first 12 digits of their ids |
| CleanupQueue.DuplicatesSlipThrough | application/datasets.py:198-227 | two rows of one station naming the live clone shield each other from the gate; that takes two jobs whose ids share 12 hex digits |
| CleanupQueue.LiveLookup | application/datasets.py:103-121 | a chosen row's station is resolved exactly when it is registered and its own target leads to one device, and then to that device |
| Pipeline.PublishDesk.CreateJob | application/publish_commands.py:41-146 | validation, idempotency lookup, station checks and the two inserts, or no change |
| Pipeline.CreateIdempotent | application/publish_commands.py:56-75 | repeating a request returns the first job and changes nothing; reusing the key for another request is refused |
| PipelineEffects.CreatesExactly | application/publish_commands.py:41-146 | a job is created exactly for a complete request under a new key whose stations are all registered, enabled and undeleted; it is a draft selecting exactly these, in order, and nothing else changes |
| Pipeline.EvaluateWizardGate | domain/wizard.py:40-59 | the loop collects the reasons in order |
| Pipeline.GateSpec | domain/wizard.py:40-59 | the gate opens exactly with passing reports for a non-empty selection and confirmation; a missing confirmation alone still lets the job advance |
| PipelineEffects.ReasonsExactly | domain/wizard.py:40-59 | each reason is given exactly when it applies |
| PipelineEffects.ExplanationSplits | application/publish_confirmation.py:119-143 | the stored explanation splits back into the codes of the reasons, in order |
| PipelineEffects.PreparesExactly | application/publish_confirmation.py:72-143 | which prepare requests are stored and which refusal the others get |
| PipelineReports.PrepareStores | application/publish_confirmation.py:72-143 | after a prepare every selected target holds its own station's report and every other none; no other job and nothing else of this one changes |
| PipelineReports.RunRemembers | application/publish_confirmation.py:72-143 | in every run the stored preflights are the reports of the job's last successful prepare and the stored confirmation is the operator's last answer |
| PipelineReports.DispatchExactly | application/publish_dispatch.py:30-70 | in every run dispatch succeeds exactly if the operator last said yes and the last successful prepare had a passing report for every selected station: a later blocked report makes it refuse |
| PipelineEffects.DispatchStores | application/publish_dispatch.py:30-70 | a dispatch changes this job's status and reason and adds its event, nothing else |
| PipelineEffects.MessagesName | application/publish_dispatch.py:30-55 | in every run each event names its job with the key and correlation it was created with, and each message is such an event |
| PipelineEffects.DeliversExactly | worker/composition.py:36-63 | so a message starts a delivery exactly when its job is still to be published and not being delivered, with job and targets as stored |
| PipelineEffects.ResultsStored | application/publish_executor.py:143-156 | each target holds its own station's result, a target without one what it had |
| PipelineEffects.StampsExactly | application/publish_executor.py:157-161 | exactly the stations this run switched are stamped |
| PipelineEffects.PersistsExactly | application/publish_executor.py:127-174 | the last transaction commits exactly when job and stations are still those it was read with and no switched station is gone; it touches no other job |
| Pipeline.PublishDesk.PrepareJob | application/publish_confirmation.py:72-143 | the commit phase re-validates and updates targets and job, or changes nothing |
| Pipeline.PublishDesk.DispatchJob | application/publish_dispatch.py:30-70 | status and event in one commit, or nothing |
| Pipeline.PublishDesk.Persist | application/publish_executor.py:127-174 | targets, clones, station update stamps and job in one commit, or nothing when the job or the target set changed or an updated station was deleted meanwhile |
| PipelineSafety.StepSafe | application/publish_dispatch.py:30-70 | one action keeps the pipeline invariant, moves statuses only along the table, leaves terminal jobs alone, and touches storage only for a cleared PUBLISHING job |
| PipelineSafety.PipelineSafe | application/publish_confirmation.py:46-143 | the same over every interleaving of create, both prepare phases, dispatch, relay and serial deliveries |
| PipelineSafety.PipelineSafeFromStart | application/publish_confirmation.py:46-143 | the empty pipeline satisfies the invariant, so the same holds of every run from the start |
| PipelineSafety.OneEventPerDispatch | application/publish_dispatch.py:30-70 | a job has exactly one event iff it reached PUBLISHING, and is then confirmed with all selected preflights passed |
| PipelineSafety.StaleDeliveryMove | application/publish_executor.py:173 | an overlapping delivery moves the stored status along the table exactly when the job was not terminal or had that status |
| PublishRuns.LateDeliveryOverwrites | application/publish_executor.py:127-174 | a run: of two deliveries that read one job the first stores COMPLETED, the second overwrites it with FAILED |
| PublishDelivery.AllTargetsVerified | application/publish_executor.py:143-156 | persisting all-VERIFIED results marks every target that has a result as VERIFIED and changes no station or selection |
| PublishDelivery.CrashesOnlyRun | application/publish_executor.py:83-110 | deliveries given up before their transaction leave database and queue alone and move the storage as the workflow runs do |
| PublishDelivery.DeliveryPublishes | application/publish_executor.py:83-174 | from a dispatched job with a queued message and ready storage, after any number of crashed deliveries: one undisturbed delivery stores COMPLETED, every selected target VERIFIED, exactly one current row per station, its clone, and leaves the first storage switched |
| PublishRuns.WaitingJobIsPublished | application/publish_executor.py:83-174 | a run: a dispatched job of one station is published after any faults of earlier deliveries |
| Outbox.OutboxTable.ClaimPending | repository/outbox.py:36-65 | the first claimable rows up to the limit get this relay's lease, no other row changes |
| Outbox.OutboxTable.Dispatched | repository/outbox.py:67-75 | the dispatch mark on one row |
| Outbox.OutboxTable.FailedDelivery | repository/outbox.py:77-98 | the failure mark on one row, FAILED at the last attempt |
| Outbox.TaskQueue.Send | worker/outbox_relay.py:77-92 | an event of another type, with wrong payload keys or identity never reaches the queue; otherwise the enqueue succeeds, is lost, or is applied though it raised |
| Outbox.PublishOutboxRelay.RunOnce | worker/outbox_relay.py:44-75 | claim, then send and mark each event in order |
| Outbox.DeliverCounts | worker/outbox_relay.py:55-75 | dispatched + failed is the number claimed, each event of the batch marked DISPATCHED is among the messages this poll added, and no other row moves |
| OutboxProgress.PollExactly | worker/outbox_relay.py:44-92 | a poll settles each claimed event by its own answer: done if the enqueue returned, otherwise one attempt more and asleep, or FAILED at the last; malformed events use up no answer and are never queued; nothing else changes |
| OutboxProgress.OldestFirst | repository/outbox.py:36-65 | a claimable event is left out only when older ones filled the batch |
| OutboxProgress.BackoffDoubles | worker/outbox_relay.py:94-96 | 2 s after the first failure, doubling to 256 s and no more |
| OutboxProgress.ClaimableAgain | repository/outbox.py:77-98 | a failed event can be claimed again exactly after its delay and with an attempt left |
| OutboxSafety.RelayIsRun | worker/outbox_relay.py:44-75 | a relay's poll is a run of the multi-relay machine: same rows, same number of new messages per event, no lease left behind |
| OutboxSafety.NothingLost | repository/outbox.py:36-98 | under every interleaving and crash: no event disappears or changes content, DISPATCHED was enqueued, FAILED used its attempts up, PENDING becomes claimable again |
| OutboxSafety.TimelyRelays | worker/outbox_relay.py:44-75 | if relays mark in time and do not crash: at most one holder per row, DISPATCHED and FAILED rows never change again, and claims, sends and copies add up |
| OutboxSafety.ExactlyOnce | repository/outbox.py:36-98 | a dispatched event was enqueued successfully exactly once, a failed one never, and no event is claimed, attempted or copied more than max_attempts times |
| OutboxSafety.BudgetDrops | repository/outbox.py:77-98 | the attempts left over all pending events drop by one with every failed claim and never rise but for new events |
| OutboxSafety.UnfencedMark | repository/outbox.py:67-98 | a dispatched row leaves DISPATCHED exactly when a relay that still holds it marks a failed send |
| OutboxSafety.LateRelaySendsTwice | repository/outbox.py:36-75 | from every state in which a relay is about to send a pending event, outliving the lease leads to two sends: the deadline of timely relays is necessary |
| OutboxSafety.ClaimedIsReached | repository/outbox.py:36-65 | such states are reached from the empty outbox |
| AgentCommands.ClaimIsFair | repository/agent_commands.py:46-62 | a claimable command is left out only when the batch was filled by older ones |
| AgentCommands.AckRow | repository/agent_commands.py:88-104 | an acknowledgement is accepted exactly when already accepted or while lease and life run; acceptance is stable |
| AgentCommands.CommandSession.ClaimForAgent | repository/agent_commands.py:34-71 | refuses a bad limit or lease; otherwise leases the first claimable commands and returns them |
| AgentCommands.CommandSession.Acknowledge | repository/agent_commands.py:73-104 | the row and the answer, EXPIRED mark included |
| AgentCommands.CommandDesk.Issue | application/agent_commands.py:46-78 | issues exactly for the supported name, a TTL of at most 15 minutes and an active agent |
| AgentCommands.CommandDesk.Acknowledge | application/agent_commands.py:87-108 | commits an accepted acknowledgement and leaves the durable rows untouched otherwise |
| AgentCommands.CommandDesk.Deliver | application/lifecycle.py:344-350 | a heartbeat leases at most 16 commands for 30 seconds |
| AgentCommands.PickedIsClaimed | repository/agent_commands.py:46-69 | the rows a claim changes are exactly the rows it returns |
| AgentLeases.StepRows | application/agent_commands.py:87-108 | the lease machine changes rows as the use cases do |
| AgentLeases.CommandLife | repository/agent_commands.py:34-104 | over every run: claims a lease apart and before expiry, EXPIRED never durable, an acknowledged command never changes or goes out again |
| AgentLeases.HandedOutExactly | repository/agent_commands.py:34-71 | a heartbeat hands out exactly the 16 oldest commands due to its own agent, each for 30 s |
| AgentLeases.AcknowledgedExactly | repository/agent_commands.py:73-104 | an acknowledgement changes exactly the command it names, while lease and life run |
| AgentLeases.AtMostThirtyDeliveries | application/lifecycle.py:23 | (attempts - 1) * lease < ttl, so at most 30 deliveries |
| AgentLeases.AcceptedWindow | repository/agent_commands.py:91-104 | accepted exactly within the latest lease and the command's life, or again after acceptance |
| AgentLeases.CommandRuns | repository/agent_commands.py:34-104 | the above from the empty store |
| AgentLeases.ThirtyReached | application/agent_commands.py:12-13 | 30 deliveries are reached by a possible run |
| AgentRuntime.HeartbeatAgent.SendOnce | agent/heartbeat.py:54-65 | one heartbeat, its replies and the command loop |
| AgentRuntime.HeartbeatAgent.HandleAll | agent/heartbeat.py:63-65 | handle, then acknowledge, each command in turn |
| AgentRuntime.HeartbeatAgent.SendWithRetry | agent/heartbeat.py:67-82 | retries transport failures only, up to max_attempts |
| AgentRuntime.HeartbeatAgent.RunOnce | agent/heartbeat.py:84-90 | the run the scheduler starts |
| AgentRuntime.AgentCommandHandler.Handle | agent/commands.py:20-25 | validate, skip a handled command, refresh, remember |
| AgentRuntime.Wire.Send | agent/http_client.py:94-113 | a response with more than 16 commands is a transport failure |
| AgentSafety.PlainRetry | agent/runtime.py:52-57 | a refresh only sends heartbeats: it handles, refreshes and acknowledges nothing |
| AgentSafety.OneRun | agent/heartbeat.py:54-90 | a run ends after at most max_attempts * (1 + 16 * max_attempts) heartbeats, keeps the log promises, and succeeds only when every command of the last response was acknowledged |
| AgentSafety.LogPromises | agent/commands.py:20-25 | in a process log only valid commands are vouched for, a refresh completes at most once per command, and acknowledgements follow both |
| AgentProgress.RunExactly | agent/heartbeat.py:54-90 | a run ends with the first heartbeat that does not fail in transport and reports a transport failure exactly after max_attempts of them; each heartbeat is fine exactly if its response is usable and every command of it was acknowledged, in order |
| AgentProgress.ServesExactly | agent/heartbeat.py:63-65 | the loop acknowledges commands in order up to the first unsound one or the first message that does not get through, and says which |
| AgentProgress.HandleExactly | agent/commands.py:20-25 | an unsound command is refused before anything is done, a handled one only validated, any other refreshed for |
| AgentProgress.RefreshExactly | agent/heartbeat.py:67-90 | a refresh stops at the first usable response and fails exactly after max_attempts others |
| AgentDelivery.AcknowledgedWasExecuted | repository/agent_commands.py:73-104 | over a losing, duplicating network with restarts: the server records ACKNOWLEDGED only for a command that a process of that agent validated and whose refresh completed |
| AgentDelivery.RefreshedOnce | agent/commands.py:20-25 | a refresh completes at most once per process and command |
| AgentDelivery.AgentRunIsPossible | agent/heartbeat.py:54-90 | every event of an agent's run is a move of the end-to-end system |
| StationRegistry.Session.Restore | repository/stations.py:52-66 | only a deleted station is restored |
| StationRegistry.Session.UpdateDetails | repository/stations.py:95-120 | role, flag and state of a registered station, consistently |
| StationRegistry.Session.DeleteStation | repository/stations.py:132-160 | commands, agent, tokens and station in one cascade |
| StationRegistry.Session.ConsumeEnrollment | repository/enrollment_tokens.py:35-58 | a usable token is stamped and returned, any other leaves the table alone |
| StationRegistry.Session.ConsumeProvisioning | repository/provisioning_tokens.py:29-49 | the same for provisioning tokens |
| StationRegistry.Session.RecordHeartbeat | repository/agents.py:113-150 | a heartbeat puts its station online unless it is disabled or deleted; an unbound agent is refused |
| StationRegistry.Registry.CreateStation | application/lifecycle.py:98-143 | add or restore with a fresh token, or a conflict |
| StationRegistry.Registry.UpdateStation | application/stations.py:31-67 | the operator's edit, or not found |
| StationRegistry.Registry.DeleteStation | application/lifecycle.py:173-180 | the cascade committed, or not found |
| StationRegistry.Registry.EnrollAgent | application/lifecycle.py:189-219 | token and binding in one commit, or no change |
| StationRegistry.Registry.BootstrapAgent | application/lifecycle.py:228-304 | token, station and binding in one commit, or no change |
| StationRegistry.Registry.ReceiveHeartbeat | application/lifecycle.py:313-351 | skew and binding checks, then state and leased commands in one commit |
| StationRegistry.Registry.IssueCommand | application/agent_commands.py:46-78 | a command for an active binding |
| StationRegistry.Registry.AcknowledgeCommand | application/agent_commands.py:87-108 | the acknowledgement of an authorized agent |
| RegistrySafety.CreateKeeps | application/lifecycle.py:130-142 | creation succeeds exactly unless the station is active |
| RegistrySafety.UpdateKeeps | application/stations.py:31-67 | an edit succeeds exactly on a registered station and never breaks the enabled/state constraint |
| RegistrySafety.DeleteKeeps | repository/stations.py:132-160 | deletion succeeds exactly on a registered station and keeps every invariant |
| RegistrySafety.EnrollKeeps | application/lifecycle.py:202-218 | enrollment succeeds exactly with a usable token whose station, agent UUID and id are free; the station is then not deleted |
| RegistrySafety.BootstrapKeeps | application/lifecycle.py:242-303 | bootstrap succeeds exactly for a client with a usable token and a free identity whose station is new, deleted or a client |
| RegistrySafety.HeartbeatKeeps | application/lifecycle.py:328-350 | a heartbeat keeps the invariant and never fails at commit |
| RegistryEffects.CreateExactly | application/lifecycle.py:98-143 | creation leaves an enabled, offline station of this role and a token for it that lives ten minutes; other stations and tokens are as before |
| RegistryEffects.ProvisioningExactly | application/lifecycle.py:152-164 | one more token, redeemable for fifteen minutes |
| RegistryEffects.UpdateExactly | application/stations.py:31-67 | role and flag as asked, disabled exactly without the flag, offline when enabled again; the station's agent is accepted afterwards exactly with the flag |
| RegistryEffects.DeleteExactly | repository/stations.py:132-160 | exactly this station's agent, its commands and its unrevoked tokens go |
| RegistryEffects.EnrollExactly | application/lifecycle.py:189-219 | the agent is bound to the token's station, its credential accepted at once if that is enabled, and the token used up |
| RegistryEffects.BootstrapExactly | application/lifecycle.py:228-304 | the same for a client that brings its station along |
| RegistryEffects.RefusalsExactly | application/lifecycle.py:189-304 | which refusal a registration gets that does not come to a binding |
| RegistryEffects.AuthorizedExactly | application/lifecycle.py:328-335 | a credential acts for an agent exactly if it is that of an unrevoked binding on an enabled, undeleted station |
| RegistryEffects.HeartbeatExactly | application/lifecycle.py:313-351 | a heartbeat succeeds exactly with a skew of at most 300 s and a credential accepted for this station; then this station is online, this agent's claimable commands are leased and all else is as before |
| RegistryEffects.IssueExactly | application/agent_commands.py:46-78 | a command is issued exactly for the supported name, a life of at most fifteen minutes and an accepted agent, and only that agent can be handed it |
| RegistryEffects.AcknowledgeExactly | application/agent_commands.py:87-108 | an acknowledgement is taken exactly from the accepted agent whose command it is, while lease and life run or again; it changes that command alone |
| RegistrySafety.RegistryInvariant | repository/stations.py:52-160 | after every run: enabled iff not disabled, deleted stations disabled and bare, one agent per station and UUID, commands only for bound agents, and as many bindings ever created as tokens used |
| RegistrySafety.DeletedIsBare | repository/stations.py:132-160 | a deleted station is disabled and has no agent, no commands and no usable token |
| RegistrySafety.FailureChangesNothing | application/lifecycle.py:202-304 | a use case that fails leaves every table as it was |
| RegistrySafety.TokensFrozen | repository/enrollment_tokens.py:55-57 | no token row disappears and its stamps are set at most once, over every run |
| RegistrySafety.RevokedForGood | repository/stations.py:132-160 | a credential of a deleted station is refused after every later run, restores included |
| RpcTransport.JsonRpcWebSocketTransport.Await | truenas_adapter/transport.py:158-175 | the receive loop skips foreign messages until the answer, an error or the timeout |
| RpcTransport.JsonRpcWebSocketTransport.RequestOnce | truenas_adapter/transport.py:155-175 | open, send, await |
| RpcTransport.JsonRpcWebSocketTransport.Request | truenas_adapter/transport.py:105-147 | a new id, then bounded attempts with a reset after each failure |
| RpcTransport.ApiKeyJsonRpcTransport.Request | truenas_adapter/runtime.py:148-164 | authenticate and send on each of the bounded attempts |
| RpcSafety.ReceiveEffect | truenas_adapter/transport.py:155-175 | receiving sends nothing, and a returned value came in last under the request's id |
| RpcSafety.RequestEffect | truenas_adapter/transport.py:105-147 | with no inner retries a request sends at most one frame, at once and on the open connection if there is one |
| RpcSafety.AuthRequestKeeps | truenas_adapter/runtime.py:148-164 | one request: frames authenticated, ids growing, at most retry_attempts + 1 frames of the method, and only its own answer returned |
| RpcSafety.SessionIsAuthenticated | truenas_adapter/runtime.py:148-164 | over every session and fault pattern each frame goes out on the connection on which its own attempt just authenticated, and ids strictly increase |
| RpcSafety.NextCall | truenas_adapter/transport.py:201-204 | in a session no response is returned to another request |
| RpcProgress.ReceiveExactly | truenas_adapter/transport.py:158-175 | receiving passes over foreign messages only, and ends with the event that decides or with the timer |
| RpcProgress.AttemptsExactly | truenas_adapter/transport.py:105-147 | an inner request fails exactly after retry_attempts + 1 attempts with nothing decided, and then leaves no connection; the first attempt that gets something decided ends it |
| RpcProgress.RetriesExactly | truenas_adapter/runtime.py:148-164 | an authenticated request fails exactly after retry_attempts + 1 attempts that settled nothing; the first attempt that gets an answer, to its authentication or to its own frame, ends it with that answer |
| RpcProgress.NothingToTry | truenas_adapter/runtime.py:148-164 | a closed transport sends nothing and fails |
| RpcSafety.RetryLosesAuthentication | truenas_adapter/transport.py:124-145 | with inner retries a dropped connection lets a frame out unauthenticated |
| RpcSafety.AuthenticatedExactly | truenas_adapter/runtime.py:280-286 | every fault pattern is safe if and only if the inner transport's retries are 0 |

## Left out

- Concurrency inside one transaction: two dispatches of one job that both read before either writes; transactions are serialised here.
- Overlapping deliveries of one job, except for the status they leave behind (`PipelineSafety.StaleDeliveryMove`, `PublishRuns.LateDeliveryOverwrites`).
- Cleanup passes interleaved with other commits, beyond one current row per station, consistent rows and the exact effect of the failure mark: a whole pass is one step of `Cleanup.RegistryInvariant`.
- PublishConvergence.CrashAndRerunConverges: the listing order of clones may differ from an uninterrupted run's, because an interrupted run may have created some of them earlier.
- StationRegistry.Registry.ReceiveHeartbeat: without the snapshot rows and the normalisation of host name, IP and MAC addresses, which are rejected before the transaction begins.
- StationRegistry.Session.UpdateDetails: without display names, host names and iSCSI metadata and their blank-text checks, which no invariant depends on.
- RpcTransport.JsonRpcWebSocketTransport.Request: back-off delays are not modelled, and the timeout is the number of messages that arrive before it fires.
- AgentRuntime.HeartbeatAgent.SendOnce: without payload building and a snapshot source that raises; either ends the run at once.
- The default dataset listing's last filter against live dataset names, and the read-only queries over jobs and stations.
- Message texts, error details, status-reason station ids, time stamps without a role in a decision, JSON serialisation.
- `evaluate_preflight`, process rules and back-off arithmetic: one or two branches each; a preflight status is an input of prepare.
- Signing, hashing and token generation: an uninterpreted verifier, an injective hash and secrets that never repeat.
- The fake publish workflow and mock client, the front end, HTTP routes and schemas, configuration parsing, migrations, the Windows service and its collectors.
