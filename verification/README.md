# Compliance status pipeline and neighbouring cores of the global hub

A Dafny model of how a multicluster global hub learns the policy compliance of its leaf hubs,
with proofs that what the leaf hub sends, what is merged and reordered on the way, and what the
handlers write keep their meaning. `dafny verify dfyconfig.toml` checks everything.

The pipeline, in the order of the data:

- **Agent** (`AgentState`, `AgentRuns`, `AgentRecords`, `AgentRounds`, `AgentFallback`, `SyncModes`;
  classes in `AgentBundles`, `AgentDeltaBundle`, `StatusController`). The leaf hub keeps its live policies in three forms:
  the full list of clusters per policy, a complete bundle that lists only what is not compliant,
  and deltas. A hybrid sync manager switches between the last two.
- **Transport** (`Fragments`, `FragmentKeys`, `MessageAssembly`, `AssemblySources`, `AssemblyLoss`,
  `MessageAssembler`, `Committer`). Large messages are split and collected again; offsets are held back and committed.
- **Conflation** (`Conflation` and its transitions, `ConflationRuns`, `ConflationProgress`,
  `ConflationDeltas`, `ConflationLedger`; classes in `ConflationUnits`; `DeltaMerge`). Bundles wait
  per type; newer ones replace older ones, deltas are merged, dependencies order them.
  `ConflationTable` and `ConflationLine` say what the reported writes of a unit leave in the table,
  `ConflationBases` which base every write came after, `ConflationOrder` what the order of arrival
  adds. `RestartSafety` ties assembler, units and
  committer together; `RestartLoss` has runs in which a commit goes too far, `RestartTable` says
  what reading deltas again leaves.
- **Database** (`HubDatabase`, `BatchBuilder`, `ComplianceTables`, `FullStateSync`, `StatusSync`). The
  compliance table holds the rows of all leaf hubs. A bundle is compared with its leaf hub's rows, a
  map from (policy, cluster) to status, and the difference is sent as one batch.
- **End to end** (`EndToEnd`, `HandledPipeline`, `PipelineRuns`, `PipelineExample`). The pieces
  composed: the table against the live statuses, with writes as values, with the handlers
  themselves, and with the conflation unit in between.

Two independent parts: label patches under optimistic concurrency (`Labels`, `LabelDocuments`,
`LabelRace`, `LabelPatches`), and the SQL filter made from a policy engine's partial evaluation
(`SqlFilter`, `AuthorizationSql`, `AuthorizationMeaning`, `AuthorizationValues`,
`AuthorizationClause`).

State machines are values with transition functions, so that whole runs can be stated; classes
with the fields of the original are proved, method by method, to perform those transitions.

Where a property one would expect does not hold of the code, the model keeps the code as it is
and proves when it does hold:

- `BatchBuilder.PoliciesBatchBuilder.Build`: flushed statements are queued with their argument
  slice as one argument, so a batch succeeds only while nothing is flushed.
- `ConflationDeltas.FailureKeepsPackIff`: an arrival during processing of a delta pack that then
  fails moves the line head, and the failed rows are dropped unless the arrival covers them
  (`ConflationLoss` has a run).
- `ConflationLine.TableOfEveryRun`: without initial checks a delta pack can be written before its
  complete bundle, which then overwrites it. Nothing is lost while no delta overtakes the bundle
  (`PipelineRuns.TableInEveryInterleaving`); `PipelineExample.OvertakingDeltaIsLost` is a run in which
  one does.
- `ConflationProgress.StepKeepsServiceableIff`: an arrival can replace the only ready bundle of a
  queued unit; the unit is then never served again (`ConflationStranding` has a run).
- `SyncModes.SuccessNamesSentBundleIff`: the late delivery report on one complete bundle can start
  deltas on the next one, which was never sent or was refused (a run for each case follows it).
- `SyncModes.InterruptedUpdateIsLostIff`: a report in the middle of an update can lose the update
  (`SyncModes.InterruptedUpdateIsLost` is one).
- `HandledPipeline.HandleConflated`: merged deltas can exceed a statement although each one fits.
- `FragmentKeys.ProducedPayloadsAreNeverAssembled`: with the keys that the producer gives to
  fragments no payload above the limit is ever assembled; `FragmentKeys.SharedKeyIsAssembledIff`
  is the other half.
- `RestartSafety.RoundPassesOpenFragmentIff` and `RestartSafety.RoundPassesFirstMessageIff`: a round
  of commits can pass a fragment that is still open, or the first message of an assembled bundle
  (`RestartLoss` has a run for each). `RestartLoss.RoundPassesADeltaInProcess`: also the first delta
  of a pack in process; `RestartTable.SkippedAreLostIff` says when that is lost.
- `MessageAssembly.StepKeepsTightIff`: replacing the collection that holds a partition's lowest
  offset leaves an entry that nothing removes (`AssemblyLoss.SupersededEntryStays`).
- `MessageAssembly.AssembledMessageStaysBelowIff`: an assembled message may carry an offset above
  another open fragment (`AssemblyLoss.AssembledAboveAnOpenFragment`).
- `AuthorizationValues.FilterNeverShowsMore`: the filter compares texts, so a boolean equals its name
  (`AuthorizationValues.BooleanIsReadAsText`), and it reads any reference of `input` in the cluster
  (`AuthorizationValues.OtherReferenceIsReadInCluster`). It shows too little for a negated equality
  on a missing value (`AuthorizationValues.NegatedMissingIsNotSelected`).
- `AuthorizationMeaning.FilterIsWellFormedIff`: an expression without terms unbalances the filter.
- `AuthorizationClause.ClauseIsConjunctionIff`: the filter of several queries is put behind other
  conditions without parentheses and then selects rows of other clusters.
- `Labels.LabelIsUnescapedIff`: only the first escaped slash of a key is read as the standard says.
- `LabelDocuments.PatchesFollowStandard`: removing a label that is not there is no error.

Assumed throughout, as the code does: policy identifiers are unique within a bundle, clusters are
unique within a policy, and the status lists of one policy are disjoint.

## Model

| member | source | states |
|---|---|---|
| PipelineRuns.TableInEveryInterleaving | manager/pkg/statussyncer/transport2db/conflator/conflation_unit.go:86-251 | Agent and conflation unit run side by side, in every interleaving, with or without initial dependency checks, for a unit that is new or restarted over any table: let the last full and the last complete bundle written be of the current full generation and of the base of the deltas, and let that complete bundle arrive after its base and before all deltas sent after it. Then the table lacks exactly what the unit still holds on that base and what is pending at the leaf hub; with nothing held or pending it is what is live |
| PipelineRuns.EarlyMayBeLeftOut | agent/pkg/status/controller/generic/hybrid_sync_manager.go:96-153 | The deltas on a complete bundle that were sent before it may be left out after it without changing the table |
| PipelineExample.TableIsLive | manager/pkg/statussyncer/transport2db/conflator/conflation_unit.go:86-251 | A run that meets all that is asked for: one policy is reported, sent in full, as a complete bundle and, after a change, as a delta, and written; the table is what is live |
| PipelineExample.OvertakingDeltaIsLost | manager/pkg/statussyncer/transport2db/conflator/conflation_unit.go:232-239 | The same messages with the delta ahead of its complete bundle: it is written first, as nothing was processed yet, and its change is lost |
| PipelineRuns.EveryRunSendsInOrder | agent/pkg/status/bundle/grc/delta_compliance_status_bundle.go:134-165 | The agent sends deltas with increasing versions and bases that never go back, as the unit needs in order to accept all of them |
| ConflationLine.TableOfEveryRun | manager/pkg/statussyncer/transport2db/conflator/delta_state_bundle_info.go:54-187 | In every interleaving of a new unit over any table, with or without initial checks and with deltas on any number of bases, let the last complete bundle written follow the last full one: writing what the unit still holds leaves the table of the two with the packs written since then, and that is the table of all deltas sent on it exactly when every row of a pack written before it is what the two say or is named by a later pack |
| ConflationLine.EarlyPacksAreLostIff | manager/pkg/statussyncer/transport2db/conflator/conflation_unit.go:232-239 | Packs that the initial exemption lets through before their complete bundle make a difference exactly when one of their rows is not what that bundle says and no later pack names it |
| ConflationOrder.TableInOrder | manager/pkg/statussyncer/transport2db/conflator/conflation_unit.go:86-251 | If the complete bundle arrived after its base and both are the last ones written, the table lacks what the unit still holds and at most the first deltas on it, which arrived before it |
| ConflationLine.EveryRunIsFollowed | manager/pkg/statussyncer/transport2db/conflator/delta_state_bundle_info.go:76-140 | Deltas that arrive in the order in which they were sent are all accepted, and those on the newest base are cut into consecutive pieces: written, in flight, pending |
| ConflationTable.EveryRunIsTabled | manager/pkg/statussyncer/transport2db/conflator/conflation_unit.go:142-251 | Over every run from any table, with or without initial checks: the rows are those of the last full bundle; packs written since the last complete bundle are all on that one; and if that one followed the last full bundle, the table is what the two say with these packs put over it, because a dependant is written only while its base is the last one processed |
| HandledPipeline.HandleLine | manager/pkg/statussyncer/transport2db/syncer/dbsyncer/policies_db_syncer.go:170-396 | The three handlers run on one database with the bundles of an agent run: all succeed exactly when the difference, the listed changes and each merged delta fit their statements, and then the rows of the leaf hub differ from the live statuses exactly by what is still pending at it; the rows of other leaf hubs never change |
| HandledPipeline.HandleConflated | manager/pkg/statussyncer/transport2db/syncer/dbsyncer/policies_db_syncer.go:355-396 | The delta handler, given merged deltas of one base, leaves the table of the single deltas exactly when every merged one has at most 16383 rows, and otherwise refuses one |
| HandledPipeline.MergedPackMayNotFit | manager/pkg/statussyncer/transport2db/syncer/dbsyncer/policies_db_syncer.go:355-396 | Two deltas that each fit one statement whose merge does not |
| EndToEnd.TableFollowsLeafHub | agent/pkg/status/controller/generic/generic_status_sync_controller.go:117-234 | For every run of the agent from its start: the full bundle, a complete bundle based on it and all deltas ever sent on that one (merged into packs in any way), written in this order, leave a table that differs from the live statuses exactly by what is still pending at the leaf hub |
| EndToEnd.CompleteBundleDecodes | agent/pkg/status/bundle/grc/complete_compliance_status_bundle.go:38-99 | A complete bundle written after the full bundle whose generation it names gives exactly the live statuses of the moment it was sent, although compliant clusters and policies are never in it |
| EndToEnd.DeltasFollowLive | agent/pkg/status/bundle/grc/delta_compliance_status_bundle.go:68-165 | Over any run after a complete bundle, the statuses of then with its deltas and the pending one written over them are the statuses of now, as long as the full generation and the base stand |
| EndToEnd.EarlyDeltasAreHarmless | agent/pkg/status/controller/generic/hybrid_sync_manager.go:96-153 | Deltas based on a complete generation that were sent before that bundle only confirm rows as compliant that it does not list |
| AgentRuns.EveryRunKeepsInv | agent/pkg/status/bundle/grc/delta_compliance_status_bundle.go:68-334 | In every reachable agent a pending cluster has exactly its recorded status, an unlisted cluster of a cached policy still has its status as of the last reset, sync or creation, records agree with live statuses, the complete bundle lists exactly the clusters that are not compliant, and delta mode has sent fewer deltas than the factor |
| AgentRuns.UpdateKeepsComplete | agent/pkg/status/bundle/grc/complete_compliance_status_bundle.go:38-75 | An update keeps the complete bundle equal to the part of the live statuses that is not compliant, without empty entries |
| AgentRecords.ReturningPolicyIsCompared | agent/pkg/status/bundle/grc/delta_compliance_status_bundle.go:108-132 | Over every run: a policy is deleted and comes back. If it was recorded and nothing of it was listed, exactly the clusters whose status is not the recorded one from before the deletion become pending; otherwise nothing does |
| AgentRecords.ReportingAgainChangesNothing | agent/pkg/status/bundle/grc/complete_compliance_status_bundle.go:38-75 | Over every run: reporting a policy again as it is known changes none of the bundles, so that nothing becomes due |
| AgentRounds.CompleteBundlesFollowTheirBases | agent/pkg/status/controller/generic/generic_status_sync_controller.go:196-234 | Over every run of rounds, with policies changing and reports arriving between them, each complete bundle is sent after the full bundle of the generation that it is based on |
| AgentFallback.DeltaAfterFailureFollowsLine | agent/pkg/status/controller/generic/hybrid_sync_manager.go:128-138 | Over every run: a refused delta or a reported failure leaves the agent in complete mode, and the next delta follows a complete bundle handed over or a reported success |
| AgentFallback.RefusedChangeIsInNextComplete | agent/pkg/status/controller/generic/hybrid_sync_manager.go:128-138 | Changes whose delta is refused while the full generation stands are not lost: a complete bundle is due, it stands for all live statuses, and handing it over opens a line on it |
| SyncModes.LineCarriesSwitchGeneration | agent/pkg/status/controller/generic/hybrid_sync_manager.go:96-153 | All deltas sent from a switch to the next carry the complete generation of the moment of the switch, whatever changes meanwhile, and their number is the count, below the factor |
| SyncModes.LineKeepsItsBase | agent/pkg/status/controller/generic/hybrid_sync_manager.go:96-115 | Between two switches every delta carries the base read at the first, whatever becomes of the complete bundle, and their number is the count, below the factor |
| SyncModes.SuccessNamesSentBundleIff | agent/pkg/status/controller/generic/hybrid_sync_manager.go:117-126 | In every run, also those in which the transport refuses bundles: a success report in complete mode starts deltas whose base was sent exactly when the transport took a complete bundle and the one it took last has not changed since |
| SyncModes.GuardedRunsNameSentBundles | agent/pkg/status/controller/generic/hybrid_sync_manager.go:96-138 | If every success report in complete mode meets that condition, each delta of the run names a complete bundle sent before it |
| SyncModes.RefusedBundleStartsDeltas | agent/pkg/status/controller/generic/generic_status_sync_controller.go:222-232 | A run in which the first complete bundle is taken, the next one is refused but remembered as sent, and the late success of the first starts deltas on the refused one |
| SyncModes.OvertakenBundleStartsDeltas | agent/pkg/status/controller/generic/hybrid_sync_manager.go:96-126 | A run in which the complete bundle changes after it was taken, and its late success starts deltas on a generation never sent |
| SyncModes.InterruptedUpdateIsLostIff | agent/pkg/status/controller/generic/generic_status_sync_controller.go:117-128 | A report that arrives between the updates of the full and the complete bundle starts a line that lacks the update, under an unchanged full generation, exactly if the policy was known with the same clusters and other statuses |
| SyncModes.InterruptedUpdateIsLost | agent/pkg/status/controller/generic/generic_status_sync_controller.go:117-128 | A run that ends in such an update while the success of the first complete bundle is still to be reported: the change back is lost |
| SyncModes.LaterInterruptionIsHarmless | agent/pkg/status/controller/generic/generic_status_sync_controller.go:117-128 | A report between the updates of the complete and the delta bundle leaves what a report after the update would, up to the generation count of the delta |
| AgentBundles.ClustersPerPolicyBundle.UpdateObject | agent/pkg/status/bundle/grc/clusters_per_policy_bundle.go:35-66 | The in-place update is UpdateFull: statuses always taken over, a new generation exactly when the policy is new or its set of clusters changed |
| AgentBundles.ClustersPerPolicyBundle.DeleteObject | agent/pkg/status/bundle/grc/clusters_per_policy_bundle.go:69-90 | The policy goes away with a new generation; deleting an unknown policy changes nothing |
| AgentBundles.GetClusterStatuses | agent/pkg/status/bundle/grc/clusters_per_policy_bundle.go:112-140 | The three lists hold each reported cluster once and say the same as the report; the fourth holds all clusters |
| AgentBundles.ClusterListChanged | agent/pkg/status/bundle/grc/clusters_per_policy_bundle.go:156-176 | Counts and containment decide correctly whether the set of clusters changed |
| AgentBundles.CountsAndContents | agent/pkg/status/bundle/grc/clusters_per_policy_bundle.go:161-169 | Same number of clusters and every old one contained, if and only if the sets are equal |
| AgentBundles.ComplianceStatusBundle.UpdateObject | agent/pkg/status/bundle/grc/complete_compliance_status_bundle.go:38-75 | The in-place update is UpdateComplete: only clusters that are not compliant, a policy without any removed, a new generation exactly when the listed statuses changed |
| AgentBundles.ComplianceStatusBundle.DeleteObject | agent/pkg/status/bundle/grc/complete_compliance_status_bundle.go:78-99 | The policy goes away and the generation stays |
| AgentBundles.ListsChanged | agent/pkg/status/bundle/grc/complete_compliance_status_bundle.go:155-169 | Comparing lengths and containment finds a change if and only if the listed statuses differ |
| AgentBundles.GetNonCompliantAndUnknownClusters | agent/pkg/status/bundle/grc/complete_compliance_status_bundle.go:133-152 | Lists exactly the reported clusters that are not compliant |
| AgentDeltaBundle.DeltaComplianceStatusBundle.UpdateObject | agent/pkg/status/bundle/grc/delta_compliance_status_bundle.go:68-105 | The in-place update is UpdateChanges: an uncached policy is copied from the full bundle, otherwise exactly the clusters that differ from the records are recorded and listed |
| AgentDeltaBundle.DeltaComplianceStatusBundle.DeleteObject | agent/pkg/status/bundle/grc/delta_compliance_status_bundle.go:108-132 | Records are dropped only with a listed policy |
| AgentDeltaBundle.DeltaComplianceStatusBundle.SyncState | agent/pkg/status/bundle/grc/delta_compliance_status_bundle.go:143-156 | Base is the complete generation, the records are the full bundle, the transport identifier restarts |
| AgentDeltaBundle.DeltaComplianceStatusBundle.Reset | agent/pkg/status/bundle/grc/delta_compliance_status_bundle.go:159-165 | Nothing is listed any more and the records stay |
| AgentDeltaBundle.GetChangedClusters | agent/pkg/status/bundle/grc/delta_compliance_status_bundle.go:222-265 | The lists are the clusters whose reported status differs from the records before the call, and the records then have them |
| AgentDeltaBundle.UpdatePolicyComplianceStatus | agent/pkg/status/bundle/grc/delta_compliance_status_bundle.go:268-307 | A listed object describes what it listed with the newer statuses put over it |
| StatusController.HybridSyncManager.HandleTransportationAttempt | agent/pkg/status/controller/generic/hybrid_sync_manager.go:96-115 | In complete mode switch to deltas; in delta mode count, switch back at the factor without a reset, else reset |
| StatusController.HybridSyncManager.HandleTransportationSuccess | agent/pkg/status/controller/generic/hybrid_sync_manager.go:117-126 | Switches to deltas from complete mode only |
| StatusController.HybridSyncManager.HandleTransportationFailure | agent/pkg/status/controller/generic/hybrid_sync_manager.go:128-138 | Switches to complete mode from delta mode only |
| StatusController.PolicyStatusController.UpdateObject | agent/pkg/status/controller/generic/generic_status_sync_controller.go:117-128 | The bundles updated in their order perform one update step of the agent |
| StatusController.PolicyStatusController.DeleteObject | agent/pkg/status/controller/generic/generic_status_sync_controller.go:146-158 | The bundles together perform one delete step of the agent |
| StatusController.PolicyStatusController.SyncBundles | agent/pkg/status/controller/generic/generic_status_sync_controller.go:196-234 | One round sends and remembers what the three sync steps of the agent do, in this order |
| DeltaMerge.ConflationPreservesMeaning | manager/pkg/statussyncer/transport2db/bundle/delta_compliance_status_bundle.go:51-158 | Deltas of one base, cut into packs in any way and merged, leave the same table as written one by one |
| DeltaMerge.PackWritesItsTrailingLine | manager/pkg/statussyncer/transport2db/bundle/delta_compliance_status_bundle.go:51-69 | A pack of any deltas keeps version and base of its last and acts as the last run of deltas sharing that base |
| DeltaMerge.DeltaComplianceStatusBundle.InheritEvents | manager/pkg/statussyncer/transport2db/bundle/delta_compliance_status_bundle.go:51-69 | The in-place merge is Inherit: same base required, the newer bundle wins wherever both list a cluster |
| DeltaMerge.DeltaComplianceStatusBundle.InheritObjects | manager/pkg/statussyncer/transport2db/bundle/delta_compliance_status_bundle.go:71-102 | The rewritten list of objects is well formed and describes the overlay of old and new |
| DeltaMerge.AppendNewClusters | manager/pkg/statussyncer/transport2db/bundle/delta_compliance_status_bundle.go:121-139 | Adds exactly the clusters that the newer bundle does not list |
| ConflationRuns.EveryRunIsSafe | manager/pkg/statussyncer/transport2db/conflator/conflation_unit.go:86-251 | In every interleaving: at most one ticket in the ready queue, none while a bundle is in process, at most one bundle in process, its dependency holding until it is reported, and an idle unit that is not queued has nothing ready |
| ConflationRuns.EveryRunIsInOrder | manager/pkg/statussyncer/transport2db/conflator/conflation_unit.go:95-166 | For complete-state types the written versions increase strictly and what is pending or in flight is newer than all of them |
| ConflationBases.EveryWriteFollowsItsBase | manager/pkg/statussyncer/transport2db/conflator/conflation_unit.go:218-251 | In every interleaving of a unit with any types: a bundle is reported as processed only after the base version that its dependency asks for, the last one written if exact and otherwise a version not newer than it, or, without initial checks, before the first base |
| ConflationProgress.StepKeepsServiceableIff | manager/pkg/statussyncer/transport2db/conflator/conflation_unit.go:119-200 | A step keeps the promise that a queued unit has something ready if and only if an arrival, if it is one, leaves something ready |
| ConflationProgress.QueuedArrivalKeepsReadyIff | manager/pkg/statussyncer/transport2db/conflator/conflation_unit.go:86-116 | An arrival at a queued unit leaves something ready exactly when it is not accepted, meets its dependency, or another element is ready |
| ConflationProgress.OneLinkRunsAreServiceable | manager/pkg/statussyncer/transport2db/conflator/conflation_unit.go:119-126 | With one-link chains and dependants naming the newest base, GetNext never finds a queued unit empty |
| ConflationProgress.NewestFollowsOffers | manager/pkg/statussyncer/transport2db/conflator/conflation_unit.go:86-166 | The newest version an element knows is the newest ever offered to it |
| ConflationProgress.StrandedForever | manager/pkg/statussyncer/transport2db/conflator/conflation_unit.go:122-126 | After GetNext found a queued unit empty, nothing of the unit is ever dispatched again |
| ConflationStranding.NamingTheNewestBaseDoesNotSufficeForThreeLinks | manager/pkg/statussyncer/transport2db/syncer/dbsyncer/policies_db_syncer.go:108-162 | A concrete run with the three-link chain of the policy bundles strands a unit although every dependant names the newest base |
| ConflationDeltas.EveryRunConserves | manager/pkg/statussyncer/transport2db/conflator/delta_state_bundle_info.go:59-187 | With one base and failures during which nothing arrived, written, flying and pending packs are consecutive pieces of the accepted deltas, and a pending pack, also one restored by a failure, carries the transport metadata of its earliest contributor |
| ConflationDeltas.NoDeltaIsLost | manager/pkg/statussyncer/transport2db/conflator/delta_state_bundle_info.go:59-187 | From a new unit on, what was written, flies and is pending leaves the same table as every accepted delta on its own |
| ConflationDeltas.ConservedMeansSameTable | manager/pkg/statussyncer/transport2db/conflator/delta_state_bundle_info.go:105-117 | Packs cut from the accepted deltas have their effect on every table |
| ConflationDeltas.FailureKeepsPackIff | manager/pkg/statussyncer/transport2db/conflator/delta_state_bundle_info.go:145-169 | A failed pack takes effect again exactly when the line head is not newer than it or what arrived meanwhile covers its rows |
| ConflationLoss.AnArrivalDuringAFailureLosesThePack | manager/pkg/statussyncer/transport2db/conflator/delta_state_bundle_info.go:84-98 | A concrete run of a delta type with its registered dependency: an arrival during a failing pack makes its row disappear, which is then neither written nor held |
| ConflationLedger.ReportKeepsBooks | manager/pkg/statussyncer/transport2db/conflator/conflation_unit.go:142-166 | After a report, transport metadata marked as processed belongs to written bundles and complete-state elements offer the newest accepted one |
| ConflationLedger.ArriveKeepsBooks | manager/pkg/statussyncer/transport2db/conflator/complete_state_bundle_info.go:34-54 | After an arrival, each complete-state element offers the transport metadata of its newest accepted bundle |
| ConflationUnits.ConflationElement.Update | manager/pkg/statussyncer/transport2db/conflator/complete_state_bundle_info.go:34-54 | The in-place update is UpdateInfo: metadata given to a worker is replaced, other metadata overwritten |
| ConflationUnits.ConflationElement.UpdateDelta | manager/pkg/statussyncer/transport2db/conflator/delta_state_bundle_info.go:76-140 | The in-place update is UpdateDeltaInfo, with the line head and the preserved transport metadata |
| ConflationUnits.ConflationElement.GetBundleForProcessing | manager/pkg/statussyncer/transport2db/conflator/delta_state_bundle_info.go:54-73 | Hands out bundle and metadata; a delta element keeps its pack and moves its metadata to the last received |
| ConflationUnits.ConflationElement.HandleFailure | manager/pkg/statussyncer/transport2db/conflator/delta_state_bundle_info.go:145-169 | The in-place recovery is FailInfo |
| ConflationUnits.ConflationElement.MarkAsProcessed | manager/pkg/statussyncer/transport2db/conflator/complete_state_bundle_info.go:66-75 | Marks the metadata and releases the bundle unless a newer one is pending |
| ConflationUnits.ConflationUnit.Insert | manager/pkg/statussyncer/transport2db/conflator/conflation_unit.go:86-116 | The method performs the transition Insert and enqueues the unit exactly when it flags it |
| ConflationUnits.ConflationUnit.GetNext | manager/pkg/statussyncer/transport2db/conflator/conflation_unit.go:119-139 | Returns the first ready bundle in priority order and performs Dispatch, or nothing and changes nothing |
| ConflationUnits.ConflationUnit.ReportResult | manager/pkg/statussyncer/transport2db/conflator/conflation_unit.go:142-166 | The method performs the transition Report and enqueues the unit exactly when it flags it |
| ConflationUnits.ConflationUnit.AddToReadyQueueIfNeeded | manager/pkg/statussyncer/transport2db/conflator/conflation_unit.go:178-188 | Queues an idle unit exactly when an element is ready |
| ConflationUnits.ConflationUnit.GetNextReadyBundlePriority | manager/pkg/statussyncer/transport2db/conflator/conflation_unit.go:191-200 | The lowest index of a ready element, or -1 |
| ConflationUnits.ConflationUnit.CheckDependency | manager/pkg/statussyncer/transport2db/conflator/conflation_unit.go:218-251 | True exactly if the pending bundle may follow the last processed base version |
| ConflationUnits.ConflationUnit.IsCurrentOrAnyDependencyInProcess | manager/pkg/statussyncer/transport2db/conflator/conflation_unit.go:203-215 | Whether the element or a dependency up the chain is in process; the walk ends |
| ConflationUnits.ConflationUnit.GetBundlesMetadata | manager/pkg/statussyncer/transport2db/conflator/conflation_unit.go:258-271 | Exactly the transport metadata that the elements offer |
| ConflationUnits.ConflationReadyQueue.Dequeue | manager/pkg/statussyncer/transport2db/conflator/ready_queue.go:42-58 | First come, first served |
| Versions.NewerThanIsStrictTotalOrder | pkg/bundle/status/bundle_version.go:24-39 | Versions are strictly and totally ordered |
| Committer.OffsetCommitter.PeriodicCommit | manager/pkg/statussyncer/transport2db/transport/kafka/committer.go:44-70 | A round moves partitions only forward and only to the lowest pending offset or past the highest processed one; without refusals every partition gets there |
| Committer.OffsetCommitter.FilterMetadataPerPartition | manager/pkg/statussyncer/transport2db/transport/kafka/committer.go:72-110 | Per partition the lowest pending offset and one past the highest processed one |
| Committer.OffsetCommitter.CommitOffsets | manager/pkg/statussyncer/transport2db/transport/kafka/committer.go:113-139 | Commits only higher offsets, partition by partition until one is refused |
| RestartSafety.EveryRunIsRestartSafe | manager/pkg/statussyncer/transport2db/transport/kafka/committer.go:44-139 | Messages of each partition are read in the order of their offsets and handed to the units with the offsets the assembler gives them, also repeated ones: in every reachable state the newest accepted bundle of each leaf hub and complete-state type was written, or the message it came from (the last one, if assembled) lies, by its true offset, at or above the committed one |
| RestartSafety.CommitKeepsInv | manager/pkg/statussyncer/transport2db/transport/kafka/committer.go:44-70 | A round of commits passes no message from which pending complete-state metadata came last |
| RestartSafety.CommitsNeverGoBack | manager/pkg/statussyncer/transport2db/transport/kafka/committer.go:113-139 | Over every run no committed offset goes back, and only rounds of commits change any |
| RestartSafety.RoundPassesOpenFragmentIff | manager/pkg/statussyncer/transport2db/transport/kafka/committer.go:44-110 | A round commits past an open fragment exactly when it moves the partition and either all that is pending there lies above the fragment, or nothing is pending and a processed entry is not below it |
| RestartLoss.RoundPassesAnOpenFragment | manager/pkg/statussyncer/transport2db/transport/kafka/committer.go:44-110 | A run in which a round does so: half a payload is read at 5, a bundle at 6 is passed on as 5 and written, and 6 is committed |
| RestartLoss.RoundPassesAFirstMessage | manager/pkg/statussyncer/transport2db/transport/kafka/committer.go:44-110 | A run in which a round commits past the first message of a bundle assembled from 5 and 6 while that bundle is pending |
| RestartLoss.RoundPassesADeltaInProcess | manager/pkg/statussyncer/transport2db/conflator/delta_state_bundle_info.go:54-73 | A run in which a merged delta pack is in process, names its last message, and a round commits past its first one: neither written nor read again |
| RestartTable.RestartKeepsTable | manager/pkg/statussyncer/transport2db/transport/kafka/committer.go:44-139 | After a restart between deltas a new unit over the old table reads the deltas again from one that was written or is next: in every interleaving its table lacks what it still holds and what is pending at the leaf hub |
| RestartTable.TableOfDeltasRead | manager/pkg/statussyncer/transport2db/conflator/conflation_unit.go:218-251 | A new unit that reads only deltas of one base writes or holds exactly these over the table it found |
| RestartTable.RereadIsHarmless | manager/pkg/statussyncer/transport2db/bundle/delta_compliance_status_bundle.go:51-158 | Deltas written again from a point already written leave the table of each written once |
| RestartTable.SkippedAreLostIff | manager/pkg/statussyncer/transport2db/transport/kafka/committer.go:44-110 | Deltas neither written nor read again are missing exactly when they change a row that no later one names |
| RestartSafety.RoundPassesFirstMessageIff | manager/pkg/statussyncer/transport2db/transport/kafka/committer.go:44-110 | A round commits past the first message of a pending bundle exactly when it moves the partition and all that is pending there lies above that message |
| RestartSafety.SparingRunsAreRebuildable | manager/pkg/statussyncer/transport2db/transport/kafka/committer.go:44-139 | In runs without such a round, and with bundles passed on no higher than their first message, all messages of the newest bundles that are not written, and all open fragments, will be read again |
| BatchBuilder.PoliciesBatchBuilder.Build | manager/pkg/statussyncer/transport2db/db/postgresql/batch/policies_batch_builder.go:98-113 | The database accepts the batch exactly when nothing had to be flushed and no policy loses too many clusters. Run on the table it names, with the rows of all leaf hubs, it then does what the calls asked for to the rows of its leaf hub and nothing to others. It is empty exactly if there were no calls |
| HubDatabase.RowsOfWithRows | manager/pkg/statussyncer/transport2db/db/postgresql/batch/policies_batch_builder.go:44-96 | When one leaf hub is given rows it has exactly these, and every other leaf hub keeps its own |
| HubDatabase.HubsCommute | manager/pkg/statussyncer/transport2db/db/postgresql/batch/policies_batch_builder.go:44-96 | What is done to the rows of two leaf hubs may be done in either order |
| BatchBuilder.PoliciesBatchBuilder.RecordedRowsAreTheCalls | manager/pkg/statussyncer/transport2db/db/postgresql/batch/base_batch_builder.go:63-109 | Flushed and trailing rows of each kind, decoded with the leaf hub they name, are the calls in order, none lost or repeated, and every flushed statement has placeholders $1 to $n in order, n its argument count below 65536 |
| BatchBuilder.PoliciesBatchBuilder.NothingFlushedIff | manager/pkg/statussyncer/transport2db/db/postgresql/batch/base_batch_builder.go:63-109 | Nothing was flushed exactly up to 13107 inserts, 65534 policy deletes, 21845 policy updates and 16383 cluster updates |
| BatchBuilder.WrappedIsRefused | manager/pkg/statussyncer/transport2db/db/postgresql/batch/base_batch_builder.go:114-137 | Flushed statements, queued with their slice as one argument, are refused whenever there is one |
| BatchBuilder.PoliciesBatchBuilder.UpdateClusterCompliance | manager/pkg/statussyncer/transport2db/db/postgresql/batch/policies_batch_builder.go:59-76 | Adds one row, flushing before the limit, and keeps all recorded rows |
| BatchBuilder.PoliciesBatchBuilder.BuildClusterDeletes | manager/pkg/statussyncer/transport2db/db/postgresql/batch/policies_batch_builder.go:101-106 | One statement per policy, in any order, deletes exactly the clusters asked for of the leaf hub |
| BatchBuilder.GenerateInsertOrUpdateArgs | manager/pkg/statussyncer/transport2db/db/postgresql/batch/base_batch_builder.go:167-182 | Placeholders $1 to $(rows x columns), each once and in order |
| BatchBuilder.GenerateArgsList | manager/pkg/statussyncer/transport2db/db/postgresql/batch/base_batch_builder.go:184-201 | Consecutive placeholders from the starting index on |
| FullStateSync.HandleClustersPerPolicyBundle | manager/pkg/statussyncer/transport2db/syncer/dbsyncer/policies_db_syncer.go:170-211 | Succeeds exactly when the difference fits one statement of each kind; then the rows of the leaf hub are exactly those of the bundle, otherwise unchanged; rows of other leaf hubs never change; nothing is sent exactly if the rows already were the bundle's |
| FullStateSync.HandleAgain | manager/pkg/statussyncer/transport2db/syncer/dbsyncer/policies_db_syncer.go:170-211 | After a success, handling the same bundle again sends nothing |
| FullStateSync.DifferenceIsExact | manager/pkg/statussyncer/transport2db/syncer/dbsyncer/policies_db_syncer.go:213-265 | A log naming each differing row once, applied to any table, gives exactly the target |
| FullStateSync.NoDifferenceIff | manager/pkg/statussyncer/transport2db/syncer/dbsyncer/policies_db_syncer.go:213-265 | The difference is empty if and only if table and target are equal |
| FullStateSync.FitsIff | manager/pkg/statussyncer/transport2db/syncer/dbsyncer/policies_db_syncer.go:203-205 | The limits of the batch are limits on the numbers of new, changed and vanished rows, which the table and the bundle determine |
| FullStateSync.HandleClusterPerPolicy | manager/pkg/statussyncer/transport2db/syncer/dbsyncer/policies_db_syncer.go:213-243 | One policy adds exactly its differences, each row once |
| FullStateSync.HandleClustersWithSpecificCompliance | manager/pkg/statussyncer/transport2db/syncer/dbsyncer/policies_db_syncer.go:247-265 | Inserts what is missing, updates what differs, and returns the clusters not handled yet |
| StatusSync.HandleCompleteComplianceBundle | manager/pkg/statussyncer/transport2db/syncer/dbsyncer/policies_db_syncer.go:271-315 | Succeeds exactly when the changes fit; then every row of the leaf hub is as listed or else compliant; rows of other leaf hubs never change; nothing is sent exactly if the rows were so and every listed row exists |
| StatusSync.ImpliedIsApplied | manager/pkg/statussyncer/transport2db/syncer/dbsyncer/policies_db_syncer.go:317-352 | The logged updates give the implied statuses on every table |
| StatusSync.HandlingCompleteAgain | manager/pkg/statussyncer/transport2db/syncer/dbsyncer/policies_db_syncer.go:271-315 | Handling a complete bundle again changes nothing, and sends nothing if and only if every listed row exists |
| StatusSync.HandlePolicyCompleteStatus | manager/pkg/statussyncer/transport2db/syncer/dbsyncer/policies_db_syncer.go:317-352 | One policy adds exactly its listed differences and its rows that turn compliant |
| StatusSync.HandleDeltaComplianceBundle | manager/pkg/statussyncer/transport2db/syncer/dbsyncer/policies_db_syncer.go:355-396 | Succeeds exactly up to 16383 rows; then exactly the existing rows of the leaf hub among them take the statuses, and no other leaf hub changes |
| ComplianceTables.ComplianceTable.BuildClusterSets | manager/pkg/statussyncer/transport2db/db/postgresql/postgresql.go:138-161 | One entry per policy with rows, holding its clusters by status |
| ComplianceTables.ComplianceTable.Select | manager/pkg/statussyncer/transport2db/db/postgresql/postgresql.go:109-136 | Every row of the leaf hub, or every one that is not compliant, once |
| ComplianceTables.ComplianceTable.AddRow | manager/pkg/statussyncer/transport2db/db/policy_cluster_sets.go:22-24 | Adding one row of the table keeps every policy described: its clusters by status, no other policy changed |
| Fragments.FragmentsRoundTrip | pkg/kafka/kafka-consumer/message_fragment_collection.go:39-86 | Fragments of a payload longer than the limit that reach one collection (which the keys of the producer prevent, see FragmentKeys), in any order with repetitions, complete it exactly when all were delivered, never with the first, and then assemble to the payload and nothing else |
| FragmentKeys.ProducedPayloadsAreNeverAssembled | pkg/kafka/kafka-producer/kafka_producer.go:83-97 | Over every run of fragments as the producer keys them, under the message key with their index appended, the consumer passes on no assembled message |
| FragmentKeys.SharedKeyIsAssembledIff | pkg/kafka/kafka-consumer/kafka_message_assembler.go:23-58 | If the fragments of a payload shared a key, the message that brings the last missing one would be passed on with the payload, and none before |
| Fragments.SplitPayloadIntoChunks | pkg/kafka/kafka-producer/kafka_producer.go:103-118 | Chunks of the limit in order and a shorter rest |
| Fragments.GetMessageFragments | pkg/kafka/kafka-producer/kafka_producer.go:73-101 | One message up to the limit, otherwise fragments with 32-bit size and offset headers |
| MessageAssembler.MessageFragmentsCollection.Add | pkg/kafka/kafka-consumer/message_fragment_collection.go:39-66 | Ignores what is out of bounds or repeated, otherwise counts and keeps the highest and lowest message offsets |
| MessageAssembler.MessageFragmentsCollection.Assemble | pkg/kafka/kafka-consumer/message_fragment_collection.go:70-86 | Every covered byte comes from a fragment that covers its place |
| MessageAssembly.EveryRunKeepsInv | pkg/kafka/kafka-consumer/kafka_message_assembler.go:23-144 | With increasing offsets and well-formed fragments, every open collection has a partition entry that is at most its lowest offset |
| AssemblySources.PayloadIsOfOneMessage | pkg/kafka/kafka-consumer/kafka_message_assembler.go:23-58 | Over every run a payload that is passed on consists of fragments read under its key, on its partition and with one timestamp, that of the last one |
| AssemblySources.OlderFragmentsAreIgnored | pkg/kafka/kafka-consumer/kafka_message_assembler.go:23-45 | A fragment older than its collection changes nothing, and a collection gives way only to a newer one |
| MessageAssembly.PlainMessagesStayBelow | pkg/kafka/kafka-consumer/kafka_message_assembler.go:92-102 | A whole message is never passed on with an offset above an open fragment |
| MessageAssembly.CommittingPassesOpenIff | pkg/kafka/kafka-consumer/kafka_message_assembler.go:92-102 | One past the offset given to a whole message, which the committer commits, is still below all open fragments exactly when no open collection begins at the entry of the partition |
| MessageAssembly.AssembledMessageStaysBelowIff | pkg/kafka/kafka-consumer/kafka_message_assembler.go:79-88 | An assembled message stays below the open fragments exactly when its collection did not hold the lowest offset or ended before all others began |
| MessageAssembly.StepKeepsTightIff | pkg/kafka/kafka-consumer/kafka_message_assembler.go:35-45 | An entry stays the lowest offset of an open collection unless a newer fragmentation replaces the collection that holds it, and exactly then |
| AssemblyLoss.SupersededEntryStays | pkg/kafka/kafka-consumer/kafka_message_assembler.go:35-45 | A payload begun at 5 and begun again at 6: the entry stays at 5 |
| AssemblyLoss.AssembledAboveAnOpenFragment | pkg/kafka/kafka-consumer/kafka_message_assembler.go:79-88 | Half a payload at 5, half of another at 6, the rest of the first at 7: it is passed on as 7 while 6 is open |
| MessageAssembly.StaleForever | pkg/kafka/kafka-consumer/kafka_message_assembler.go:60-127 | An entry that outlived its collection stays for good, and every later message of the partition carries its offset |
| MessageAssembler.KafkaMessageAssembler.ProcessFragmentInfo | pkg/kafka/kafka-consumer/kafka_message_assembler.go:23-58 | The method performs the transition Process and returns an assembled message, on the partition of the fragment, exactly when the fragment completes its collection |
| MessageAssembler.KafkaMessageAssembler.AssembleCollection | pkg/kafka/kafka-consumer/kafka_message_assembler.go:60-89 | Removes the collection, passes the bytes on, and recomputes the lowest offset if it was this one |
| MessageAssembler.KafkaMessageAssembler.FindLowestOffsetOnPartition | pkg/kafka/kafka-consumer/kafka_message_assembler.go:130-144 | The lowest offset among the open collections of the partition |
| Labels.GetLabels | manager/pkg/nonk8sapi/managedclusters/patch.go:240-288 | The first patch that is not supported is the error; otherwise the keys to add and remove are disjoint and act on every label map as the patches one by one (section 3 of RFC 6902) |
| LabelDocuments.PatchesFollowStandard | manager/pkg/nonk8sapi/managedclusters/patch.go:240-288 | Patches on /metadata/labels/ with a key read as the standard says are all supported, and change the labels as evaluating them on the whole document of the cluster does (RFC 6901 and RFC 6902), which changes nothing else; only the removal of a missing label is an error there and not here |
| LabelDocuments.LabelPatchIsRead | manager/pkg/nonk8sapi/managedclusters/patch.go:252-276 | For every key without escapes, add and remove on /metadata/labels/ and the key are supported and set or remove exactly that key |
| LabelDocuments.RefusedPatches | manager/pkg/nonk8sapi/managedclusters/patch.go:252-287 | A path that is not under /metadata/labels/ is one error, another operation on such a path is the other, and nothing else is refused |
| Labels.MergedComposes | manager/pkg/nonk8sapi/managedclusters/patch.go:152-196 | The merged row is disjoint and acts as the old row followed by the request |
| Labels.MergedPatches | manager/pkg/nonk8sapi/managedclusters/patch.go:152-196 | The merged row acts as the old row followed by the patches one by one |
| Labels.MergeRow | manager/pkg/nonk8sapi/managedclusters/patch.go:152-196 | The loops compute the merged row |
| Labels.LabelIsUnescapedIff | manager/pkg/nonk8sapi/managedclusters/patch.go:252-263 | The key is read as section 4 of RFC 6901 says exactly if it has at most one escape and that is a slash |
| Labels.SecondSlashStaysEscaped | manager/pkg/nonk8sapi/managedclusters/patch.go:252-263 | A key with two slashes, the second of which stays escaped |
| Labels.ApplyToCluster | agent/pkg/spec/controller/syncers/managed_cluster_label_bundle.go:171-179 | Labels are set, then deleted |
| Labels.TrimmingIsInvisibleIff | manager/pkg/specsyncer/db2transport/syncer/statuswatcher/managed_cluster_labels_status_watcher.go:141-150 | A trimmed row acts as before exactly on clusters that carry none of the trimmed keys |
| Labels.TrimDeletedKeys | manager/pkg/specsyncer/db2transport/syncer/statuswatcher/managed_cluster_labels_status_watcher.go:141-153 | Keeps exactly the deleted keys still in the status, and comparing lengths tells whether any went away |
| LabelRace.EveryRunIsSerialized | manager/pkg/specsyncer/db2transport/db/postgresql/postgresql.go:254-271 | In every interleaving of patchers and trimmers the row is the successful writes applied in version order, each request once if it succeeded and never if it failed |
| LabelRace.RowActsAsRequests | manager/pkg/nonk8sapi/managedclusters/patch.go:152-196 | The row acts as all successful requests in order on clusters that carry none of the trimmed keys, and stays disjoint |
| LabelPatches.PatchLabels | manager/pkg/nonk8sapi/managedclusters/patch.go:82-97 | With retries a request takes effect at most once, exactly once on success, and fails only if every attempt was overtaken or met an error of the database |
| LabelPatches.UpdateLabels | manager/pkg/nonk8sapi/managedclusters/patch.go:100-150 | One attempt, with reads and writes of the database that may fail: takes effect once or not at all, and succeeds whenever nothing interferes |
| AuthorizationValues.FilterNeverShowsMore | manager/pkg/nonk8sapi/managedclusters/authorization.go:60-156 | Whatever the response: with terms valued in the documents of the engine and operands in the payload of the cluster, under the three-valued logic of SQL, the filter selects no row that the queries do not allow, if the references it contains are into the cluster and to strings, null or nothing |
| AuthorizationValues.FilterSelectsByValueIff | manager/pkg/nonk8sapi/managedclusters/authorization.go:60-156 | It then selects exactly the rows for which a query is true and compares nothing but strings, or the only query is empty |
| AuthorizationValues.OperandOfTerm | manager/pkg/nonk8sapi/managedclusters/authorization.go:165-239 | A string is translated to itself, and a reference to the path of keys after the first one, unless neither its variable is input nor its first key is cluster; nothing else is translated |
| AuthorizationValues.TextIsValue | manager/pkg/nonk8sapi/managedclusters/authorization.go:165-239 | For a row, the text of a translated operand is the value of its term, NULL where there is no string |
| AuthorizationValues.BooleanIsReadAsText | manager/pkg/nonk8sapi/managedclusters/authorization.go:220-239 | A boolean of the payload compared with the text "true": selected but not allowed |
| AuthorizationValues.OtherReferenceIsReadInCluster | manager/pkg/nonk8sapi/managedclusters/authorization.go:207-218 | A reference to the name of the user is looked up in the cluster: selected but not allowed |
| AuthorizationValues.NegatedMissingIsNotSelected | manager/pkg/nonk8sapi/managedclusters/authorization.go:241-261 | A negated equality on a missing value: allowed but not selected |
| AuthorizationMeaning.FilterNeverWidens | manager/pkg/nonk8sapi/managedclusters/authorization.go:80-156 | Read with SQL precedence the filter selects only rows that a query allows, and all of them where every query is translated or the only query is empty |
| AuthorizationMeaning.FilterSelectsIff | manager/pkg/nonk8sapi/managedclusters/authorization.go:80-156 | It selects a row exactly when a query holds all of whose terms are translated, or the only query is empty; an untranslated term, negated or not, makes its query select nothing |
| AuthorizationMeaning.FilterIsWellFormedIff | manager/pkg/nonk8sapi/managedclusters/authorization.go:116-156 | The filter is one formula exactly when every expression has an array of terms; otherwise its parentheses do not balance |
| AuthorizationMeaning.ExpressionWithoutTermsIsMalformed | manager/pkg/nonk8sapi/managedclusters/authorization.go:116-156 | A query with an expression that has no terms, whose filter is no formula |
| AuthorizationClause.ClauseIsConjunctionIff | manager/pkg/nonk8sapi/managedclusters/patch.go:221-238 | Put behind the tests of name and leaf hub without parentheses, the filter is conjoined with them exactly on rows of that cluster and on rows that no later query allows |
| AuthorizationClause.OneQueryIsConjoined | manager/pkg/nonk8sapi/managedclusters/patch.go:221-238 | With at most one query that is not empty the clause is the conjunction of name, leaf hub and filter |
| AuthorizationClause.SecondQuerySelectsOthers | manager/pkg/nonk8sapi/managedclusters/patch.go:221-238 | With two queries a row of another cluster is selected when the second holds of it |
| AuthorizationSql.FilterByAuthorization | manager/pkg/nonk8sapi/managedclusters/authorization.go:60-99 | The tokens written for a response, and the constant filters for errors, no queries and a single empty query |
| AuthorizationSql.HandleQuery | manager/pkg/nonk8sapi/managedclusters/authorization.go:101-114 | The tokens of one query |
| AuthorizationSql.HandleExpression | manager/pkg/nonk8sapi/managedclusters/authorization.go:116-156 | The tokens of one expression |
| AuthorizationSql.HandleTermsArray | manager/pkg/nonk8sapi/managedclusters/authorization.go:241-261 | The tokens of an array of terms, with constants for what is not translated |

## Left out

- PipelineRuns.TableInEveryInterleaving: what is written per bundle is a value; `HandledPipeline.HandleLine` shows the handlers doing the same, but classes of handlers and unit are not run in one program. Deltas are delivered once and in order, full and complete bundles may be lost, repeated or overtaken, except that the complete bundle at the end arrives between its base and the deltas sent after it, as one partition delivers it. Packs that fail while something newer is pending are the subject of `ConflationDeltas.FailureKeepsPackIff`.
- EndToEnd.TableFollowsLeafHub: an update of all bundles is one step; `SyncModes.InterruptedUpdateIsLostIff` says what a delivery report in between does.
- RestartSafety.EveryRunIsRestartSafe: messages of a partition are read in increasing order of their offsets, as the broker delivers them, until a restart; does not cover delta types, for which `RestartLoss.RoundPassesADeltaInProcess` shows that it is false; the snapshot over all units is one step, although the original reads unit by unit. For an assembled bundle only its last message is guaranteed; `RestartSafety.SparingRunsAreRebuildable` says when all are.
- RestartTable.RestartKeepsTable: the deltas that are read again are one contiguous rest of those sent; full and complete bundles that are read again as well are the subject of `PipelineRuns.TableInEveryInterleaving`, which starts from any table.
- MessageAssembly.EveryRunKeepsInv: the two nested maps (partition, then key) are one map over pairs; the removal of an emptied inner map is then not visible.
- Fragments.FragmentsRoundTrip: is stated for fragments that reach one collection; `FragmentKeys` says which do. Fragments that no producer writes (offset plus length beyond 32 bits) are not given to `Assemble`.
- AuthorizationMeaning.FilterNeverWidens: reads the filter with arbitrary truth of its atoms; `AuthorizationValues` gives them the values of terms and payload. Quoting of literals is not modelled, and of the statement around the filter only the clause of `AuthorizationClause` is.
- AuthorizationValues.FilterNeverShowsMore: how the database prints arrays and objects is a parameter; a reference to the whole cluster, whose comparison the database refuses, counts as unknown; terms that are no equalities have any truth.
- BatchBuilder.PoliciesBatchBuilder.Build: the database is a map changed by one transaction; a batch with a wrong number of arguments changes nothing. The text of a statement decides which table and columns it is for, but is not parsed as SQL; the error column, which is always none, types and constraints of the table are not modelled.
- LabelRace.EveryRunIsSerialized: errors that leave open whether a write took effect are not modelled (`LabelPatches` has reads and writes that fail without effect); a row is identified by its key, so a second INSERT fails.
- Conflation.Unit: versions, offsets and counters are unbounded integers; wrap-around of 64-bit counters is not modelled. Only the 32-bit sizes and offsets of fragments wrap.
- The conflation manager's map of units is the map of `RestartSafety.System`; creating units from registrations in priority order is taken as given.
- Objects that survive a delta merge are shared between old and new bundle in the original; in the model lists are copied.
- Bundles are values copied when sent: JSON, compression and message keys with transport identifiers are not modelled.
- The hybrid sync manager is modelled enabled, with a positive switch factor and full aggregation; with a factor of zero no callbacks are set and only complete bundles are sent.
- The ready queue's blocking, the dispatcher's goroutines, tickers, worker pools and locks: each locked method is one step.
- The generic, managed-cluster and local-spec diffs, local policies and the minimal compliance bundle repeat the policies diff in simpler form.
- Filling in missing leaf hub names, retry intervals, statistics, HTTP handling, Kubernetes clients and the operator have no property of the kind stated here.
