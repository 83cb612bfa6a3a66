# Skill sync sidecar: a verified model

The sidecar keeps directories of agent skills equal on several devices through one shared remote, and places
links or copies of them into the directories that tools read. This project models its engine and proves what
it keeps, what it recovers from, and where it does not.

**Sync.** A device has a local root, a base record and a cache of the remote index. A cycle downloads, classifies
every skill from (base, local, remote), plans under a writer policy, pulls, uploads and records a new base.
`SyncState`, `SyncPlan` and `Remote` hold the decisions and the store; `SyncCycle` describes a cycle as a list of
atomic effects of which a crash leaves a prefix; `SyncApply`, `SyncDevice` and `SyncDaemon` are the code that runs,
changed in place and failing anywhere, shown to stop at such a prefix; `SyncRecovery` is one device alone;
`WriterPolicies` is the gate; `Cluster` is any number of devices interleaved; `ApprovedPush` and `Rebasing` are the
two other writers of base records.

**Fan-out.** `FanoutPlan` decides, `FanoutCell` executes and undoes one entry, `FanoutRuns` is whole runs as a
function, `FanoutState` and `FanoutFleet` are the same runs as code over mutable directories.

**Transactions.** `Apply` installs with backups and rolls back; `LegacyMigration` replaces links all or nothing.

**Records and hashing.** `Tombstones` is the pruned store of delete records; `Hashing`, `SkillIds`, `SkillWalk` and
`SnapshotStage` are the content hash, the ids, the walk and the archive round trip.

A skill is called *skewed* when its plan is a no-op although its two sides differ: it is local-only, acknowledged as an
override, or deprecated. It is *undisturbed* when it is not skewed or nothing is pushed.

Contents are compared through injective hashes, so a hash is modelled by what it hashes. File system primitives
(copy, move, rename, link, unlink, put) are atomic; each may fail, and which ones fail is a parameter of every
operation that calls them. Identifiers of runs, installs and records are fresh. Local roots are flat.

## Results that are not what one might hope

Each is stated together with the exact condition under which the hoped-for property does hold, in terms of the
inputs and of the primitives that fail.

- Rolling back a fan-out run restores everything if and only if no recovery step failed during the run
  (`FanoutRuns.RollbackRestoresRoot`).
- Rolling back an install restores the root if and only if no item that is reached meets a failing rename and a
  failing recovery, unless an earlier item installs to the same target (`Apply.RollbackIsExact`).
- A failed migration ends with every link as it was if and only if no link that is reached is lost by its own
  handler or fails to be put back (`LegacyMigration.FailedMigrationRestoresLinks`). The record says it was rolled
  back even when the failing replacement lost its own link.
- A migration leaves its link backups beside the record, also when it is rolled back and even when it replaced no
  link (`LegacyMigration.HarmlessAttemptBlocksRetry`). A retry from the same record directory completes if and only if
  the selection is ready, nothing fails this time, and the first attempt failed before making its first backup
  (`LegacyMigration.RetryCompletesIff`).
- A push rebuilds the index from the local root. It therefore publishes or drops every skewed skill
  (`SyncRecovery.PushOverwritesSkewedSkills`). It also clears every deprecated mark, of unskewed skills as well
  (`WriterPolicies.PushClearsDeprecation`); a mark set since the download goes unnoticed, because the check before a
  push compares hashes only (`Cluster.ConcurrentDeprecationGoesUnnoticed`).
- It also renames every archive to the shared source name: a push keeps the remote intact if and only if the
  archives it does not upload exist under that name (`Cluster.PushKeepsIntactIff`, `Cluster.IntegrityIff`,
  `Cluster.ForeignNamingBreaksIntegrity`).
- A completed cycle that only pulled keeps base entries of the pulled skills alone (`SyncRecovery.BaseAfterCycle`). The
  next edit of any other skill, on one side only, is then a conflict, and its deletion on one side looks like a new
  skill on the other; this happens if and only if the cycle pushed nothing and did not pull the skill
  (`SyncRecovery.EditAfterCycleConflictsIff`).
- Between removing the old skill and renaming the new one, an install is not recoverable by running again: the
  skill becomes a conflict (`SyncRecovery.TornInstallConflicts`).
- A base record written by an approved push or a restore turns a pending pull of another skill into a push of the
  older version (`Rebasing.PendingPullBecomesPush`).
- An ignored path without a slash is pruned at every depth but filtered only at the top
  (`SkillWalk.BareNameDiverges`). Pruning and filtering agree on a tree if and only if the filter drops everything
  below each directory at which only the pruning walk stops (`SkillWalk.PrunedWalkIsFilteredIff`), which paths
  with a slash always ensure.

## Model

| member | source | states |
|---|---|---|
| SyncState.ClassificationIsMerge | src/skill_sync_sidecar/sync_state.py:115-158 | the classification by hashes decides the textbook three-way merge: sides agree, only the remote moved, only the local side moved, or both moved apart, each as an if-and-only-if |
| SyncState.StatusTable | src/skill_sync_sidecar/sync_state.py:135-158 | every status as an if-and-only-if over who holds what, independent of the order of the branches |
| SyncState.SpecialStatuses | src/skill_sync_sidecar/sync_state.py:76-133 | exactly when a local-only mark, an override or a deprecated entry takes a skill out of the merge; otherwise the hashes decide |
| SyncState.ClassificationIsSymmetric | src/skill_sync_sidecar/sync_state.py:135-158 | exchanging local and remote mirrors every status, so neither side is favoured |
| SyncState.UniqueBySkillId | src/skill_sync_sidecar/sync_state.py:317-331 | entries without a skill id are skipped; the dictionary of the others is refused exactly when an id repeats, and the reported ids are exactly the repeated ones; otherwise every entry is found under its id |
| SyncPlan.PlannedActionMeans | src/skill_sync_sidecar/sync_plan.py:58-136 | a planned pull means the local side is still at the base, a planned push that the remote is, a plain no-op that the sides agree, and no action leaves its policy |
| SyncPlan.ActionByStatus | src/skill_sync_sidecar/sync_plan.py:58-136 | the planned action of every status, each action as an if-and-only-if over status, admission and policy; whatever a policy closes is blocked |
| SyncPlan.InstallableByTarget | src/skill_sync_sidecar/sync_apply.py:27-48 | which scopes and which manifest targets each install target takes |
| SyncPlan.BuildSyncPlan | src/skill_sync_sidecar/sync_plan.py:28-55 | every skill known to any side is planned once, and the blocked counter is the number of blocked skills |
| Remote.RemoteStore.FetchArchives | src/skill_sync_sidecar/remote.py:264-274 | while other devices keep uploading, a reader holding any index the remote ever stored completes its download if the remote was intact; otherwise it stops only at an archive the index names, the cache lacks and the remote did not have when it began |
| Remote.RemoteStore.DownloadSnapshot | src/skill_sync_sidecar/remote.py:259-274 | the cache gets the current index, and a complete download is closed under it; it fails only for a file that was missing when it began, so on an intact remote exactly when there is no index |
| Remote.RemoteStore.UploadArchives | src/skill_sync_sidecar/remote.py:234-256 | the archive puts of an upload are distinct, wanted and not skipped, change nothing else, and keep every stored index intact after each single put; all of them are made exactly when the connection lasts for the needed ones |
| Remote.RemoteStore.UploadSnapshot | src/skill_sync_sidecar/remote.py:234-256 | archives first and index last; complete if and only if the connection lasts for the needed archives and the index: a covered index keeps the remote intact after every put, a broken connection leaves the old index, and a complete upload leaves the remote intact if and only if the index was covered |
| SyncCycle.PullAndPushIds | src/skill_sync_sidecar/sync_apply.py:260-265 | the executed pulls and pushes are exactly the skills planned so |
| SyncCycle.CrashSides | src/skill_sync_sidecar/sync_apply.py:145-165 | what each side and the base hold for every skill after any prefix of a cycle's effects |
| SyncApply.PullPlanInstallsPrefix | src/skill_sync_sidecar/sync_apply.py:193-244 | whatever fails, running a pull plan installs a prefix of the pulled skills, all of them exactly when it reports no error, and loses a skill only to a failed recovery |
| SyncApply.PullPlanStopsAtFault | src/skill_sync_sidecar/apply.py:272-280 | a pull plan installs the skills before the first one with a fault that matters: a failing copy or rename, or, for a skill that is there already, a failing backup or removal |
| SyncApply.UploadOrder | src/skill_sync_sidecar/sync_apply.py:300-309 | the pushed skills can be listed in the order their archives were uploaded |
| SyncApply.ActionSkillIds | src/skill_sync_sidecar/sync_apply.py:264-265 | lists exactly the skills planned with the given actions, each once |
| SyncApply.CountUnsupported | src/skill_sync_sidecar/sync_apply.py:80-103 | counts the planned deletions and the pulls the target does not take |
| SyncApply.CountersDecideGate | src/skill_sync_sidecar/sync_apply.py:140-143 | both counters are zero if and only if every skill of the cycle may run |
| SyncDevice.Device.PullSkills | src/skill_sync_sidecar/sync_apply.py:156-161 | the local root gets the pulled entries before the first one whose install has a fault that matters, less a skill lost to a failed recovery |
| SyncDevice.Device.PushSkills | src/skill_sync_sidecar/sync_apply.py:278-297 | the remote gets a prefix of the pushed archives and, when all are up, an index of the whole local root; all are up if and only if the connection lasts; it is intact afterwards if and only if that index is closed |
| SyncDevice.Device.RemoteMatchesCache | src/skill_sync_sidecar/sync_apply.py:268-275 | true exactly when both indexes exist and name the same content for every skill |
| SyncDevice.Device.RunPulls | src/skill_sync_sidecar/sync_apply.py:153-159 | staging, faults and the record decide how the pulls end and after how many installs |
| SyncDevice.Device.RunPushes | src/skill_sync_sidecar/sync_apply.py:161-165 | the connection and the record decide how the pushes end and after how many effects |
| SyncDevice.Device.DecideActions | src/skill_sync_sidecar/sync_apply.py:131-153 | refuses exactly when the gate is closed, or when something is to be pushed and the remote no longer holds the cached hashes |
| SyncDevice.Device.RunEffects | src/skill_sync_sidecar/sync_apply.py:155-190 | an admitted execution stops after a prefix of the cycle's effects; its error, its success and the number of effects are read off the faults, the connection and whether the cache can be staged |
| SyncDevice.Device.ExecuteSyncApply | src/skill_sync_sidecar/sync_apply.py:119-190 | a refused execution changes nothing and puts nothing; any other is a cycle stopped after a prefix of its effects; it succeeds if and only if every skill may run, the remote holds the cached contents when something is pushed, the cache stages and no pulled skill meets a fault that matters, the connection lasts for the pushes and the index, and the records can be written |
| WriterPolicies.GateByStatus | src/skill_sync_sidecar/sync_cycle.py:52-69 | for every skill, whether it stops a cycle, as a table over its status: conflicts and one-sided deletions always, new skills unless admitted, and what the policy closes |
| WriterPolicies.PolicyLimitsEffects | src/skill_sync_sidecar/sync_plan.py:122-136 | after every prefix of a cycle, pull-only has left the remote alone, push-only the local root, no-writes the whole machine |
| WriterPolicies.PushKeepsPublishedSkills | src/skill_sync_sidecar/sync_apply.py:278-297 | a published skill stays in the new index if and only if it is not deprecated or the device has it, so no cycle drops one that is not deprecated |
| WriterPolicies.PushClearsDeprecation | src/skill_sync_sidecar/sync_apply.py:278-297 | after an index put no entry carries a deprecated mark, and a mark the remote carried survives any prefix of a cycle if and only if no index was put; then the entry is there without it or gone, as the local root has it |
| SyncDaemon.CountersDecideStop | src/skill_sync_sidecar/sync_cycle.py:52-56 | the cycle's own gate stops exactly when some skill is blocked or an admitted deletion is planned |
| SyncDaemon.StopsByStatus | src/skill_sync_sidecar/sync_cycle.py:42-56 | which skills stop a cycle, as a table over status, admission and policy |
| SyncDaemon.RunSyncCycle | src/skill_sync_sidecar/sync_cycle.py:23-88 | each outcome as an if-and-only-if: a dry run when the download succeeded, a blocked cycle when a skill stops it, a complete one when nothing stops it and nothing it needs fails; the download fails only for missing files; anything not executed changes neither side |
| SyncDaemon.RunTurn | src/skill_sync_sidecar/daemon.py:56-76 | a turn's status and the machine it leaves are decided by its inputs: complete exactly when the cycle is and its record can be copied, and then the machine is that of a completed cycle; any other status keeps the base |
| SyncDaemon.RunSyncDaemon | src/skill_sync_sidecar/daemon.py:39-91 | a daemon run is a chain of such turns, one for every listed status, each from where the one before and the sleep after it left the device; over the whole run a policy or dry run that closes a direction leaves that side alone; the run ends early only at a blocked cycle |
| SyncRecovery.PlannedSkill | src/skill_sync_sidecar/sync_apply.py:80-103 | what an executable cycle guarantees about each skill it plans |
| SyncRecovery.CrashedSkill | src/skill_sync_sidecar/sync_state.py:135-158 | after any prefix a skill is done and a no-op, or planned exactly as before; the goal of a done one is reached, unless it was skewed and a push overwrote it |
| SyncRecovery.CrashIsRecoverable | src/skill_sync_sidecar/sync_apply.py:145-165 | after any prefix of an executable cycle, with no new edits, the next cycle is executable again, shows no conflict, never pushes a skill that was to be pulled, and has the same goal for every skill but the remote side of a skewed one under a push |
| SyncRecovery.CompletedCycleReachesGoal | src/skill_sync_sidecar/sync_apply.py:155-190 | a completed cycle reaches the goal of every skill, but for the remote side of a skewed one under a push, for every mix of pulls and pushes, and the next cycle plans only no-ops |
| SyncRecovery.CompletedCycleIsMerge | src/skill_sync_sidecar/sync_state.py:115-158 | when no skill is skewed, local and remote hash maps are equal after a completed cycle and each entry is the three-way merge of base, local and remote before |
| SyncRecovery.AttemptsKeepGoal | src/skill_sync_sidecar/daemon.py:56-76 | however often a cycle is cut short, the next one is executable and the goals stay what they were |
| SyncRecovery.RerunsConverge | src/skill_sync_sidecar/daemon.py:56-76 | the re-run that completes leaves the local root of the uninterrupted cycle and the same remote content of every undisturbed skill, hence equal hash maps when no push meets a skewed skill |
| SyncRecovery.TornInstallConflicts | src/skill_sync_sidecar/apply.py:356-357 | a crash between removing the old skill and renaming the new one makes a changed skill a conflict and leaves a new one to be pulled |
| SyncRecovery.PushOverwritesSkewedSkills | src/skill_sync_sidecar/sync_apply.py:278-297 | after a push the remote side of a skill is at its goal if and only if the skill was not a no-op with differing sides |
| SyncRecovery.BaseAfterCycle | src/skill_sync_sidecar/sync_apply.py:155-165 | which skills a completed cycle leaves a base entry: all as before when it did nothing, the whole local root when it pushed, the pulled skills only when it just pulled |
| SyncRecovery.LaterEditConflictsIff | src/skill_sync_sidecar/sync_state.py:135-158 | a change of one side from a shared version is a conflict exactly when the base names neither version, and a plain pull or push exactly when it names the shared one |
| SyncRecovery.LaterDeletionIsNewsIff | src/skill_sync_sidecar/sync_state.py:135-158 | a deletion on one side is seen as one exactly when the base names the version; otherwise the other side looks new |
| SyncRecovery.EditAfterCycleConflictsIff | src/skill_sync_sidecar/daemon.py:139-163 | after a completed cycle that did something, the next edit of an undisturbed skill on one side alone is a conflict, and its deletion looks like a new skill, if and only if the cycle neither pushed anything nor pulled this skill |
| Cluster.DownloadPassesPushCheck | src/skill_sync_sidecar/remote.py:259-274 | right after a download the check a push makes passes, and nothing but the cache has changed |
| Cluster.CycleSides | src/skill_sync_sidecar/sync_apply.py:145-165 | one skill through a cut-short cycle of a device: what may change on which side, and why; an unskewed skill is replaced at the remote only where the remote holds the base entry |
| Cluster.StepKeepsTraced | src/skill_sync_sidecar/daemon.py:139-163 | every step, also a cycle cut short anywhere, keeps the invariant that each of a device's base entries was once held by its local root and seen in an index it read or wrote, except the device's own approved pushes |
| Cluster.RunKeepsTraced | src/skill_sync_sidecar/daemon.py:139-163 | the invariant holds after every run from empty base records in which the device makes no approved push |
| Cluster.NoLostUpdate | src/skill_sync_sidecar/sync_apply.py:268-275 | in every run of any number of devices, a remote version replaced by a cycle is the acting device's own base entry, which its local root once held and an index it read or wrote once listed, unless the skill is skewed there; the replacement is the device's local content |
| Cluster.FirstPushChangesRemote | src/skill_sync_sidecar/sync_apply.py:278-297 | a concrete run that meets every premise of the theorem and changes the remote |
| Cluster.PushKeepsIntactIff | src/skill_sync_sidecar/sync_apply.py:278-309 | an index put keeps the remote intact if and only if every skill of the local root that it does not upload has its archive under the shared name |
| Cluster.StepKeepsIntactIff | src/skill_sync_sidecar/sync_apply.py:278-309 | every step of any device keeps every past index closed, except exactly an index put whose archives are not in place |
| Cluster.UnskewedCycleIsArchived | src/skill_sync_sidecar/sync_apply.py:278-309 | with shared naming, a pushing cycle that meets no skewed skill has its archives in place |
| Cluster.ApprovalKeepsIntact | src/skill_sync_sidecar/approved_push.py:270-318 | an approved push keeps every past index closed whatever source names are used, after every single put |
| Cluster.IntegrityIff | src/skill_sync_sidecar/remote.py:234-274 | from a closed remote, in any run of edits, downloads, cycles and approved pushes, each cut short after any single put, every archive named by any index ever stored exists at all times if and only if every index put of a cycle found its archives in place |
| Cluster.IndexIntegrity | src/skill_sync_sidecar/remote.py:234-274 | with shared archive naming and no skewed skill in a pushing cycle, integrity holds at every instant of every run |
| Cluster.ForeignNamingBreaksIntegrity | src/skill_sync_sidecar/sync_apply.py:278-289 | a concrete remote with a foreign source name that an admitted push leaves with a dangling index entry |
| Cluster.ConcurrentDeprecationGoesUnnoticed | src/skill_sync_sidecar/sync_apply.py:268-275 | deprecating a skill at the remote never changes the outcome of the check a push makes before it uploads |
| ApprovedPush.BuildMergedListing | src/skill_sync_sidecar/approved_push.py:270-318 | the merged index replaces approved entries in place, keeps every other entry and the order, appends new ids in sorted order, and fails exactly when an approved skill is missing locally |
| ApprovedPush.MergeUpdatesApprovedIds | src/skill_sync_sidecar/approved_push.py:283-300 | read as a dictionary, the merged index is the cached one updated at exactly the approved ids |
| ApprovedPush.MergeKeepsIdsUnique | src/skill_sync_sidecar/approved_push.py:295-300 | a merge introduces no second entry for any id |
| ApprovedPush.ApprovalReplacesReportedVersion | src/skill_sync_sidecar/approved_push.py:212-267 | an approved skill still has the three reported hashes, and the version it replaces is the base unless the approver let the local side win a conflict |
| ApprovedPush.ApprovedIffApprovable | src/skill_sync_sidecar/approved_push.py:212-267 | a skill passes the checks if and only if nothing changed since the report and it is either a push candidate blocked by the policy alone or a conflict of two present versions that the approver lets the local side win |
| ApprovedPush.CheckApprovals | src/skill_sync_sidecar/approved_push.py:31-44 | all checks pass exactly when at least one skill is selected and each is approvable |
| ApprovedPush.NormalizeSkillIds | src/skill_sync_sidecar/approved_push.py:187-200 | the approved ids without the blanks around them and without empty ones; naming one twice or none at all is an error |
| ApprovedPush.ExecuteApprovedPush | src/skill_sync_sidecar/approved_push.py:94-166 | every outcome as an if-and-only-if: success exactly when the ids name approvable skills once each, the remote holds the cached contents, the connection lasts for the missing archives and the index, and the record can be written; nothing is put unless the first two hold; the remote stays intact after every put; success updates exactly the approved skills and returns the hashes as the next base |
| Rebasing.RebasingTable | src/skill_sync_sidecar/approved_push.py:331-358 | the status of an untouched skill after its base became its remote hash, and exactly which statuses survive |
| Rebasing.RebasingForgetsRemoteChanges | src/skill_sync_sidecar/sync_state.py:135-158 | a re-based skill is never pulled and never conflicts: every difference counts as a local change |
| Rebasing.ApprovedPushRebases | src/skill_sync_sidecar/approved_push.py:331-358 | after a completed approved push the approved skills are unchanged and every other one follows the table |
| Rebasing.PendingPullBecomesPush | src/skill_sync_sidecar/approved_push.py:331-358 | a pending pull of a version the device never held becomes a push over it, so approvals must be excluded from the no-lost-update theorem |
| Rebasing.NormalizeSkillIds | src/skill_sync_sidecar/restore.py:107-118 | the selected ids are the first occurrences of the given ones without the blanks around them and without empty ones; none is an error |
| Rebasing.RestoreFromCentral | src/skill_sync_sidecar/restore.py:17-94 | every outcome as an if-and-only-if over the selection, staging, target, confirmation and faults; nothing changes unless every selected skill is listed, stages and fits the target; on success exactly these hold the central content, and a record with every hash of the snapshot is returned exactly when one was asked for; a failing install leaves the skills before it |
| Rebasing.RestorableIffInstallable | src/skill_sync_sidecar/restore.py:40-60 | a restore takes exactly what a cycle would install, but nothing into a project |
| Rebasing.RestoreRebases | src/skill_sync_sidecar/restore.py:74-80 | a restore record used as the next base leaves restored skills unchanged and the others to the table |
| FanoutCell.UndoInvertsItem | src/skill_sync_sidecar/fanout.py:551-576 | undoing an executed item restores its entry exactly, for every planned item and every set of failing primitives |
| FanoutCell.ChangedEntryIsKept | src/skill_sync_sidecar/fanout.py:551-565 | an entry is skipped, exactly as found, if and only if its link or copy is no longer the one left by the run, or something is there again |
| FanoutCell.UnchangedEntryIsRestored | src/skill_sync_sidecar/fanout.py:551-576 | undoing an item whose entry did not change brings back what was there before the run, in whatever state the canonical root is by then |
| FanoutCell.FailedItemKeepsEntry | src/skill_sync_sidecar/fanout.py:380-446 | a failed item leaves its ledger line alone, and its entry if and only if its recovery step did not fail too |
| FanoutCell.ExecutedIff | src/skill_sync_sidecar/fanout.py:380-446 | a planned item is executed if and only if it is not a no-op and no step it needs fails; failing recovery steps do not matter |
| FanoutCell.DirectoryIsNeverLost | src/skill_sync_sidecar/fanout.py:380-446 | whatever fails, a directory leaves its entry only when it equals the canonical skill or carries the ledger's hash, and then it is in the run's backup |
| FanoutCell.LinkIsRecorded | src/skill_sync_sidecar/fanout.py:426-439 | a link leaves its entry only into the run record, except under a double fault; a file never leaves |
| FanoutCell.UnlicensedEntryIsUntouched | src/skill_sync_sidecar/fanout.py:179-253 | foreign links, files and edited copies are left exactly as they were |
| FanoutCell.RejectedSkillIsNeverPlaced | src/skill_sync_sidecar/fanout.py:164-176 | a project-bound or risk-flagged skill, one declared for other tools, or an undeclared one that is not there, is never placed: a run leaves the entry alone or removes it |
| FanoutCell.OkayEntryIsCanonical | src/skill_sync_sidecar/fanout.py:179-231 | a wanted entry is called okay if and only if it is a link that resolves to the skill or a recorded copy with its hash |
| FanoutRuns.RunRootAt | src/skill_sync_sidecar/fanout.py:514-520 | a run is the independent execution of its entries |
| FanoutRuns.RollbackRestoresRoot | src/skill_sync_sidecar/fanout.py:540-579 | rolling back a run restores every entry and the ledger if and only if no item suffered a double fault |
| FanoutRuns.RollbackAfterEdits | src/skill_sync_sidecar/fanout.py:540-579 | a rollback after any change to the directory: what changed since the run stays as found, everything else the run executed is as before the run |
| FanoutRuns.ChangedEntriesStay | src/skill_sync_sidecar/fanout.py:551-565 | a rollback leaves every entry the run did not execute, and every changed one, as found |
| FanoutRuns.OneRunSettlesUnless | src/skill_sync_sidecar/fanout.py:179-231 | one fault-free run settles an entry if and only if it is not an unrecorded copy that differs in metadata only |
| FanoutRuns.TwoRunsSettle | src/skill_sync_sidecar/fanout.py:179-231 | two fault-free runs settle every entry |
| FanoutRuns.WantedEntryAfterTwoRuns | src/skill_sync_sidecar/fanout.py:179-231 | after two fault-free runs a wanted entry is the canonical skill if and only if the tool could take over what was there; otherwise it is untouched |
| FanoutRuns.EntitledIsWanted | src/skill_sync_sidecar/fanout.py:163-176 | exactly which skills a tool wants: global, without risk findings, and declared for it or undeclared and there already |
| FanoutRuns.AbsentSkillIsPlacedIff | src/skill_sync_sidecar/fanout.py:163-195 | an absent skill is placed by one fault-free run, as a link or a recorded copy, if and only if it is global, without risk findings and declared for one of the tool's names |
| FanoutRuns.EntitledSkillAfterTwoRuns | src/skill_sync_sidecar/fanout.py:163-231 | a skill the tool is entitled to is canonical after two fault-free runs if its entry could be taken over, and untouched otherwise |
| FanoutRuns.UntakenEntryIsReported | src/skill_sync_sidecar/fanout.py:199-231 | an entry that cannot be taken over is called a foreign link exactly when it is one, and a conflict otherwise |
| FanoutRuns.UnclaimedEntryLeavesIff | src/skill_sync_sidecar/fanout.py:233-253 | an entry that no skill may have leaves in a fault-free run if and only if it is a dangling link into the canonical root or an unedited recorded copy, and not hidden; a copy leaves its ledger line and goes to the backup, a link to the record |
| FanoutRuns.SettledRunIsIdle | src/skill_sync_sidecar/fanout.py:514-516 | a run over a settled root changes nothing, whatever fails |
| FanoutRuns.FanoutReachesFixpoint | src/skill_sync_sidecar/fanout.py:179-253 | from any root and ledger, after two fault-free runs the plan holds only no-ops and further runs change nothing; one is enough exactly without a metadata-only difference |
| FanoutRuns.LedgerProvenance | src/skill_sync_sidecar/fanout.py:411-436 | over any sequence of runs, edits and canonical changes from an empty ledger, every ledger line names content that was canonical when some run wrote it |
| FanoutRuns.OnlyBlessedTreesLeave | src/skill_sync_sidecar/fanout.py:158-161 | over any such sequence, a displaced directory equals the canonical skill or was canonical in an earlier run, and it is in the run's backup |
| FanoutState.ToolDir.SwapLink | src/skill_sync_sidecar/fanout.py:361-367 | on its own entry it acts as the specified link swap, and it touches no other |
| FanoutState.ToolDir.CopyInto | src/skill_sync_sidecar/fanout.py:370-377 | on its own temporary name it acts as the specified copy, and it touches no other |
| FanoutState.ToolDir.ExecuteItem | src/skill_sync_sidecar/fanout.py:380-446 | executing an item in place, with recovery, is the specified execution of its entry and touches no other entry |
| FanoutState.ToolDir.PlanSkills | src/skill_sync_sidecar/fanout.py:285-293 | the placed skills are exactly the wanted ones, each planned once |
| FanoutState.ToolDir.BuildPlan | src/skill_sync_sidecar/fanout.py:256-294 | the plan holds exactly the planned item of every entry, once |
| FanoutState.ToolDir.ExecutePlan | src/skill_sync_sidecar/fanout.py:514-520 | failures do not stop the run: every planned entry has been executed as specified |
| FanoutState.ToolDir.RunTool | src/skill_sync_sidecar/fanout.py:502-527 | one locked run leaves the directory, ledger, backups and record that the run function says, and reports exactly the planned items that were not executed as failed |
| FanoutState.ToolDir.UndoItem | src/skill_sync_sidecar/fanout.py:551-576 | undoing one recorded item in place is the specified undo of its entry and touches no other |
| FanoutState.ToolDir.RollbackTool | src/skill_sync_sidecar/fanout.py:545-578 | undoing a report in reverse order is the specified rollback of the whole directory; entries changed since stay as found |
| FanoutFleet.KeepNewest | src/skill_sync_sidecar/fanout.py:449-469 | pruning keeps exactly the runs with fewer than the kept number of newer ones |
| FanoutFleet.NewestHasNoNewer | src/skill_sync_sidecar/fanout.py:449-458 | the newest run has no newer one, so it is never pruned |
| FanoutFleet.Fleet.RunFanout | src/skill_sync_sidecar/fanout.py:472-537 | every tool gets its outcome, the record lists it, its backups are stored and survive the run's own pruning; older backups and records stay exactly when few enough are newer, also when the run made no backup |
| FanoutFleet.Fleet.RollbackFanout | src/skill_sync_sidecar/fanout.py:540-579 | rolling back a record undoes every usable tool and leaves skipped ones alone; entries changed since the run stay as found |
| FanoutFleet.Fleet.RunThenRollback | src/skill_sync_sidecar/fanout.py:472-579 | a run with failures followed by its rollback leaves every directory and ledger as before, provided no item suffered a double fault |
| Apply.TargetRoot.ApplyItem | src/skill_sync_sidecar/apply.py:333-374 | installing one item in place, with its recovery, is the specified install |
| Apply.TargetRoot.ExecuteApplyPlan | src/skill_sync_sidecar/apply.py:250-288 | items run in order, the first failure stops them, and the record lists what was applied |
| Apply.TargetRoot.RollbackApplyRecord | src/skill_sync_sidecar/apply.py:291-321 | undoing in reverse order is the specified rollback, and stops at a missing backup |
| Apply.CompleteRunInstalls | src/skill_sync_sidecar/apply.py:272-280 | a complete run leaves every target with the source of its last allowed item, touches nothing else and leaves no temporary copy |
| Apply.BackupsAccumulate | src/skill_sync_sidecar/apply.py:350-354 | a written backup is never overwritten and every recorded one exists |
| Apply.RollbackStopsAtMissingBackup | src/skill_sync_sidecar/apply.py:291-321 | a missing backup stops a rollback: the items after the last one without its backup are undone, no other is |
| Apply.FailedItemKeepsNodes | src/skill_sync_sidecar/apply.py:358-362 | a failed item replaces nothing unless its own recovery failed; then exactly its target is gone and its backup holds it |
| Apply.FailedItemCleansUp | src/skill_sync_sidecar/apply.py:358-362 | a failed item leaves its temporary copy only when the clean-up failed or was not reached, and at most its own backup |
| Apply.RolledBackNodes | src/skill_sync_sidecar/apply.py:291-321 | what a rollback leaves at every target, also when several items share one |
| Apply.RunCompletesIff | src/skill_sync_sidecar/apply.py:272-280 | a plan is carried out completely exactly when every allowed item finds its source, a free temporary name and no backup in its way, and none of its primitives fails |
| Apply.LosesTargetIff | src/skill_sync_sidecar/apply.py:358-362 | a run loses a target exactly when an item for it is reached, replaces an existing directory, and both its rename and its recovery fail |
| Apply.RollbackIsExact | src/skill_sync_sidecar/apply.py:250-374 | for every plan and every fault, rolling back the written record restores the root if and only if no reached item meets a failing rename and a failing recovery, unless an earlier item installs to the same target |
| LegacyMigration.ConsumerLinks.ReplaceLegacyLink | src/skill_sync_sidecar/legacy_skillshub_migration.py:471-508 | replacing one link in place, with its handler, is the specified replacement |
| LegacyMigration.ConsumerLinks.RollbackAppliedLinks | src/skill_sync_sidecar/legacy_skillshub_migration.py:511-524 | every replaced link is put back or counted as an error; no error exactly when nothing failed |
| LegacyMigration.ConsumerLinks.ExecuteMigration | src/skill_sync_sidecar/legacy_skillshub_migration.py:222-258 | it completes exactly when the selection is ready and nothing fails; any failure, also of the last record write, rolls back every replaced link; all links are as before exactly when every job that is reached ends well; the status says whether a link could not be put back |
| LegacyMigration.RunTraces | src/skill_sync_sidecar/legacy_skillshub_migration.py:222-243 | replaced links are distinct, their old text is in their backups, and nothing else changed |
| LegacyMigration.PutAllBackAt | src/skill_sync_sidecar/legacy_skillshub_migration.py:511-524 | a rollback decides every replaced link on its own |
| LegacyMigration.PutAllBackRestoresIff | src/skill_sync_sidecar/legacy_skillshub_migration.py:511-524 | the rollback of a run restores all links if and only if the run lost none and none it replaced fails to be put back |
| LegacyMigration.RunCompletesIff | src/skill_sync_sidecar/legacy_skillshub_migration.py:222-243 | a run replaces every link exactly when all sources and links are there, backups and temporary names are free, none is shared by two jobs, and nothing fails |
| LegacyMigration.RunByInputs | src/skill_sync_sidecar/legacy_skillshub_migration.py:222-243 | which jobs of a run are replaced, and which one loses its link, read off the jobs and the failing primitives |
| LegacyMigration.LosesALinkIff | src/skill_sync_sidecar/legacy_skillshub_migration.py:491-501 | a run loses a link exactly when a job that is reached removes it, fails to rename its copy and fails to clean up or to link again |
| LegacyMigration.FailedMigrationRestoresLinks | src/skill_sync_sidecar/legacy_skillshub_migration.py:222-258 | a rollback ends with every link as it was if and only if no reached job loses its own link (rename failed, and then removing the copy or linking again failed) and none it replaced fails to be put back |
| LegacyMigration.CompleteMigrationReplacesSelected | src/skill_sync_sidecar/legacy_skillshub_migration.py:222-243 | on success exactly the selected links are directories with the staged content, all of them were links, and none was selected twice |
| LegacyMigration.ExistingBackupBlocks | src/skill_sync_sidecar/legacy_skillshub_migration.py:482-484 | a backup left for a selected link blocks the migration, whatever else holds |
| LegacyMigration.RetryIsBlocked | src/skill_sync_sidecar/legacy_skillshub_migration.py:222-258 | once the first ready job made its backup, the same selection fails again from any later state that kept the backups, whatever the links are by then |
| LegacyMigration.RetryCompletesIff | src/skill_sync_sidecar/legacy_skillshub_migration.py:222-258 | a retry over the restored links completes if and only if the selection is ready, nothing fails this time, and the first attempt failed at its first job before that backup was made |
| LegacyMigration.HarmlessAttemptBlocksRetry | src/skill_sync_sidecar/legacy_skillshub_migration.py:488-501 | an attempt that fails to remove its first link changes no link and still blocks a retry that would complete without it |
| Tombstones.DeletionHasMaterial | src/skill_sync_sidecar/sync_state.py:148-155 | a one-sided deletion has the base version on exactly the side that still holds the skill |
| Tombstones.PruneKeepsEnds | src/skill_sync_sidecar/report_retention.py:86-101 | a prune keeps the first and last record of every signature, as such, and every referenced record |
| Tombstones.PruneRemovesIff | src/skill_sync_sidecar/report_retention.py:86-101 | exactly which records a prune removes: those with an older and a newer one of their signature, unreferenced, an hour old and without a link inside |
| Tombstones.PruneIsIdempotent | src/skill_sync_sidecar/report_retention.py:86-101 | pruning twice keeps what pruning once keeps |
| Tombstones.EndsOfGroup | src/skill_sync_sidecar/report_retention.py:87-90 | the protected ends of a sorted group are its first and last record |
| Tombstones.ReportStore.SortedGroup | src/skill_sync_sidecar/report_retention.py:87-89 | lists the records of a signature by time |
| Tombstones.ReportStore.Prune | src/skill_sync_sidecar/report_retention.py:74-104 | a missing index or reference removes nothing; otherwise exactly the kept records stay; it is interrupted exactly when there is more to remove than can be, with nothing kept gone; the index stays valid and both ends of every group stay |
| Tombstones.ReportStore.FindExisting | src/skill_sync_sidecar/tombstones.py:36-39 | finds the newest complete record of exactly the signatures that have one |
| Tombstones.ReportStore.WriteTombstone | src/skill_sync_sidecar/tombstones.py:97-122 | adds one complete record and keeps the first and last record of every signature |
| Tombstones.ReportStore.Build | src/skill_sync_sidecar/tombstones.py:33-71 | every outcome as an if-and-only-if over the missing records, the index write and the removals; whatever fails, every path in the index exists and the first record ever written for a signature stays; on success the index lists a complete record of every deletion; nothing is created exactly when every deletion has one already |
| Tombstones.ReportStore.BuildPruneRebuild | src/skill_sync_sidecar/tombstones.py:33-71 | a rebuild with unchanged status creates no record, also with prunes in between |
| Hashing.HashSkillFiles | src/skill_sync_sidecar/scanner.py:503-512 | feeding the hasher file by file yields the specified stream |
| Hashing.ParseInvertsDecimal | src/skill_sync_sidecar/scanner.py:508 | a decimal size reads back |
| Hashing.DecodeInvertsEncode | src/skill_sync_sidecar/scanner.py:503-512 | the stream of files with NUL-free paths parses back to the same list |
| Hashing.NulInPathIsAmbiguous | src/skill_sync_sidecar/scanner.py:506-507 | with a NUL in a path, any two files share the stream of one file |
| Hashing.SortedListingIsUnique | src/skill_sync_sidecar/scanner.py:186-187 | a set of files has one listing sorted by path |
| Ordering.LessByFirstDifference | src/skill_sync_sidecar/scanner.py:186 | one path is before another when it ends first or has the smaller character at the first difference |
| Hashing.StreamDependsOnFileSet | src/skill_sync_sidecar/scanner.py:186-187 | two sorted scans have the same stream if and only if they found the same set of files |
| SkillIds.SanitizeComponent | src/skill_sync_sidecar/stage.py:138-143 | for any notion of letters and digits, the character loop computes the specified component |
| SkillIds.NamelessComponent | src/skill_sync_sidecar/stage.py:138-143 | a text without a letter or digit becomes the default component |
| SkillIds.NormalizeIsNormalized | src/skill_sync_sidecar/scanner.py:515-517 | a normalized id is non-empty, made of safe characters and has nothing to trim |
| SkillIds.NormalizedIdsAreFixed | src/skill_sync_sidecar/stage.py:138-143 | normalized ids are exactly the fixed points of normalizing, and sanitizing keeps each, for any alphabet that has the ASCII letters and digits, so distinct ids get distinct staging directories |
| SkillIds.UnsafeRunBecomesDash | src/skill_sync_sidecar/scanner.py:515-517 | a run of unsafe characters becomes one dash and safe ones stay; from left to right this fixes the id of every name |
| SkillIds.NamelessGetsDefault | src/skill_sync_sidecar/scanner.py:515-517 | a name without a letter or digit gets the default id |
| SkillIds.WordsAreJoinedByDash | src/skill_sync_sidecar/scanner.py:515-517 | two normalized words with anything unsafe between them become one id, joined by one dash |
| SkillIds.TrimCutsEnds | src/skill_sync_sidecar/scanner.py:516 | trimming removes nothing but dashes, dots and underscores, only at the ends |
| SkillIds.StripCutsBlanks | src/skill_sync_sidecar/approved_push.py:191 | stripping removes the blanks around a text and nothing else |
| SkillIds.GivenIdsAreStripped | src/skill_sync_sidecar/approved_push.py:187-200 | the ids given by hand are the stripped texts that are not empty |
| SkillWalk.ListDirectory | src/skill_sync_sidecar/scanner.py:229-249 | one directory's files and the subdirectories that stay in the list |
| SkillWalk.IterSkillFiles | src/skill_sync_sidecar/scanner.py:226-249 | descending into the kept subdirectories yields the specified walk |
| SkillWalk.WalkFindsReachableFiles | src/skill_sync_sidecar/scanner.py:226-249 | the walk finds exactly the files that stay under the rules and patterns and that a route of directories leads to, none of them skipped or a skill of its own |
| SkillWalk.MatchesByForm | src/skill_sync_sidecar/scanner.py:386-395 | a pattern excludes its own path, everything below it and, without a slash inside, every path with that name |
| SkillWalk.DeepExclusionIsInherited | src/skill_sync_sidecar/scanner.py:386-395 | a directory excluded by patterns with a slash excludes every path below it |
| SkillWalk.PrunedWalkIsFilteredIff | src/skill_sync_sidecar/sync_state.py:240-276 | for every tree and all patterns, the walk that prunes the ignored paths never finds more than the flat filter keeps, and finds the same files in the same order if and only if the filter drops everything below each directory at which only the pruning walk stops |
| SkillWalk.DeepPatternsAgree | src/skill_sync_sidecar/scanner.py:386-395 | ignored paths with a slash meet the exact condition on every tree |
| SkillWalk.PrunedWalkIsFilteredWalk | src/skill_sync_sidecar/sync_state.py:240-276 | for every tree and ignored paths with a slash, the two walks agree: a corollary of the exact condition |
| SkillWalk.ProjectionsAgree | src/skill_sync_sidecar/sync_state.py:101-103 | where pruning and filtering agree on the local tree, the projected local and remote hashes are equal if and only if both trees hold the same files outside the ignored paths |
| SkillWalk.BareNameDiverges | src/skill_sync_sidecar/scanner.py:386-395 | for an ignored name without a slash, a tree on which walk and filter differ and the exact condition fails |
| SnapshotStage.WriteSkillZip | src/skill_sync_sidecar/snapshot.py:63-70 | the archive holds the manifest and the packaged files |
| SnapshotStage.WriteSnapshot | src/skill_sync_sidecar/snapshot.py:13-60 | the index lists every skill in order, and an archive path holds the last skill written there |
| SnapshotStage.StageRoot.ExtractMembers | src/skill_sync_sidecar/stage.py:85-91 | extraction succeeds exactly when no member leaves its directory, and touches only its own directory |
| SnapshotStage.EscapingForms | src/skill_sync_sidecar/stage.py:106-109 | and every path of these forms is one |
| SnapshotStage.EscapingHasForm | src/skill_sync_sidecar/stage.py:106-109 | every such path has one of five forms by concatenation |
| SnapshotStage.SafeIffStaysInside | src/skill_sync_sidecar/stage.py:106-109 | the member check refuses exactly the paths that are absolute or climb |
| SnapshotStage.EscapingMemberIsRefused | src/skill_sync_sidecar/stage.py:85-91 | an archive with an absolute member, or one with two dots between slashes or the ends, is never staged |
| SnapshotStage.ExtractedAt | src/skill_sync_sidecar/stage.py:85-91 | extraction writes every member but the manifest and directories, and a path holds the bytes of its last member |
| SnapshotStage.StageRoot.ValidateStagedFiles | src/skill_sync_sidecar/stage.py:112-135 | validation passes exactly when every listed file is present with its size and digest and the hash of the list is the manifest's |
| SnapshotStage.StageRoot.StageSkill | src/skill_sync_sidecar/stage.py:57-103 | staging a skill succeeds exactly when its archive is stageable, and otherwise the first check that fails says so |
| SnapshotStage.StageRoot.StageSnapshot | src/skill_sync_sidecar/stage.py:30-54 | staging an index succeeds exactly when every entry is stageable, and each directory holds what its last entry extracted |
| SnapshotStage.SortingSortedIsIdentity | src/skill_sync_sidecar/stage.py:132 | sorting a sorted file list changes nothing, so the staged hash is recomputed over the scanned list |
| SnapshotStage.SortingOrders | src/skill_sync_sidecar/stage.py:132 | sorting rearranges any file list into path order |
| SnapshotStage.WrittenSkillIsStageable | src/skill_sync_sidecar/stage.py:57-103 | a written skill passes every check and extracts to exactly its packaged files |
| SnapshotStage.SnapshotThenStage | src/skill_sync_sidecar/snapshot.py:13-70 | for scanned skills of one source with distinct ids, staging what was written succeeds and yields the same file map, content hash and id for every skill |
| SnapshotStage.ScannedPathsAvoidManifest | src/skill_sync_sidecar/scanner.py:520-521 | no scanned file has the manifest's path, because hidden directories are skipped |

## Left out

- HTTP and WebDAV requests, retries, credentials, configuration and the remote prefix: input and output around the store. Puts may fail at any point; reads of the remote fail only for missing files.
- Command line, dashboards, monitoring, reports and rendered text.
- SHA-256, zip, JSON, front matter and wildcard patterns: hashes are injective, archives are manifests with members, patterns are literal paths.
- File permissions and the read-only protection of the canonical root.
- Partly completed copies and removals: primitives are atomic. `SyncRecovery.TornInstallConflicts` states what a stop between the two steps of an install means.
- Nested skill bundles, one skill reached through several managers, and duplicate ids across sources.
- User edits during a cycle; they happen between the steps of `Cluster` and between the turns of the daemon.
- The daemon without a cycle limit, its state file, and the fan-out it triggers after a cycle; the scheduler that decides when a fan-out is due.
- Conflict packages and blocked reports written during a cycle, and failures of writing them.
- A failing write of the fan-out ledger, which ends the run, and failures during `rollback_fanout` and `rollback_apply_record` themselves.
- Backup directories a fan-out run created but left empty count among the kept runs in the source; here a run without backups has none.
- Listing order of directory entries and index entries, except where an order is promised (approved push, hashing, walk).
- Clock steps backwards: a new delete record is never older than the existing ones.
- Prune decides about all groups of records before it removes the first one.
- Distinct spellings of one member path inside an archive (`a//b`).
- The legacy migration's preview, its candidate selection and its later rollback from a complete record.
- Old apply backups: each install starts from a fresh backup directory and fresh temporary names.
