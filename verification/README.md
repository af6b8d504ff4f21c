# kube-green: sleep, restore and schedule

kube-green puts the resources of a namespace to sleep and later brings them back exactly as
they were. A sleep applies a JSON Patch (sections 4.1 to 4.3 of RFC 6902) to each selected
resource, keeps the reverse JSON Merge Patch (section 2 of RFC 7396) in a Secret and pushes
only the fields that changed. A wake-up merges the stored patch back, but only into a resource
the sleep patch would leave unchanged. Two controllers share the Secret: one follows the
schedule of the SleepInfo, the other carries out on-demand executions.

This project models that in Dafny and proves what holds of it:

- **The documents** (`JsonDocs`, `MergePaths`, `Patcher`, `ApiObjects`, `SleepDocs`,
  `PlainPatches`): merge patches and their inverses, the relaxed JSON Patch, the sparse object
  that is applied, and what sleeping and waking do to one document.
- **The selector** (`Selector`): server selectors, the limit of a list call and the filter by
  name, against one declarative predicate.
- **The managed resources** (`Resources`, `ManagedResources`, `ManagedResourceSets`): the
  mapping of targets with its caches and restore patches as classes, each method proved
  against closed-form functions of the cluster.
- **The schedule** (`Schedule`): the gate and the requeue delays, in nanoseconds.
- **The controllers** (`SleepInfos`, `Controllers`, `Reconcilers`): the Secret, the two
  reconciles as steps of one state machine, and the class whose methods refine those steps.
- **Runs** (`RestoreRuns`, `Interruptions`, `Discipline`, `RepeatedSleep`, `Progress`,
  `LegacySecrets`): what holds over every interleaving of reconciles, what an interrupted one
  costs, and what becomes of the Secrets of older versions.

The main results are `RestoreRuns.RestoreTheorem`, `RestoreRuns.ReconcilesComplete`,
`Interruptions.InterruptedSleepLosesIff`, `Interruptions.InterruptedWakeUpLosesNothing`,
`Discipline.OperationDiscipline`, `Discipline.NonInterference`, `Discipline.ActsAtMostOnce`,
`Discipline.SucceededIff`, `RepeatedSleep.LastChangeIsKept`, `RestoreRuns.AsleepMeansScaledDown`,
`Progress.RequeueDrivenProgress`, `Progress.EveryTickIsServed`, `Schedule.GateIff`,
`Schedule.GateAimsAtFirst`, `Schedule.TickByCalendarIff`, `SleepInfos.PatchInForce`,
`Selector.ListingIsCompleteIff`, `Selector.ForeignReferenceIsIgnored`, `JsonDocs.RoundTripIff`,
`Patcher.AddAppliesIff`, `Patcher.FixpointIffSettled`,
`ApiObjects.SparseIsExactIff`, `SleepDocs.WakeRestoresIff` and `SleepDocs.WakeKeepsEdits`.

`dafny verify dfyconfig.toml` checks the whole project.

## Hypotheses

Each is stated where it is used, and where one is not a matter of course a lemma shows what
goes wrong without it or that a condition is exact.

- Restoring needs every null member of the original to survive the patch: exactly then merging
  the reverse difference gives the original back (`JsonDocs.RoundTripIff`,
  `PlainPatches.NullOriginalIsNotRestored`).
- Restoring needs the patch to be idempotent on the slept document, because a wake-up skips
  everything else (`SleepDocs.WakeRestoresIff`). Patches on pairwise disjoint paths are
  (`Patcher.ExecIdempotent`); overlapping paths need not be
  (`Patcher.OverlappingPathsAreNotIdempotent`).
- Sleep patches leave identifiers, labels and owner references alone, and the forward change
  has no null, on which server-side apply is a merge. For patches made of plain additions, all
  default patches among them, the whole hypothesis comes down to one condition on the managed
  objects that can be read off before the sleep: no null on, above or below a patched path
  (`PlainPatches.PlainPatchIsRestorableIff`, `RestoreRuns.PlainIsSuitableIff`,
  `RestoreRuns.DefaultsAreSuitableIff`). Nulls elsewhere do no harm.
- In the restore theorem the SleepInfo is fixed, the run starts without a Secret and nobody else
  edits the objects. Edits from outside are the subject of `SleepDocs.WakeKeepsEdits`,
  `RepeatedSleep.LastChangeIsKept` and `Progress.RequeueDrivenProgress`.
- Reconciles complete, as atomic steps. A sleep that is interrupted, or whose Secret is not
  written, loses the originals of exactly the objects it had reached, whatever follows
  (`Interruptions.InterruptedSleepLosesIff`); an interrupted wake-up loses nothing
  (`Interruptions.InterruptedWakeUpLosesNothing`). A run that starts well never stops completing
  (`RestoreRuns.ReconcilesComplete`).
- A target whose listing is empty drops out of the mapping, and the next Secret is written
  without its entries (`RepeatedSleep.EmptyListingDropsEntries`).
- The classes require that for no target more than 500 objects match the server selectors
  (`ManagedResources.Fits`), and keep it. `Selector.ListingIsCompleteIff` says exactly when the
  limit loses nothing, `Selector.CrowdHidesIncludedName` shows when it does.
- Kinds hold no dot, as Kubernetes kinds do not; else two targets can share one key
  (`Resources.DottedKindsCollide`).

## Where the code differs from what one expects

- A reference by name never matches a resource of the core group, whose apiVersion has no
  slash, so excluding a core resource by name has no effect (`Selector.OwnReferenceNamesIff`,
  `Selector.CoreExclusionIsIgnored`).
- Several included names are filtered only after the first 500 objects were fetched
  (`Selector.CrowdHidesIncludedName`).
- A sleep that finds no resources skips the wake-up by requeueing after it. It skips a sleep as
  well, which resources created meanwhile then miss, exactly when there is no wake-up or the
  next sleep comes no later than the next wake-up (`Progress.EmptySleepSkipsASleepIff`).
- The gate also opens for a tick a fraction of a millisecond outside the window, since it
  compares whole milliseconds (`Schedule.GateIff`).
- An empty patch text passes validation (api/v1alpha1/sleepinfo_types.go:252) and makes a Sleep
  fail as soon as its target has an object to manage
  (internal/controller/sleepinfo/jsonpatch/jsonpatch.go:80). With patches that leave metadata
  alone that, or a text that does not parse, is the only reason for which a Sleep fails
  (`Resources.SleepFailsIff`, `Resources.BadTextFailsIff`). A wake-up accepts an empty text
  (`Resources.EmptyTextWakesIff`).
- A forced execution that acted ends as succeeded exactly when its own status writes go through,
  and else, when it is retried, as skipped (`Discipline.ActsAtMostOnce`).

## Model

| member | source | states |
|---|---|---|
| JsonDocs.DiffEmptyIff | internal/controller/sleepinfo/jsonpatch/jsonpatch.go:126-136 | the merge patch between two objects is empty exactly when they are equal, so the skip on `{}` skips exactly the unchanged resources |
| JsonDocs.RoundTripIff | internal/controller/sleepinfo/jsonpatch/jsonpatch.go:126-211 | merging the difference of a to b into a gives b exactly when a shares every null member of b, at every depth |
| JsonDocs.RoundTripFromEverywhereIff | internal/controller/sleepinfo/jsonpatch/jsonpatch.go:126-211 | the round trip to b holds from every document exactly when b is null-free |
| JsonDocs.MergeSharesNulls | internal/controller/sleepinfo/jsonpatch/jsonpatch.go:211-225 | a merge adds no null member the target did not have |
| JsonDocs.MergedDocumentPushesExactly | internal/controller/sleepinfo/resource/resource.go:32-43 | pushing the difference between a document and its merged form reproduces the merged form |
| MergePaths.MergeKeepsMissed | internal/controller/sleepinfo/jsonpatch/jsonpatch.go:211-225 | a merge leaves the value at every path its patch does not reach |
| MergePaths.DiffRestoresHit | internal/controller/sleepinfo/jsonpatch/jsonpatch.go:126-211 | merged into any document at all, the difference from s to o gives every path it hits the value it has in o |
| MergePaths.ChangedLeafIsHit | internal/controller/sleepinfo/jsonpatch/jsonpatch.go:126-138 | every leaf that differs between two documents is hit by their difference |
| MergePaths.DiffMentionsOnlyChanges | internal/controller/sleepinfo/jsonpatch/jsonpatch.go:140-148 | a difference holds a leaf only at a path where the two documents differ |
| Patcher.ExecKeepsDisjoint | internal/patcher/patcher.go:12-17 | a patch changes nothing at a path disjoint from all its paths |
| Patcher.ExecSettlesAll | internal/patcher/patcher.go:12-17 | after a patch with pairwise disjoint paths every operation has its effect: added and replaced values are in place, removed members are gone |
| Patcher.AddAppliesIff | internal/patcher/patcher.go:12-17 | an add applies exactly when every proper prefix of its path holds an object, or below the root nothing or a null with no array step next |
| Patcher.ReplaceAppliesIff | internal/patcher/patcher.go:12-17 | a replace applies exactly when its path holds a value |
| Patcher.RemoveAppliesIff | internal/patcher/patcher.go:12-17 | a remove applies exactly when no proper prefix of its path holds an array, the path there or not |
| Patcher.FixpointIffSettled | internal/patcher/patcher.go:19-26 | a resource counts as unchanged exactly when every operation of the patch already has its effect on it |
| Patcher.ExecIdempotent | internal/patcher/patcher.go:12-26 | a patch with pairwise disjoint paths, applied twice, is the patch applied once, and the result counts as unchanged |
| Patcher.OverlappingPathsAreNotIdempotent | internal/patcher/patcher.go:12-26 | a concrete patch with overlapping paths that applies once and fails when applied to its own result |
| ApiObjects.BuildSparseApplyObject | internal/controller/sleepinfo/jsonpatch/jsonpatch.go:268-288 | the loop over the changed fields, in any order, builds the changes plus the identifiers of the resource |
| ApiObjects.OneMoreOwner | internal/controller/sleepinfo/jsonpatch/jsonpatch.go:97-109 | one more owner reference makes an object controlled exactly if it says it is a controller |
| ApiObjects.HasLabelIff | internal/controller/sleepinfo/jsonpatch/genericresources.go:178-196 | a label pair is a string member of metadata.labels |
| ApiObjects.SparseIsExactIff | internal/controller/sleepinfo/jsonpatch/jsonpatch.go:140-153 | with the identifiers left alone, merging the sparse object into the original gives the modified document exactly when every null in it was there before |
| ApiObjects.SparseIsMinimal | internal/controller/sleepinfo/jsonpatch/jsonpatch.go:264-288 | apart from identifier paths, the sparse object holds a leaf only where original and modified differ |
| ApiObjects.SparseKeepsIdentity | internal/controller/sleepinfo/jsonpatch/jsonpatch.go:283-285 | merging a sparse object into any identified object keeps it identified, under the name of the resource |
| SleepDocs.SleepGivesPatched | internal/controller/sleepinfo/jsonpatch/jsonpatch.go:96-156 | sleeping a restorable resource does not fail and leaves exactly the patched document |
| SleepDocs.WakeRestoresIff | internal/controller/sleepinfo/jsonpatch/jsonpatch.go:178-225 | waking a slept document restores the original exactly when the patch is idempotent on it and it shares the null members of the original |
| SleepDocs.WakeUndoesSleep | internal/controller/sleepinfo/jsonpatch/jsonpatch.go:96-225 | sleep then wake-up is the identity on restorable resources, and sleeping the slept resource again does nothing |
| SleepDocs.SleepOfFixpointSkips | internal/controller/sleepinfo/jsonpatch/jsonpatch.go:132-138 | a resource the patch leaves unchanged is not written and no restore patch is kept for it |
| SleepDocs.WakeChangesOnlyFixpoints | internal/controller/sleepinfo/jsonpatch/jsonpatch.go:178-209 | a wake-up changes a resource only with a restore patch and only at a fixpoint of the sleep patch |
| SleepDocs.WakeKeepsEdits | internal/controller/sleepinfo/jsonpatch/jsonpatch.go:193-225 | whatever was edited while asleep, a wake-up of a fixpoint restores every path the restore patch hits, all changed leaves among them, and leaves every path it misses |
| SleepDocs.NullFreeDiffSharesNulls | internal/controller/sleepinfo/jsonpatch/jsonpatch.go:140-153 | a forward change without nulls introduces no null member |
| SleepDocs.KeptMetadataDoesNotFail | internal/controller/sleepinfo/jsonpatch/jsonpatch.go:111-153 | a patch that leaves identifiers, labels and owner references alone never makes Sleep fail on a resource |
| PlainPatches.ForwardIsNullFree | internal/controller/sleepinfo/jsonpatch/jsonpatch.go:140-153 | a change that deletes nothing and adds no null has a null-free merge patch |
| PlainPatches.AddsApplyIff | internal/patcher/patcher.go:12-17 | a list of adds at disjoint paths applies exactly when each add does by itself, on the original document |
| PlainPatches.DefaultPatchesApply | api/v1alpha1/defaultpatches.go:21-43 | the default patches apply exactly to the objects whose spec is absent, null or an object, and then replicas is zero and suspend is true |
| PlainPatches.NullsSharedByPath | internal/controller/sleepinfo/jsonpatch/jsonpatch.go:126-211 | the exact condition of the round trip, path by path: every null below the root of the one document is one of the other |
| PlainPatches.PlainPatchIsRestorableIff | internal/patcher/patcher.go:12-26 | additions of plain values at disjoint unprotected paths, where they apply, are undone exactly if and only if no null of the object lies on, above or below a patched path |
| PlainPatches.DefaultPatchesAreRestorableIff | api/v1alpha1/defaultpatches.go:21-43 | the default patches are such additions, and are undone exactly if and only if neither the spec nor the patched field holds a null |
| PlainPatches.NullOriginalIsNotRestored | internal/controller/sleepinfo/jsonpatch/jsonpatch.go:126-211 | a concrete document whose null member the patch overwrites and the restore patch does not bring back |
| Selector.GetFieldToExclude | internal/controller/sleepinfo/jsonpatch/genericresources.go:132-145 | the field terms exclude exactly the names that references of the target exclude |
| Selector.GetFieldToInclude | internal/controller/sleepinfo/jsonpatch/genericresources.go:151-171 | no name, one name as a server term, or several names to filter later: together they admit exactly the included names |
| Selector.LabelTerms | internal/controller/sleepinfo/jsonpatch/genericresources.go:178-196 | the label terms are exactly the label pairs of all references |
| Selector.GetListOptions | internal/controller/sleepinfo/jsonpatch/genericresources.go:90-130 | server terms and remaining names together mean the declarative selection, for every document |
| Selector.FilterByName | internal/controller/sleepinfo/jsonpatch/genericresources.go:74-86 | keeps, in order, exactly the items with one of the names, or all without names |
| Selector.GetListByNamespace | internal/controller/sleepinfo/jsonpatch/genericresources.go:40-69 | the list is the declarative selection among the first 500 server matches, in order |
| Selector.ListingIsCompleteIff | internal/controller/sleepinfo/jsonpatch/genericresources.go:55-94 | that is the whole selection exactly when no selected item comes after the limit: with at most 500 server matches, and with fewer than two included names only then |
| Selector.ForeignReferenceIsIgnored | internal/controller/sleepinfo/jsonpatch/genericresources.go:174-176 | a reference without labels to another kind or outside the target's group, anywhere among the included or the excluded ones, changes neither the selection nor the fetched list |
| Selector.OwnReferenceDecides | internal/controller/sleepinfo/jsonpatch/genericresources.go:132-171 | a reference within the group and to the kind of the target: excluded, it excludes what has its name; included, only what some such reference names is selected |
| Selector.LabelsDecide | internal/controller/sleepinfo/jsonpatch/genericresources.go:178-196 | everything selected carries every included label pair and no excluded one |
| Selector.UnopposedIsSelected | internal/controller/sleepinfo/jsonpatch/genericresources.go:40-196 | nothing but a name or a label keeps an object out |
| Selector.OwnReferenceNamesIff | internal/controller/sleepinfo/jsonpatch/genericresources.go:174-176 | a reference with a resource's own apiVersion, kind and name matches exactly outside the core group |
| Selector.CoreExclusionIsIgnored | internal/controller/sleepinfo/jsonpatch/genericresources.go:132-176 | a core resource excluded by name stays selected |
| Selector.CrowdHidesIncludedName | internal/controller/sleepinfo/jsonpatch/genericresources.go:64-94 | 501 objects and two included names: the list is empty, the selection is not |
| Resources.PatchForIsLast | internal/controller/sleepinfo/jsonpatch/jsonpatch.go:44-64 | a target has a patch exactly when one is given for it, and then the last one given |
| Resources.PatchForAppend | api/v1alpha1/sleepinfo_types.go:209-221 | of two lists of patches the second decides where it says anything |
| SleepInfos.PatchInForce | api/v1alpha1/sleepinfo_types.go:195-221 | the patch in force for a target, from the fields of the SleepInfo: the configured one, else the default its own switch leaves on, else none |
| Resources.TargetStringInjective | api/v1alpha1/sleepinfo_types.go:115-117 | the key of a target determines it, for kinds without a dot |
| Resources.DottedKindsCollide | api/v1alpha1/sleepinfo_types.go:115-117 | two different targets with one key, when kinds hold dots |
| Resources.SaveThenLoad | internal/controller/sleepinfo/jsonpatch/jsonpatch.go:46-64 | saved and loaded again, every target gets its own restore patches back, dropped empty ones as empty |
| Resources.SaveIsUnique | internal/controller/sleepinfo/jsonpatch/jsonpatch.go:235-249 | there is only one result of saving, whatever the map order |
| Resources.SleepKeepsIdentity | internal/controller/sleepinfo/jsonpatch/jsonpatch.go:138-153 | whatever the patch, a slept object keeps its identifiers and the apply addresses the object it was computed from |
| Resources.WakeKeepsIdentity | internal/controller/sleepinfo/jsonpatch/jsonpatch.go:211-225 | whatever the restore patch, a woken object keeps its identifiers |
| Resources.SleepFailsIff | internal/controller/sleepinfo/jsonpatch/jsonpatch.go:78-87 | with patches that keep metadata a Sleep fails exactly when the text of a mapped target is empty or does not parse |
| Resources.BadTextFailsIff | internal/controller/sleepinfo/jsonpatch/jsonpatch.go:44-87 | so for given patches: exactly when one in force is empty or does not parse and its target has an object to manage |
| Resources.EmptyTextFailsSleep | internal/controller/sleepinfo/jsonpatch/jsonpatch.go:80-82 | a namespace with one Deployment and an empty text: Sleep fails, WakeUp does not |
| Resources.EmptyTextWakesIff | internal/controller/sleepinfo/jsonpatch/jsonpatch.go:173-213 | a wake-up accepts an empty text: it is refused only for a restore patch that changes identifiers, never without restore patches |
| ManagedResources.ApiServer.List | internal/controller/sleepinfo/jsonpatch/genericresources.go:40-69 | with at most 500 objects that match the server selectors, the list holds every managed object of the target once |
| ManagedResources.FitsKept | internal/controller/sleepinfo/jsonpatch/genericresources.go:90-94 | work on managed objects never makes more objects match, so that a list that was complete stays complete |
| ManagedResources.ApiServer.Apply | internal/controller/sleepinfo/resource/resource.go:46-63 | merges a sparse object into the object it names; one that is gone is no error |
| ManagedResources.ApiServer.Patch | internal/controller/sleepinfo/resource/resource.go:32-43 | merges the difference of two versions into the stored object; one that is gone is no error |
| ManagedResources.PatchResource | internal/controller/sleepinfo/jsonpatch/jsonpatch.go:102-151 | decides for one resource: skip, fail, or the restore patch and the sparse object to apply |
| ManagedResources.GenericResource.SleepItem | internal/controller/sleepinfo/jsonpatch/jsonpatch.go:96-157 | puts one more listed object to sleep and marks the cache invalid if it wrote; when the server refuses, the restore patch is kept already |
| ManagedResources.GenericResource.SleepItems | internal/controller/sleepinfo/jsonpatch/jsonpatch.go:96-157 | puts the listed objects to sleep; fails exactly when one of them fails; tells how far it got |
| ManagedResources.GenericResource.WakeItem | internal/controller/sleepinfo/jsonpatch/jsonpatch.go:178-229 | wakes one more listed object and marks the cache invalid if it wrote |
| ManagedResources.GenericResource.WakeItems | internal/controller/sleepinfo/jsonpatch/jsonpatch.go:178-229 | wakes the listed objects; fails exactly when one is refused; tells how far it got |
| ManagedResourceSets.NewResources | internal/controller/sleepinfo/jsonpatch/jsonpatch.go:31-67 | the set holds exactly the targets with managed objects, each with its last patch, its own restore patches and a fresh list |
| ManagedResourceSets.ManagedResourceSet.AddPatch | internal/controller/sleepinfo/jsonpatch/jsonpatch.go:44-64 | lists one target and replaces its entry, or leaves the set alone when the list is empty |
| ManagedResourceSets.ManagedResourceSet.HasResource | internal/controller/sleepinfo/jsonpatch/jsonpatch.go:69-76 | true exactly when some target has a listed object |
| ManagedResourceSets.ManagedResourceSet.Refresh | internal/controller/sleepinfo/jsonpatch/jsonpatch.go:89-94 | afterwards the list is a fresh one; a cache not marked invalid already is |
| ManagedResourceSets.ManagedResourceSet.Sleep | internal/controller/sleepinfo/jsonpatch/jsonpatch.go:78-161 | over targets in any order and with caches, does exactly what re-listing everything would do; fails exactly when some target does, and then every object is as it was or slept |
| ManagedResourceSets.ManagedResourceSet.WakeUp | internal/controller/sleepinfo/jsonpatch/jsonpatch.go:163-233 | the same for waking; the restore patches stay |
| ManagedResourceSets.ManagedResourceSet.KeepsValid | internal/controller/sleepinfo/jsonpatch/jsonpatch.go:156-171 | work on one target leaves every cache not marked invalid equal to a fresh listing |
| ManagedResourceSets.ManagedResourceSet.GetOriginalInfoToSave | internal/controller/sleepinfo/jsonpatch/jsonpatch.go:235-249 | stores the restore patches of every target that has some, under its key, and nothing else |
| Schedule.EveryWeekHasATick | api/v1alpha1/sleepinfo_types.go:173-189 | every schedule a SleepInfo can give has a tick in any seven days |
| Schedule.TickByCalendarIff | api/v1alpha1/sleepinfo_types.go:173-189 | a time is a tick exactly when it is a whole minute whose weekday, hour and minute since the epoch the schedule names |
| Schedule.FirstMondayIsMonday | api/v1alpha1/sleepinfo_types.go:184 | midnight of Monday 5 January 1970 is a tick exactly of schedules that name Monday, hour 0 and minute 0 |
| Schedule.Next | internal/controller/sleepinfo/schedule.go:26-39 | the least tick strictly after a time, at most a week away |
| Schedule.GateTickPosition | internal/controller/sleepinfo/schedule.go:18-30 | the tick the gate looks at is after the last schedule, not further back than delta, and before every other candidate |
| Schedule.GateIff | internal/controller/sleepinfo/schedule.go:11-63 | the gate opens exactly when a tick of the current operation after the last schedule lies within delta of now, up to the truncated millisecond |
| Schedule.GateAimsAtFirst | internal/controller/sleepinfo/schedule.go:26-41 | no tick is passed over: a closed gate requeues at the first due tick of the current operation, an open one at the first tick of the following operation later than delta |
| Schedule.TruncationIsLastSecond | internal/controller/sleepinfo/secrets.go:69-69 | the stored timestamp is the last whole second |
| Schedule.RequeueBound | internal/controller/sleepinfo/schedule.go:33-49 | the requeue delay is more than delta and at most seven days plus delta |
| Schedule.SkippedRequeueBound | internal/controller/sleepinfo/sleepinfo_controller.go:225-233 | a sleep without resources requeues later than the wake-up it skips, at most fourteen days plus delta ahead |
| SleepInfos.GetOriginalReplicas | internal/controller/sleepinfo/deployments/deployments.go:13-28 | the loop over older Deployment entries is the conversion function |
| SleepInfos.GetOriginalCronJobs | internal/controller/sleepinfo/cronjobs/cronjobs.go:13-28 | the loop over older CronJob entries is the conversion function |
| SleepInfos.LegacyReplicasIsLast | internal/controller/sleepinfo/deployments/deployments.go:22-26 | a name is restored exactly when it is not empty and has an entry, to the replicas of its last entry |
| SleepInfos.LegacyCronJobsIsLast | internal/controller/sleepinfo/cronjobs/cronjobs.go:22-26 | the same for the suspend flag of CronJobs |
| LegacySecrets.LegacyLoad | internal/controller/sleepinfo/sleepinfodata.go:53-77 | from a Secret with older entries the Deployments and CronJobs load exactly what the entries convert to, and the wake-up is next |
| LegacySecrets.OthersLoadTheirOwn | internal/controller/sleepinfo/sleepinfodata.go:53-63 | a target without older entries loads what is stored under its own key, whatever older entries there are |
| LegacySecrets.LegacyDeploymentWakes | internal/controller/sleepinfo/sleepinfodata.go:125-144 | from a Secret with older Deployment entries, the wake-up gives a selected Deployment at zero replicas the replicas of its last entry and changes no other path; one without entry, or not at zero, stays as it is |
| LegacySecrets.LegacyCronJobWakes | internal/controller/sleepinfo/sleepinfodata.go:136-142 | the same for CronJobs and their suspend flag |
| SleepInfos.SaveInfo | internal/controller/sleepinfo/secrets.go:74-83 | what the Secret stores for a mapping |
| SleepInfos.UnreadableIff | internal/controller/sleepinfo/sleepinfodata.go:50-69 | a Secret cannot be read exactly when it has data without a readable timestamp |
| Controllers.StepHasShape | internal/controller/sleepinfo/sleepinfo_controller.go:74-198 | every completed reconcile of either controller writes neither cluster nor Secret, or finds nothing, or operates with data the Secret allows |
| Controllers.ForcedMayOperate | internal/controller/sleepinfo/sleepinfoexecution_controller.go:68-92 | what passes the guards of a forced reconcile is a wake-up out of sleep or a sleep out of wakefulness |
| Controllers.StepInterruption | internal/controller/sleepinfo/sleepinfo_controller.go:102-186 | a reconcile is interrupted only by an operation that fails and rejected only by an unreadable Secret |
| Reconcilers.Reconciler.UpsertSecret | internal/controller/sleepinfo/secrets.go:34-97 | writes the Secret whole: timestamp always, operation type with resources, restore patches after a sleep, and erases the rest |
| Reconcilers.Reconciler.HandleSleepInfoStatus | internal/controller/sleepinfo/sleepinfo_controller.go:236-250 | the status has the operation type exactly when there are resources |
| Reconcilers.Reconciler.UpdateExecutionStatus | internal/controller/sleepinfo/sleepinfoexecution_controller.go:161-170 | keeps a start time once set, sets completion, phase and message; a refused write changes nothing |
| Reconcilers.Reconciler.Perform | internal/controller/sleepinfo/sleepinfo_controller.go:169-193 | operation then Secret is the operation of the state machine; a failed operation leaves the Secret alone and every object as it was or operated on |
| Reconcilers.Reconciler.Reconcile | internal/controller/sleepinfo/sleepinfo_controller.go:74-198 | the scheduled reconcile, write by write, refines its step, with what is left behind when it is rejected or interrupted |
| Reconcilers.Reconciler.ReconcileExecution | internal/controller/sleepinfo/sleepinfoexecution_controller.go:32-132 | the forced reconcile, write by write, refines its step, with what is left behind when it is rejected or interrupted |
| RestoreRuns.RestoreTheorem | internal/controller/sleepinfo/sleepinfo_controller.go:74-198 | in every state of every interleaving: operation type SLEEP means each managed uncontrolled object is the patched original and its stored restore patch merges it back to the original, all else untouched; anything else means every object is the original |
| RestoreRuns.AsleepHasPatchedValue | internal/controller/sleepinfo/sleepinfo_controller.go:169-175 | in every state of every run that says SLEEP, a selected uncontrolled object has the value of its patch in force, wherever that single add applies |
| RestoreRuns.AsleepMeansScaledDown | api/v1alpha1/defaultpatches.go:21-43 | so Deployments and StatefulSets whose switch is not off are at zero replicas and CronJobs whose switch is on are suspended, read off the SleepInfo and the original objects |
| RestoreRuns.RunKeepsInv | internal/controller/sleepinfo/sleepinfoexecution_controller.go:32-132 | every state of every run that starts in one of them is the original cluster, or the asleep one with exactly its restore patches in the Secret |
| RestoreRuns.ReconcilesComplete | internal/controller/sleepinfo/sleepinfo_controller.go:169-193 | after any run, the next reconcile of either controller completes |
| RestoreRuns.WakeAll | internal/controller/sleepinfo/jsonpatch/jsonpatch.go:163-233 | waking the asleep cluster with what was saved gives back every original and does not fail |
| RestoreRuns.SleepAgain | internal/controller/sleepinfo/jsonpatch/jsonpatch.go:78-161 | sleeping the asleep cluster again changes neither it nor what is saved |
| RestoreRuns.PlainIsSuitableIff | internal/controller/sleepinfo/jsonpatch/jsonpatch.go:78-233 | with plain patches the hypotheses of the theorem hold exactly when no patch touches a null of an object it manages |
| RestoreRuns.DefaultsAreSuitableIff | api/v1alpha1/defaultpatches.go:21-43 | with the default patches, whatever the switches and filters, exactly when no spec and no patched field of a managed object they apply to holds a null |
| Interruptions.HalfAsleepIsSuitable | internal/controller/sleepinfo/jsonpatch/jsonpatch.go:153-157 | what an interrupted Sleep leaves meets the hypotheses of the theorem again, as an original of its own |
| Interruptions.RetriedSleepLosesIff | internal/controller/sleepinfo/sleepinfo_controller.go:171-193 | after the retried Sleep, its save and the wake-up that loads it, an object is the original exactly if the interrupted Sleep had not reached it |
| Interruptions.InterruptedSleepLosesIff | internal/controller/sleepinfo/sleepinfo_controller.go:171-193 | the same in every awake state of every run that follows the interruption |
| Interruptions.InterruptedWakeUpLosesNothing | internal/controller/sleepinfo/jsonpatch/jsonpatch.go:163-233 | after an interrupted WakeUp the retried one gives back every original and does not fail |
| Discipline.OperationDiscipline | internal/controller/sleepinfo/sleepinfoexecution_controller.go:68-92 | over every run: wake-ups only while the Secret says SLEEP; with a wake-up time, or forced, sleeps only while it does not; the cluster changes by operations only; restore patches are stored only while SLEEP |
| Discipline.NonInterference | internal/controller/sleepinfo/jsonpatch/jsonpatch.go:96-109 | over every run, an object of an untargeted kind, not selected or owned by a controller is never changed, and nothing is stored for it |
| Discipline.ProcessedIsFinal | api/v1alpha1/sleepinfoexecution_types.go:97-104 | over every run a processed execution stays as it is |
| Discipline.InPlaceIsIdle | internal/controller/sleepinfo/sleepinfoexecution_controller.go:70-80 | with the effect in place a forced reconcile touches neither cluster nor Secret, and a status write that goes through ends it, as skipped if it was pending |
| Discipline.ActingPutsInPlace | internal/controller/sleepinfo/sleepinfoexecution_controller.go:109-131 | acting puts the effect in place even when the status writes are refused, and the execution succeeds exactly when they are not |
| Discipline.ActedIsIdle | internal/controller/sleepinfo/sleepinfoexecution_controller.go:70-107 | an execution that has had its effect, or finds nothing left to have it on, is idle |
| Discipline.ActsAtMostOnce | internal/controller/sleepinfo/sleepinfoexecution_controller.go:40-131 | over every run: after a step at which an execution acts, and as long as the opposite operation is not carried out, every further reconcile of it leaves cluster and Secret alone, whatever happens in between; a status write that goes through ends it, as succeeded exactly if those of the acting step went through |
| Discipline.AttemptActsIff | internal/controller/sleepinfo/sleepinfoexecution_controller.go:40-107 | an attempt acts exactly when the execution is pending, names this SleepInfo, asks for the opposite of what is in place and for nothing the SleepInfo cannot do, and some target lists an object |
| Discipline.AttemptEnds | internal/controller/sleepinfo/sleepinfoexecution_controller.go:48-131 | an attempt that acts ends the execution as succeeded; else it ends as failed for a missing SleepInfo or a missing wake-up time and as skipped otherwise; the start time is kept once set; a refused write leaves it as it was |
| Discipline.MessageIsTrue | internal/controller/sleepinfo/sleepinfoexecution_controller.go:50-131 | whatever an execution's message says was so when it was written |
| Discipline.SucceededIff | internal/controller/sleepinfo/sleepinfoexecution_controller.go:122-131 | over every run an execution has succeeded exactly if it had at the start or some attempt acted and its status writes went through |
| Discipline.StatusMirrorsSecret | internal/controller/sleepinfo/sleepinfo_controller.go:236-250 | over every run in which no write of it is refused, the status of the SleepInfo names an operation exactly when the Secret does, the same one, and its time |
| RepeatedSleep.EntryAfterSleep | internal/controller/sleepinfo/jsonpatch/jsonpatch.go:126-138 | one more sleep gives an object a new entry exactly if it changes it, and else keeps the one loaded, unless its target has no object |
| RepeatedSleep.NewEntryMeans | internal/controller/sleepinfo/jsonpatch/jsonpatch.go:126-138 | a new entry is the reverse difference to the object the sleep found |
| RepeatedSleep.LastChangeIsKept | internal/controller/sleepinfo/jsonpatch/jsonpatch.go:44-249 | over any number of sleeps with save and reload and any edits between, the entry is that of the last sleep that changed the object |
| RepeatedSleep.EmptyListingDropsEntries | internal/controller/sleepinfo/jsonpatch/jsonpatch.go:55-61 | a sleep that lists no object of a target drops its entries |
| Progress.NextOperation | internal/controller/sleepinfo/sleepinfodata.go:41-77 | the Secret an operation leaves makes the following operation the next one, or the same sleep again when it found nothing |
| Progress.ExecutedAim | internal/controller/sleepinfo/schedule.go:33-41 | an executing reconcile requeues at a tick of the operation that its Secret makes next, more than delta ahead |
| Progress.SkippedAim | internal/controller/sleepinfo/sleepinfo_controller.go:116-121 | a skipping reconcile changes nothing and requeues at the tick it waits for |
| Progress.OpenAtNextTick | internal/controller/sleepinfo/schedule.go:11-45 | at such a tick, or less than delta after it, the gate is open |
| Progress.RequeueDrivenProgress | internal/controller/sleepinfo/sleepinfo_controller.go:142-167 | reconciles each run when the previous one asked, or less than delta late: every one after the first executes, more than delta after its predecessor, whatever the cluster holds |
| Progress.EveryTickIsServed | internal/controller/sleepinfo/schedule.go:26-41 | in such a run, between a reconcile that is not an empty sleep and the next no tick of the operation that is due goes by, and the next serves the first one, less than delta late |
| Progress.ActsOnSchedule | internal/controller/sleepinfo/schedule.go:11-63 | a scheduled reconcile sleeps only around a tick of the sleep schedule and wakes up only around one of the wake-up schedule |
| Progress.ReconcileExecutesIff | internal/controller/sleepinfo/sleepinfodata.go:41-77 | when a scheduled reconcile executes, from the Secret and the two schedules only |
| Progress.DueIsDone | internal/controller/sleepinfo/sleepinfo_controller.go:169-193 | an executing reconcile that completes and found resources has carried out the operation that was due |
| Progress.EmptySleepSkipsTheWakeUp | internal/controller/sleepinfo/sleepinfo_controller.go:150-156 | a sleep that finds nothing requeues past the next wake-up |
| Progress.HourlySleepIsSkipped | internal/controller/sleepinfo/sleepinfo_controller.go:225-233 | with a sleep every hour and a wake-up every morning, every sleep that finds nothing passes over a later one |
| Progress.EmptySleepSkipsASleepIff | internal/controller/sleepinfo/sleepinfo_controller.go:225-233 | it passes over a sleep as well exactly when there is no wake-up or the next sleep comes no later than the next wake-up |

## Left out

- ManagedResources.ApiServer.List: requires at most 500 objects that match the server selectors; what a longer list loses is stated on `Selector.ListingIsCompleteIff` instead.
- ManagedResources.ApiServer.Apply: field ownership, managedFields, resourceVersion and lists merged by key are server behaviour; apply is modelled as a merge, and the restore results rely on it only for changes without nulls.
- SleepInfos.GetOriginalReplicas: entries are already decoded; replica counts are unbounded integers.
- Controllers.StepHasShape: reconciles are atomic; two at once on the same namespace, and errors of the API server other than the ones modelled (refused applies and patches, refused status writes of a forced reconcile), are not modelled. A list call does not fail, and what an operation that stops halfway leaves is the subject of `Interruptions`.
- Progress.RequeueDrivenProgress: no forced execution writes the Secret between two scheduled reconciles, since a forced one does not move the pending requeue.
- Schedules are weekly sets in UTC: the cron parser, time zones and daylight-saving shifts are library code. Times are unbounded, so the saturation of 64-bit durations does not occur.
- JSON Patch `test`, `move` and `copy`, and steps into arrays, are reported as errors outside the model; arrays are replaced whole.
- Merge patches follow RFC 7396 to the letter: the library's pruning of nulls inside array items is not modelled.
- JSON, YAML and RFC 3339 text, and selector strings, are modelled as values; undecodable stored restore patches and older entries are not modelled beyond an unreadable timestamp.
- Owner references of Secrets and executions, metrics, logging, the webhook, REST mapping, watches and work queues have no hard property.
