# obs-operator in Dafny

obs-operator reconciles Kubernetes `Bucket` objects with OBS buckets. This project models its two
controllers, the provider resolver and the client cache, and proves what they promise over whole runs:
with crashes between any two API calls, replies that are lost after the effect happened, users and other
OBS clients who act in between, and threads that interleave.

`dafny verify dfyconfig.toml` checks everything.

## How the model is organised

- `Lifecycle` is the Bucket reconciler as a state machine: one step per API call, each of which succeeds,
  fails without effect, or takes effect while the reply is lost. A ghost tag says who created the remote
  bucket, and every mutating call is recorded with what it hit. `LifecycleSafety` has leaks, ownership and data
  safety, `LifecycleWindow` the limits of ownership, `LifecycleConsent` whether destruction is still wanted,
  `LifecycleProgress` dropped work, `LifecycleAnswers` what single answers of the service lead to,
  `LifecycleReady` what Ready=True says, `LifecycleConflict` the refused create, `LifecycleConvergence` and
  `LifecycleDeletion` where undisturbed reconciles lead. `Reconciler` is the same reconcile written as a method
  with the control flow of the source; it is proved to move only along runs of the machine.
- `Settings`, `Acl`, `Tags` and `ForceDestroy` are the parts of a reconcile that loop over data: the six
  update steps, recognition of canned ACLs, the tag list, and the paged deletion.
- `Status` has condition bookkeeping and change detection, on values and, in `UpdateBucketStatus`, on the
  shared condition list that the source mutates.
- `Errors` is the error tree with `errors.Is`/`errors.As` as a depth-first search, the classifier that decides
  between parking and retrying, and the reason that is recorded.
- `Text`, `Secrets`, `Encoding` and `Endpoint` turn Secrets and ProviderConfigs into credentials, hashed byte
  strings and canonical endpoints.
- `ClientCache` is the cache and the resolver as objects; `CacheLedger` is the cache under any number of
  threads, at the granularity of its lock. The methods of the object are proved to take the steps of the threads.
- `WakeUp` and `WakeUpSafety` are the chain of events from a Secret over ProviderConfigs to Buckets.
  `ProviderReconciler` is the ProviderConfig reconcile on the cache and the object, tied to the findings and
  patches of that chain.

## Assumptions

Reads are fresh. One reconcile runs at a time per key. One Bucket object has the name of an OBS bucket. A
create that is answered with a conflict has had no effect; any other error answer may hide an effect. Nobody but
the controller sets or clears its finalizer. Resource versions and object identities are never reused. The hash
has no collisions. Listing for event mapping does not fail. The group names in ACL grants are `AllUsers` and
`LogDelivery`, without slashes. The service answers that a setting, a tag set or a bucket is absent only when it
is, and lists pages that are complete unless they say otherwise.

## What does not hold as one might expect

- The ownership window opens with the observation that precedes the claim, before the finalizer exists. A
  bucket that somebody else creates anywhere in the window can be deleted by the controller
  (`ForeignCreateInWindowIsHarmful`); without such a create ownership is safe (`OwnershipSafety`).
- The last observation checks neither existence nor settings again (`ReadyDoesNotRecheckExistence`,
  `ReadyDoesNotRecheckSettings`). Ready=True is true of the bucket exactly when both held at that observation
  (`FinalObservationDecides`), and always while nobody else changes the bucket (`ReadyIsTruthful`).
- An ACL that is reported without an owner is never recognised: it is written again by every reconcile and
  does not match afterwards either (`PutEstablishes`).
- A finalizer patch replaces the whole list. A finalizer that another owner sets or clears after the object was
  read is lost or comes back (`PatchOnOtherFinalizers`).
- A status patch addresses the object by name. If the object is re-created in the middle of a reconcile,
  observedGeneration can exceed generation (`StaleReportOvertakesGeneration`, `ReportStaysBoundedExactly`).
- A join under two or more wrappers is classified as one failure, correctable if a search finds anything
  correctable in it (`Verdict`, `HiddenFailureIsParked`, `MeaningExactly`). Reconcile builds no such error: every
  error that reaches the status is shallow (`ParkedExactlyWhenCorrectable`).
- The ProviderConfig reconciler does not retry a Secret read that failed for a transient reason. Two such
  failures in a row lose a wake-up (`FailedReadsLoseWakeUp`), always visibly (`LostWakeUpIsReported`).
- A failure that repeats the one in the status patches nothing. A Secret that appears and goes again between two
  reconciles of its ProviderConfig leaves no trace, and a Bucket that acted meanwhile is not told
  (`RemovedSecretGoesUnnoticed`); in every other case it is (`PendingPatchWakes`).
- Credentials that differ in the place of a NUL share a cache key (`HashCollision`, `NulInKeyServesStaleClient`).
- Whether contents may be destroyed is decided by forceDestroy as it was read when the reconcile began. Unset
  later, it does not stop that reconcile (`WithdrawnConsentComesTooLate`, `WithdrawnConsentEmpties`); as long as
  nobody unsets it in that window, object versions are deleted only with the live object's consent
  (`DeletionsAreConsented`).
- The reason recorded for a create conflict whose finalizer removal found no object is
  ProviderConfigNotFound, because a Kubernetes "not found" comes first (`ConflictWithFailedRemoval`).

## Model

| member | source | states |
|---|---|---|
| `LifecycleSafety.NoLeakedBucket` | internal/controller/bucket_controller.go:116-199 | In every state of every run, with a crash at any point and a reply lost behind any error but a conflict, a still existing bucket that the controller created has a live Bucket object carrying the finalizer |
| `LifecycleSafety.FinalizerLeavesLast` | internal/controller/bucket_controller.go:137-141 | A step that ends the finalizer is the release patch or the conflict patch, and the controller's own bucket is absent before and after it |
| `LifecycleSafety.OwnershipSafety` | internal/controller/bucket_controller.go:92-213 | If nobody else creates a bucket of the name while it is claimed, every settings write, bucket delete and object delete of a whole run hit a bucket the controller had created |
| `LifecycleWindow.ForeignCreateInWindowIsHarmful` | internal/controller/bucket_controller.go:146-202 | That hypothesis is sharp: at every safe moment of the window (from the observation before the claim on, so earlier than the finalizer) a foreign create, with any contents, can be followed by a run in which the controller deletes the foreign bucket and it is gone |
| `LifecycleWindow.HeldForeignIsHarmed` | internal/controller/bucket_controller.go:116-135 | A foreign bucket under a held finalizer is treated as owned: with forceDestroy a user deletion destroys it with its contents |
| `LifecycleWindow.PendingClaimIsHarmed` | internal/controller/bucket_controller.go:165-175 | A claim patch under way does not notice a bucket that appeared after the observation |
| `LifecycleConflict.CreateConflict` | internal/controller/bucket_controller.go:178-199 | After a refused create, whoever acts between the calls: the remote bucket is as the others made it; when the two patches succeed the object ends without finalizer, not ready, with reason BucketAlreadyExists, unless it was re-created meanwhile and shows nothing |
| `LifecycleConflict.ConflictPathLeavesRemoteAlone` | internal/controller/bucket_controller.go:184-198 | However the patches after a refused create end, wherever the controller crashes and whatever others do, the remote bucket changes only by their steps |
| `LifecycleConflict.ConflictStatus` | internal/controller/bucket_controller.go:728-750 | The recorded condition of a conflict is false with reason BucketAlreadyExists, and the reconcile has ended |
| `LifecycleConflict.TakenNameIsReported` | internal/controller/bucket_controller.go:146-163 | Every smooth reconcile of an unclaimed object whose name is taken leaves the bucket as it is, claims nothing, reports BucketAlreadyExists and waits for the user with nothing queued |
| `LifecycleSafety.ObjectDeletionsAuthorised` | internal/controller/bucket_controller.go:116-119 | Over every run object versions are deleted only while the live object is deleted and carries the finalizer, and with forceDestroy set when the object was read |
| `LifecycleConsent.DeletionsAreConsented` | internal/controller/bucket_controller.go:318-336 | Over every run in which nobody unsets forceDestroy while a reconcile acts on it, object versions are deleted only while the live object is deleted, held and has forceDestroy set |
| `LifecycleConsent.WithdrawnConsentComesTooLate` | internal/controller/bucket_controller.go:328-333 | That hypothesis is sharp: at every safe moment at which a reconcile acts on forceDestroy, unsetting it can be followed by a run in which object versions are deleted although the live object forbids it |
| `LifecycleConsent.WithdrawnConsentEmpties` | internal/controller/bucket_controller.go:697-724 | Unset after the last page was listed, forceDestroy does not keep the next call from emptying the bucket |
| `LifecycleConsent.ConsentIsAsOldAsTheCopy` | internal/controller/bucket_controller.go:84-90 | Over every run, the object whose versions are about to be deleted is the one that was read, deleted and held, and has forceDestroy set unless its generation is newer than the copy |
| `LifecycleSafety.ProtectedContentsSurvive` | internal/controller/bucket_controller.go:119-135 | Of a non-empty bucket under deletion without forceDestroy nothing is lost, and the object keeps its finalizer, through any number of reconciles, failures, crashes, additions by other clients and spec changes that leave forceDestroy unset, also when the reconcile under way has a copy from before the deletion |
| `LifecycleSafety.DeletionProtects` | internal/controller/bucket_controller.go:116-135 | A deletion that arrives at any point of a reconcile protects the contents of the controller's bucket from then on |
| `LifecycleSafety.StepKeepsSafe` | internal/controller/bucket_controller.go:81-213 | Every step of the reconciler, of users and of other clients keeps the safety invariant, and keeps ownership unless it is a foreign create in the window |
| `LifecycleSafety.RunKeepsSafe` | internal/controller/bucket_controller.go:81-213 | The safety invariant holds along every run |
| `LifecycleSafety.CallLeavesObject` | internal/controller/bucket_controller.go:232-346 | Calls to OBS change neither the Bucket object nor the reconciler's copy of it |
| `LifecycleProgress.NoDroppedWork` | internal/controller/bucket_controller.go:81-213 | Whenever no reconcile runs and none is queued, the object is gone, untracked, Ready for its generation, or not ready with the reason of the failure that was reported last, and that failure waits for the user: all that it joins is correctable, or it says that a bucket under deletion is not empty and forceDestroy is unset |
| `LifecycleProgress.ParkedExactlyWhenCorrectable` | internal/controller/bucket_controller.go:728-750 | Over every run a reported error is dropped from the queue if and only if every failure it joins is for the user to correct, or it is parked as a bucket under deletion that is not empty with forceDestroy unset |
| `LifecycleProgress.RunProgresses` | internal/controller/bucket_controller.go:81-213 | The progress invariant (no idle object unsettled, reconciler in step with the object while no event is pending) holds along every run |
| `LifecycleProgress.ReportSettles` | internal/controller/bucket_controller.go:728-750 | A report that ends a reconcile without an error leaves an object that is Ready, or shows the reason of just that failure, which waits for the user |
| `LifecycleProgress.FinalizerProgresses` | internal/controller/bucket_controller.go:137-141 | Finalizer patches that end a reconcile quietly leave an event or an untracked object; a failed removal after a conflict is retried |
| `LifecycleAnswers.RefusedDeletionKeepsFinalizer` | internal/controller/bucket_controller.go:323-342 | A delete call answered with anything but status 404 or code NoSuchBucket keeps the finalizer and goes on with the listing or reports just that answer |
| `LifecycleAnswers.AbsentAtDeletion` | internal/controller/bucket_controller.go:323-338 | A delete call answered with status 404 or code NoSuchBucket leads to the release of the finalizer; the second one of a forced deletion is reported instead |
| `LifecycleAnswers.AbsentAtDeletionReleases` | internal/controller/bucket_controller.go:137-143 | Together with the patch it ends with the bucket absent and the object without the finalizer |
| `LifecycleAnswers.FailedCallIsReported` | internal/controller/bucket_controller.go:111-212 | Every other failed call, whatever its status and code, is reported as that failure, with the location and the version known so far, and parked exactly if a bucket is not empty and may not be emptied |
| `LifecycleAnswers.TransientAnswerIsRetried` | internal/controller/bucket_controller.go:743-749 | A failed call with status 404, 408, 409, 429, 5xx or without an answer ends with an error and the key queued, whoever acts meanwhile and however the report goes |
| `LifecycleAnswers.RefusalIsLeftToUser` | internal/controller/bucket_controller.go:743-749 | A call refused with any other 4xx is returned as nil once it is reported, under RequestRejected unless its code names contents or a missing bucket |
| `LifecycleAnswers.BlockedIsLeftToUser` | internal/controller/bucket_controller.go:119-131 | A bucket under deletion that is not empty and may not be emptied is left to the user under BucketNotEmpty |
| `LifecycleAnswers.ProviderFailure` | internal/controller/bucket_controller.go:98-109 | A missing ProviderConfig or Secret, missing keys and an invalid endpoint are left to the user, each under its own reason; other failures to resolve are retried |
| `LifecycleAnswers.UnconfirmedClaimIsRetried` | internal/controller/bucket_controller.go:137-141 | A claim or release that is not confirmed, effective or not, ends with an error and the key queued |
| `LifecycleAnswers.UnconfirmedReportIsRetried` | internal/controller/bucket_controller.go:743-745 | So does a status patch that is not confirmed, even of a success |
| `LifecycleAnswers.UnconfirmedRemovalIsRetried` | internal/controller/bucket_controller.go:184-198 | So does a create conflict whose finalizer removal is not confirmed, whoever acts meanwhile |
| `LifecycleAnswers.PatchOnOtherFinalizers` | internal/controller/bucket_controller.go:903-911 | A finalizer patch sets or clears the controller's own entry, and leaves those of other owners as they are if and only if the copy had them all and no others |
| `LifecycleConvergence.TwoReconcilesConverge` | internal/controller/bucket_controller.go:146-213 | Any two smooth reconciles, whatever the times of their answers, finish an unclaimed absent bucket and no fewer: after the first the bucket is absent, the status as before and the next queued by an event that passes the filter; after the second nothing is queued and all settings match, exactly if the account has an ID |
| `LifecycleConvergence.DriftIsRepaired` | internal/controller/bucket_controller.go:202-212 | Every smooth reconcile of a drifted bucket of the controller, whatever its settings, attains them all and ends Ready with nothing queued; they match exactly if the ACL has an owner |
| `LifecycleConvergence.SmoothReconcilesConverge` | internal/controller/bucket_controller.go:146-213 | From every reachable state without a foreign bucket, smooth reconciles of an object that is not being deleted finish, one if it is claimed and two if it is not; they converge exactly if the ACL has an owner |
| `LifecycleConvergence.FinishedConverges` | internal/controller/bucket_controller.go:980-983 | What is finished has converged, unless the ACL is reported without an owner |
| `LifecycleConvergence.FirstReconcileClaims` | internal/controller/bucket_controller.go:165-175 | Every smooth reconcile of an unclaimed absent bucket changes nothing but the finalizers and queues the next |
| `LifecycleConvergence.SecondReconcileConverges` | internal/controller/bucket_controller.go:176-212 | Every smooth reconcile of a claimed absent bucket ends with the controller's bucket, every setting attained, Ready=True and nothing queued; all settings match exactly if the account has an ID |
| `LifecycleConvergence.ConvergedIsReady` | internal/controller/bucket_controller.go:867-901 | A converged object reports Ready=True with reason BucketReady for its own generation, and the region, domain and version observed |
| `LifecycleConvergence.ConvergedIsFixpoint` | internal/controller/bucket_controller.go:202-212 | Every further smooth reconcile of a converged bucket issues no OBS write and no patch and changes nothing |
| `LifecycleConvergence.TrackEnds` | internal/controller/bucket_controller.go:295-316 | From the first setting every run of successful calls ends Ready with all settings as specified, and leaves a state that was so before as it was |
| `LifecycleConvergence.SmoothReconcileExists` | internal/controller/bucket_controller.go:81-213 | Every tracked Bucket that is not being deleted and has no foreign bucket in its way has a smooth reconcile |
| `LifecycleConvergence.ProtocolTakesUpdateStep` | internal/controller/bucket_controller.go:309-313 | The calls of the protocol about one setting are the step of update on it, with the same effect and the same error |
| `LifecycleReady.ReadyIsTruthful` | internal/controller/bucket_controller.go:202-213 | Over every run with crashes, failures and lost replies: while nobody else has changed the bucket since the reporting reconcile began to read, Ready=True for the present generation means finalizer, an existing bucket and every setting as specified exactly if its ACL has an owner; and the controller's own bucket if none was created by others while claimed |
| `LifecycleReady.ReadyIsTruthfulAlone` | internal/controller/bucket_controller.go:202-213 | In every run without steps of other OBS clients, Ready=True for the present generation means a bucket of the controller with every setting as specified |
| `LifecycleReady.FinalObservationDecides` | internal/controller/bucket_controller.go:207-212 | Until the next reconcile Ready=True is true of the bucket if and only if at the last observation the bucket existed with every setting of the spec the reconcile worked for |
| `LifecycleReady.StepKeepsReporting` | internal/controller/bucket_controller.go:81-213 | Every step keeps the link between copy, object, status, verified settings and trusted reports |
| `LifecycleReady.SuccessEffect` | internal/controller/bucket_controller.go:867-901 | A report of success lands on the incarnation it is about and shows the generation it worked for |
| `LifecycleReady.FailureEffect` | internal/controller/bucket_controller.go:867-901 | A report of a failure leaves the object as it is or not ready, also on a re-created object |
| `LifecycleDeletion.DeletionConverges` | internal/controller/bucket_controller.go:116-144 | If the bucket is absent, empty or may be emptied, every reconcile without failures ends with the bucket absent and the finalizer gone, whatever honest pages are listed; the object goes with it unless other finalizers hold it |
| `LifecycleDeletion.FaultlessReconcileExists` | internal/controller/bucket_controller.go:318-346 | For every deleted object whose bucket may go there is a reconcile without failures |
| `LifecycleDeletion.DeletionEnds` | internal/controller/bucket_controller.go:664-726 | However the service cuts the contents into honest pages, a reconcile without failures is bounded in its calls and can go on until it has ended |
| `LifecycleDeletion.FaultlessRestIsBounded` | internal/controller/bucket_controller.go:664-726 | The bound, by the number of entries and the calls left, from every point of such a reconcile |
| `LifecycleDeletion.RestDeletes` | internal/controller/bucket_controller.go:318-335 | A reconcile without failures deletes the bucket that it found, whoever created it |
| `LifecycleDeletion.PageIsAnswer` | internal/controller/bucket_controller.go:697-724 | An honest page is an answer of the protocol, which goes on after it exactly when the loop does |
| `LifecycleReady.ReadyDoesNotRecheckExistence` | internal/controller/bucket_controller.go:207-212 | A bucket deleted by somebody else before the last observation is reported Ready although it is gone |
| `LifecycleReady.ReadyDoesNotRecheckSettings` | internal/controller/bucket_controller.go:207-212 | Settings changed by somebody else before the last observation are reported Ready although they differ |
| `LifecycleConvergence.ObservedGenerationIsMonotone` | internal/controller/bucket_controller.go:874-900 | Along runs that do not re-create the object in the middle of a reconcile, observedGeneration never exceeds generation and never goes back on one incarnation |
| `LifecycleConvergence.ReportStaysBoundedExactly` | internal/controller/bucket_controller.go:874-900 | A status patch keeps observedGeneration within generation if and only if the copy is not newer than the object it lands on or the patch does not carry the field |
| `LifecycleConvergence.StaleReportOvertakesGeneration` | internal/controller/bucket_controller.go:900 | A report about a deleted object of generation 2 lands on its successor of generation 1 |
| `Reconciler.BucketReconciler.Reconcile` | internal/controller/bucket_controller.go:81-213 | The method with the source's control flow moves the cluster along a run of the protocol; an error means the key is queued, a quiet return means the object is gone or settled |
| `Reconciler.BucketReconciler.Work` | internal/controller/bucket_controller.go:81-114 | Reading, resolving and observing follow the protocol up to the point where the branches part |
| `Reconciler.BucketReconciler.Act` | internal/controller/bucket_controller.go:116-213 | The branches for deletion, unmanaged and owned buckets follow the protocol |
| `Reconciler.BucketReconciler.CreateRemote` | internal/controller/bucket_controller.go:176-199 | Creation ends at the first setting or at a report; after a conflict the report carries the object as the patch left it |
| `Reconciler.BucketReconciler.DeleteRemote` | internal/controller/bucket_controller.go:318-346 | Deletion ends ready to release the finalizer or at a report, and is parked if and only if the bucket is not empty and forceDestroy is unset |
| `Reconciler.BucketReconciler.DeleteAllBucketObjects` | internal/controller/bucket_controller.go:664-726 | The loop follows the protocol page by page and ends at the second delete or at a report |
| `Reconciler.BucketReconciler.Update` | internal/controller/bucket_controller.go:295-316 | The six settings are read and written in order; success leads to the final observation |
| `Reconciler.BucketReconciler.PatchStatus` | internal/controller/bucket_controller.go:728-750 | The reconcile ends; it returns an error exactly when the protocol records a failure |
| `Reconciler.BucketReconciler.PatchFinalizer` | internal/controller/bucket_controller.go:903-911 | The two finalizer patches that end a reconcile return an error exactly when the protocol records a failure |
| `Reconciler.ReachedStatesAreGood` | internal/controller/bucket_controller.go:81-213 | What holds along every run holds wherever the method gets to |
| `Settings.ObsBucket.Update` | internal/controller/bucket_controller.go:295-316 | For every prior state and every failure point: settings before the failing step are as specified, later ones have their old value, no match is lost, success means that all six are as the spec asks exactly if the ACL has an owner, and a second run writes nothing |
| `Settings.AllMatchMeans` | internal/controller/bucket_controller.go:348-662 | A bucket matches if and only if all six settings are as the spec asks, in the terms of the spec and of the wire: class names old and new, grants, Enabled or Suspended, the denoted tags, the three logging fields, kms with key and project |
| `Settings.MatchMeans` | internal/controller/bucket_controller.go:348-662 | The same for each setting |
| `Settings.AbsenceIsFilled` | internal/controller/bucket_controller.go:534-568 | A read that says that there is no tag set or no encryption ends the step if none is wanted, and is followed by the write if one is; any other failed read ends the step with its error |
| `Settings.DeletionOfNothingIsDone` | internal/controller/bucket_controller.go:473-480 | A failed write is passed over if and only if it deletes tags or encryption and the answer says that there are none |
| `Settings.ObsBucket.ReconcileStorageClass` | internal/controller/bucket_controller.go:348-382 | Does, for every answer of its two calls, the read, comparison and write that the protocol has for the storage class |
| `Settings.ObsBucket.ReconcileAcl` | internal/controller/bucket_controller.go:384-414 | Does, for every answer of its two calls, the read, comparison and write that the protocol has for the ACL, recognised through its grants |
| `Settings.ObsBucket.ReconcileVersioning` | internal/controller/bucket_controller.go:416-453 | Does, for every answer of its two calls, the read, comparison and write that the protocol has for versioning |
| `Settings.ObsBucket.ReconcileTags` | internal/controller/bucket_controller.go:455-497 | Does, for every answer of its two calls, the read, comparison and write that the protocol has for tags, with absence of a tag set read as no tags and tolerated on deletion |
| `Settings.ObsBucket.ReconcileLogging` | internal/controller/bucket_controller.go:499-528 | Does, for every answer of its two calls, the read, comparison and write that the protocol has for logging |
| `Settings.ObsBucket.ReconcileEncryption` | internal/controller/bucket_controller.go:530-580 | Does, for every answer of its two calls, the read, comparison and write that the protocol has for encryption, with absence and an unsupported file system read as none |
| `Settings.StepIsAllowed` | internal/controller/bucket_controller.go:348-580 | With truthful answers a step touches only its own setting, at most once and only when it differs; it ends as it was or as specified, and success means specified |
| `Settings.PutEstablishes` | internal/controller/bucket_controller.go:359-369 | A write makes its own setting match, except for an ACL without an owner, and leaves the other five as they were |
| `Settings.OthersKeepTheirValue` | internal/controller/bucket_controller.go:300-313 | A step on one setting leaves the value and the verdict of every other one |
| `Acl.Matches` | internal/controller/bucket_controller.go:1025-1049 | For distinct expected signatures the length and set tests decide equality of multisets of normalized grants |
| `Acl.Pigeonhole` | internal/controller/bucket_controller.go:1025-1049 | Equal length and containment of pairwise distinct signatures make the two lists permutations of each other |
| `Acl.FlattenCanned` | internal/controller/bucket_controller.go:980-1023 | Returns a canned ACL if and only if the grants are a permutation of that ACL's grants and the owner is known |
| `Acl.RecognisedMeans` | internal/controller/bucket_controller.go:980-1063 | A canned ACL is recognised if and only if the list grants the owner full control, the named groups their rights, nothing else, and nothing delivered |
| `Acl.Test` | internal/controller/bucket_controller.go:1011-1019 | One case of the switch holds exactly for the permutations of that ACL's grants |
| `Acl.AtMostOneCanned` | internal/controller/bucket_controller.go:1011-1022 | No grant list matches two canned ACLs, so the order of the cases does not matter |
| `Acl.CannedGrantsAreRecognised` | internal/controller/bucket_controller.go:980-1063 | Every permutation of the grants of a canned ACL, with group URIs under any prefix, is recognised as that ACL |
| `Acl.LastSegmentOfPath` | internal/controller/bucket_controller.go:1051-1063 | Normalization recovers a slash-free group name from any URI that ends in it |
| `Acl.SignaturesOfPermutation` | internal/controller/bucket_controller.go:1030-1040 | The multiset of signatures depends on the grants only up to order |
| `Tags.TagsFromMap` | internal/controller/bucket_controller.go:598-613 | For every enumeration of the keys the list is strictly sorted by key and folds back to the map |
| `Tags.BucketTags` | internal/controller/bucket_controller.go:591-595 | The loop computes the map that the list denotes, later entries winning |
| `Tags.SortStrings` | internal/controller/bucket_controller.go:603 | The key list becomes ascending and keeps its elements |
| `Tags.CanonicalTags` | internal/controller/bucket_controller.go:598-613 | Two strictly sorted lists denote the same map if and only if they are equal, so the encoding is deterministic |
| `Tags.CanonicalMeans` | internal/controller/bucket_controller.go:598-613 | Strictly sorted and folding to the map means: the entries of the map, in the byte order of their keys |
| `Tags.LessMeans` | internal/controller/bucket_controller.go:603 | The order is that of Go strings: the first difference decides, a proper prefix comes first |
| `Tags.FoldMeans` | internal/controller/bucket_controller.go:591-595 | A list folds to a map if and only if it has its keys and the last entry of each key its value |
| `Tags.FoldIsEmpty` | internal/controller/bucket_controller.go:470-480 | A list denotes the empty map exactly when it is empty |
| `ForceDestroy.DeleteAllBucketObjects` | internal/controller/bucket_controller.go:664-726 | The loop terminates under every listing; it returns nil with an empty bucket if and only if the last page listed all there was; with full pages it makes exactly N/1000+1 list calls and ceil(N/1000) delete calls |
| `Status.UpdateBucketStatus` | internal/controller/bucket_controller.go:867-901 | A patch is sent if and only if some field changed, although the working copy shares its condition list with the object; it carries the old and the new status exactly |
| `Status.SetStatusCondition` | internal/controller/bucket_controller.go:885 | Rewrites a present condition in place or appends to a new list, with the result that the pure definition gives |
| `Status.DeepCopy` | internal/controller/bucket_controller.go:874 | The copy is equal and shares no condition list |
| `Status.RepeatedReportPatchesNothing` | internal/controller/bucket_controller.go:887-895 | A repeated report finds nothing changed, at whatever later time, and leaves the status as it is |
| `Status.UpdatedShowsReport` | internal/controller/bucket_controller.go:867-901 | The status after an update shows the reported generation and condition whether or not a patch was needed |
| `Status.UpdatedShowsBucket` | internal/controller/bucket_controller.go:875-883 | Region, domain and version are those of the report, or stay when it does not know them, whether or not a patch was needed |
| `Status.TransitionTime` | internal/controller/bucket_controller.go:885 | The transition time moves exactly when the condition is new or flips |
| `Status.PatchCarriesDifferences` | internal/controller/bucket_controller.go:900 | A patch on its own original or on its own result gives the result, and an empty one changes nothing |
| `Status.SetConditionKeepsListMap` | internal/controller/bucket_controller.go:885 | A list with one entry per type keeps that shape and its other entries in their places |
| `Status.FindAfterSet` | internal/controller/bucket_controller.go:885 | After an update the entry of the type is found where it was, or at the end |
| `Errors.ClassifierMeaning` | internal/controller/bucket_controller.go:772-805 | If every wrapper sits on a join or on a tree without joins, an error is correctable if and only if every joined failure is |
| `Errors.Verdict` | internal/controller/bucket_controller.go:772-805 | On every tree an error is parked if and only if every failure the classifier tells apart is the user's to correct: it names a missing or invalid thing or a taken name, or is refused with a 4xx other than 404, 408, 409 and 429 |
| `Errors.ShallowShowsAll` | internal/controller/bucket_controller.go:777-792 | If every wrapper sits on a join or on a tree without joins, the failures told apart are exactly the failures joined |
| `Errors.ShallowHidesNothing` | internal/controller/bucket_controller.go:777-792 | The trees of that shape are exactly those that hide no join |
| `Errors.ClassifierComplete` | internal/controller/bucket_controller.go:772-805 | On every tree, an error whose joined failures are all correctable is correctable |
| `Errors.MeaningExactly` | internal/controller/bucket_controller.go:781-789 | On every tree the verdict means that all joined failures are correctable if and only if some visible failure is not correctable or every hidden join joins correctable failures only |
| `Errors.HiddenFailureIsParked` | internal/controller/bucket_controller.go:781-789 | Under two wrappers of any kind a failure that is not correctable is parked with a correctable one |
| `Errors.DeepJoinParksTransientFailure` | internal/controller/bucket_controller.go:781-789 | A join of a conflict and a transient failure, wrapped twice, is parked |
| `Errors.JoinFreeVerdict` | internal/controller/bucket_controller.go:781-792 | Without joins the recursion answers what the search over the whole tree answers |
| `Errors.CorrectableIsVisible` | internal/controller/bucket_controller.go:807-814 | Every parked tree is recognised by the search over the whole tree |
| `Errors.SearchFinds` | internal/provider/provider_resolver.go:43-56 | The search visits every node, among them the kind of a not-found error |
| `Errors.FirstAnswer` | internal/controller/bucket_controller.go:1116-1134 | Of several answers of the service the first in depth-first order counts |
| `Errors.TypeMeans` | internal/controller/bucket_controller.go:807-814 | What the classifier looks for is any named failure, or a first answer with status 400 to 499 other than 404, 408, 409 and 429 |
| `Errors.AnswersAreUnderstood` | internal/controller/bucket_controller.go:1094-1140 | An answer counts as absence, contents, conflict or refusal exactly by its status and code |
| `Errors.AnswerReason` | internal/controller/bucket_controller.go:845-855 | The reason for an answer of the service, by status and code |
| `Errors.MissingReasons` | internal/controller/bucket_controller.go:834-840 | The reasons for a missing ProviderConfig and a missing Secret |
| `Errors.InvalidReasons` | internal/controller/bucket_controller.go:841-846 | The reasons for missing keys, an invalid endpoint and a taken name |
| `Errors.NamedFailuresAreParked` | internal/controller/bucket_controller.go:807-812 | Every named failure is parked, a plain Kubernetes failure is not |
| `Errors.CorrectableReason` | internal/controller/bucket_controller.go:816-857 | For all trees a correctable error never gets reason ReconcileFailed or BucketReady |
| `Errors.KubeFailureIsRetried` | internal/controller/bucket_controller.go:807-814 | A failure of a Kubernetes call, wrapped or not, is never parked |
| `Errors.ConflictWithFailedRemoval` | internal/controller/bucket_controller.go:184-198 | A create conflict whose finalizer removal failed too is always handed back for retry, and has the shape on which the classifier is exact |
| `Encoding.CredentialsHash` | internal/provider/provider_resolver.go:251-259 | The bytes written to the hash are the encoding of the credentials |
| `Encoding.CredentialsRoundTrip` | internal/provider/provider_resolver.go:251-259 | Credentials can be read back from that encoding if and only if both keys are free of NULs; the token may hold anything |
| `Encoding.HashIdentifiesCredentials` | internal/provider/provider_resolver.go:251-259 | Under a collision-free hash, equal hashes mean equal credentials for keys free of NULs |
| `Encoding.HashCollision` | internal/provider/provider_resolver.go:251-259 | Moving a NUL across a separator gives different credentials the same hash |
| `Encoding.ObservedProviderRevision` | internal/provider/provider_resolver.go:261-284 | The loop hashes the encoding of the ten fields |
| `Encoding.FieldsRoundTrip` | internal/provider/provider_resolver.go:267-283 | A list of terminated fields can be read back if and only if every field is free of NULs |
| `Encoding.RevisionIdentifiesInputs` | internal/provider/provider_resolver.go:261-284 | Two revisions are equal if and only if all ten inputs are, so a new resource version or generation always shows |
| `Encoding.DecimalRoundTrip` | internal/provider/provider_resolver.go:272 | The decimal form of a generation determines it |
| `Secrets.UsableExactly` | internal/provider/provider_resolver.go:221-248 | Credentials are accepted if and only if both keys hold more than white space, Unicode included; otherwise the missing key is named, the access key first |
| `Secrets.CredentialsAreHeld` | internal/provider/provider_resolver.go:221-248 | From values with any white space around them, and no token or one, come the credentials with each value in its place |
| `Secrets.ReadsWhatIsHeld` | internal/provider/provider_resolver.go:221-248 | Credentials are read if and only if the Secret holds them |
| `Secrets.PaddingIsIgnored` | internal/provider/provider_resolver.go:222-226 | White space around the values changes neither the outcome nor the credentials |
| `Endpoint.AdmittedEndpointResolves` | internal/provider/provider_resolver.go:287-321 | Every endpoint the custom resource admits resolves to https:// and its host and port, without a trailing slash, whatever the region |
| `Endpoint.DerivedEndpointResolves` | internal/provider/provider_resolver.go:290-292 | Every admitted region yields https://obs.REGION.otc.t-systems.com when no endpoint is given |
| `Endpoint.SpellingsShareEndpoint` | api/v1alpha1/providerconfig_types.go:29-37 | Two admitted spellings resolve to one endpoint if and only if they differ at most in scheme prefix and trailing slash |
| `Endpoint.ResolutionIsIdempotent` | internal/provider/provider_resolver.go:287-321 | A resolved endpoint resolves to itself |
| `Endpoint.OtherSchemeIsRefused` | internal/provider/provider_resolver.go:301-303 | Only https is spoken |
| `Endpoint.TrailerIsRefused` | internal/provider/provider_resolver.go:307-315 | A path, a query or a fragment after the authority is refused |
| `Endpoint.PaddingIsIgnored` | internal/provider/provider_resolver.go:288-289 | White space around region and endpoint does not matter |
| `Endpoint.ParseComposed` | internal/provider/provider_resolver.go:297-307 | Parsing recovers scheme, authority and path of a composed URL |
| `ClientCache.ResolveObject` | internal/provider/provider_resolver.go:169-197 | On an equal key the cached client is handed out and nothing is built, stored or closed; otherwise the new client is stored under the key and the replaced one closed. The record is new to the caller; while no keys with NULs are about its client was built from exactly the inputs just read; other providers keep their clients |
| `ClientCache.Annotate` | internal/provider/provider_resolver.go:184-187 | What a caller writes to its record never reaches a stored entry |
| `ClientCache.KeyDeterminesInputs` | internal/provider/provider_resolver.go:169-180 | Under one cache key lie equal inputs |
| `ClientCache.KeyOf` | internal/provider/provider_resolver.go:169-180 | The key speaks about the inputs of the request and names its objects |
| `ClientCache.Cache.Get` | internal/provider/cache.go:30-44 | A record is returned exactly for an equal key, as a fresh copy of a pristine entry |
| `ClientCache.Cache.Set` | internal/provider/cache.go:46-76 | An equal key wins over the new client, which is closed; otherwise the new client is stored and the replaced one closed |
| `ClientCache.Cache.InvalidateProvider` | internal/provider/cache.go:79-95 | Exactly the entry of that provider goes, and its client is closed |
| `ClientCache.Cache.CloseClients` | internal/provider/cache.go:127-137 | Every client of the list is closed, in order |
| `CacheLedger.ClientLedger` | internal/provider/cache.go:46-95 | For any number of threads every built client is in exactly one place; it is closed at most once and the map never holds a closed client |
| `CacheLedger.StepKeepsLedger` | internal/provider/cache.go:46-95 | Every step at lock granularity keeps the ledger and the agreement of entry key and map key |
| `CacheLedger.CachedResolveRefinesFreshBuild` | internal/provider/provider_resolver.go:142-198 | In every interleaving, what a resolve returns was built from what that resolve had read |
| `CacheLedger.StepRefines` | internal/provider/provider_resolver.go:183-197 | Every step keeps the agreement of clients with the inputs they are held or returned for |
| `CacheLedger.NulInKeyServesStaleClient` | internal/provider/provider_resolver.go:251-259 | With a NUL in a key, a second resolve is answered with the first one's client |
| `CacheLedger.SetSteps` | internal/provider/cache.go:46-76 | The method on the cache object does what a thread of the interleaving model does from storing to returning |
| `CacheLedger.InvalidateSteps` | internal/provider/cache.go:79-95 | The same for invalidation |
| `CacheLedger.ClosingFinishes` | internal/provider/cache.go:127-137 | A thread left alone closes its whole list, in order, and then returns |
| `ProviderReconciler.ProviderConfigReconciler.Reconcile` | internal/controller/providerconfig_controller.go:59-129 | Afterwards, patched or not, the status shows the verdict that fits what was read, this generation, and the revision exactly if a client was got; a patch is sent if and only if the status did not do so before; the cache holds a client for the provider if and only if it was validated, built from the values that the Secret holds; other providers keep theirs |
| `ProviderReconciler.ProviderConfigReconciler.Examine` | internal/controller/providerconfig_controller.go:82-89 | After a failed resolution or validation the provider has no cached client, after a success it has one built from what was read |
| `ProviderReconciler.ProviderConfigReconciler.Resolve` | internal/provider/provider_resolver.go:142-198 | The finding follows the order of the checks in the source, and a resolved one comes with a cached client for the inputs just read |
| `ProviderReconciler.ProviderConfigReconciler.Precheck` | internal/provider/provider_resolver.go:150-167 | The verdict that fits: no Secret, no answer, a key without more than white space, an invalid endpoint, in this order |
| `ProviderReconciler.ProviderConfigReconciler.UpdateStatus` | internal/controller/providerconfig_controller.go:244-268 | The status shows verdict, revision and generation of the finding, and a patch is sent if and only if it did not before |
| `ProviderReconciler.AdmittedSpecResolves` | internal/provider/provider_resolver.go:163-167 | Every region and endpoint that the custom resource admits gives a spec that resolves and is hashed without NULs |
| `ProviderReconciler.SpellingsShareSpec` | internal/provider/provider_resolver.go:163-181 | Two admitted spellings give one spec, and so one key and one revision, if and only if they name one authority |
| `WakeUp.RequestsFor` | internal/controller/providerconfig_controller.go:197-206 | The requests are exactly the keys of the listed objects that refer to the object of the event, in its namespace |
| `WakeUp.RequestsAreConfigs` | internal/controller/providerconfig_controller.go:175-207 | The requests mapped from a Secret event are exactly the ProviderConfigs that the event chain queues |
| `WakeUp.RequestsAreBuckets` | internal/controller/bucket_controller.go:937-970 | The requests mapped from a ProviderConfig event are exactly the Buckets that the event chain queues |
| `WakeUpSafety.NoLostWakeUp` | internal/controller/providerconfig_controller.go:59-129 | While Secret reads succeed or find nothing, no reachable state has a Bucket at rest on an idle provider that resolves unless the Bucket acted under exactly the provider's present revision, be it parked, rejected or ready |
| `WakeUpSafety.RemovedSecretGoesUnnoticed` | internal/controller/providerconfig_controller.go:256-262 | That repetition loses the removal of a Secret: even while all reads succeed, a Bucket can rest having acted under a Secret that is gone |
| `WakeUpSafety.LostWakeUpIsReported` | internal/controller/providerconfig_controller.go:82-128 | Over every run, failed reads included, a lost wake-up implies that the ProviderConfig reports a failed read |
| `WakeUpSafety.FailedReadsLoseWakeUp` | internal/controller/providerconfig_controller.go:119-128 | For every ProviderConfig with a good endpoint there is a run with failed reads that loses a wake-up |
| `WakeUpSafety.PendingPatchWakes` | internal/controller/providerconfig_controller.go:256-267 | Over every run, whether or not the provider resolves, the pending status patch wakes a Bucket that acted under another revision if and only if it does not repeat a failure that is reported already |
| `WakeUpSafety.SecondRoundIsQuiet` | internal/controller/providerconfig_controller.go:244-268 | With a stable outcome at most one reconcile patches; the one it triggers patches nothing and leaves the object idle |
| `WakeUpSafety.RoundShowsFinding` | internal/controller/providerconfig_controller.go:244-268 | Whether it patches or not, an undisturbed round leaves a status that shows its finding, and queues itself again exactly if the status changed |
| `WakeUpSafety.StepKeepsInv` | internal/controller/providerconfig_controller.go:59-129 | Every step keeps the link between recorded revisions, current inputs, queues and work in flight |
| `WakeUpSafety.RunKeepsInv` | internal/controller/bucket_controller.go:937-970 | That link holds along every run |
| `WakeUpSafety.StuckAcrossSecretStep` | internal/provider/provider_resolver.go:261-284 | A Secret event never makes a recorded revision match inputs that resolve when it did not before |
| `WakeUpSafety.FreshRevisionDiffers` | internal/provider/provider_resolver.go:278 | A new resource version gives a revision that nothing recorded can equal |
| `WakeUpSafety.RevisionNamesInputs` | internal/provider/provider_resolver.go:261-284 | Revisions are equal if and only if name, identity and generation of the ProviderConfig, identity and version of the Secret, region and endpoint are |
| `WakeUpSafety.RepeatedFailureIsSwallowed` | internal/controller/providerconfig_controller.go:256-262 | A failed read that is reported already, at any generation, ends its reconcile without a patch and without a retry |

## Left out

- Startup, flags, deployment manifests and RBAC: no algorithm.
- The OBS SDK with its HTTP traffic and retries, and Kubernetes client internals: each call is an atomic step with the outcomes named above.
- Informer staleness: reads are fresh. Stale reads would break the ownership results.
- Work-queue back-off and rate limiting: a queued key may start at any time.
- SHA-256 itself: a digest is a constructor over the bytes written to it.
- General URL parsing, percent-encoding and user information: only what the admitted endpoint language and the checks after parsing need.
- Secret values that are not valid UTF-8: a value is a text.
- Condition messages, log output and the domain name text: no property depends on them. A changed message alone would cause one more status patch.
- The create inputs for parallel file systems and enterprise projects: passed through unchanged.
- Two Bucket objects for one OBS name, and the lifetime of clients already handed out: the source guarantees neither.
- Fallbacks for a missing resolver or cache: a cache that is always empty.
- `Cache.Len`, the nil checks of `closeClients`, and a cached client that is nil.
- An endpoint that resolves but from which no client can be built, in `WakeUp`: it always can there. `ProviderReconciler` has the failure.
- Failures of the Bucket controller's own reads and OBS calls in `WakeUp`: the reconcile ends quietly or the key is queued again.
- ProviderReconciler.ProviderConfigReconciler.UpdateStatus: the only condition is Ready and is kept as one entry; the shared condition list is modelled once, in `Status`.
- ForceDestroy.DeleteAllBucketObjects: a listing contains no entry twice.
