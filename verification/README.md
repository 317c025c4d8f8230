# ssbucketeer: a verified model

ssbucketeer is a Kubernetes operator that lets a user's service act as an access group: it binds the
service's ServiceAccount to the group's Google service account for a limited time, checks and audits
such requests, mounts the group's buckets into the service's pods, and holds a new service back until
a probe Job has seen that the IAM binding works. This project models that logic in Dafny and proves
what it keeps, over all inputs and all runs. Check it with `dafny verify dfyconfig.toml`.

## How the model is built

**Reconciliation of ServiceAccounts** (`IamMachine`, `IamHeld`, `IamSafety`, `IamTheorems`,
`IamReconcile`).
The protocol is a machine of atomic API calls. Any number of ServiceAccounts are reconciled
concurrently, one reconcile at a time per name, on shared IAM policies. A resourceVersion is a
position in the history of a name's stored versions (an absent object is a version too), so a stale
cached read is a read of an earlier position; an etag is a number that is never reused. A run is any
sequence of enabled events: reads, calls, failures, creations, edits, deletions, and policy writes by
others. `IamReconciler` is the code itself, over mutable policies and bindings: every call it makes is
shown to be the next step of the machine, with arbitrary failures and arbitrary events of others
between any two calls.

**Suspend and revive** (`StatefulSets`, `ProbeMachine`, `ProbeTheorems`, `ProbeRuns`,
`JobReconciler`). The same construction for one StatefulSet, its probe Job and its refresh ConfigMap.
A submission passes the mutating webhook, which may create the Job and whose object may still fail to
be stored; so does the reconciler's own update.

**Webhooks** (`Validator`, `ServiceAccountWebhook`, `StatefulSetWebhook`, `PodAnnotations`). The
admission decision is a function; `StatefulSetWebhook.Handle` edits the submitted object in place.

**Pod specs** (`Buckets`, `PodSpecs`, `VolumeNames`). Go visits a map in any order, so a method picks
an arbitrary order and the laws hold for every order.

**Audit router** (`AuditRing`, `AuditRouter`). A circular buffer proved against the list of everything
forwarded so far.

**Text** (`Text`, `Decimal`, `Groups`). Splitting, trimming, decimal numbers and group resolution.

## Assumptions

They appear as parameters, preconditions or enabling conditions, and the theorems that need them say so.

- `FinalizerSafety` and `CurrentExpiryBound` ask of the ServiceAccount they speak of, and of no other,
  that its events are steady (`IamSafety.SteadyEvent`): its group annotation stays once it is set, nobody
  else takes the operator's finalizer away, its reconciler reads no version older than the one it has
  read last, and no other writer of policies adds a binding with its title. Safety fails without the
  first three (`RegroupingLeaksBinding`, `LostFinalizerLeaksBinding`, `StaleReadLeaksBinding`), and the
  operator can break the first itself (`GroupOverwritten`). `ExpiryBound` needs only the last,
  `NoLostUpdates` none of them.
- `ExpiryBound`: Go's duration parser rejects the empty text.
- Reading a policy returns the one last committed; a removal that read an older policy could miss the
  binding and drop the finalizer all the same.
- There is one cluster, every policy has an etag, every binding has a condition, and nobody else
  removes the operator's finalizer from a Job.
- Namespaces and names contain no slash, as Kubernetes demands.
- The webhooks are registered, so that every stored ServiceAccount and StatefulSet of a run has passed
  them, under one configuration for the whole run; a probe Job is created only by the webhook, and
  others delete a Job only by requests that wait for its finalizer.
- `Spec.Replicas` is set, as the API server defaults it, and is an int32.
- The second half of `JobFinalizerSafety`: reads of the StatefulSet for that Job return a version no
  older than the last one stored when the Job was created (`ProbeTheorems.FreshRun`);
  `StaleReadDropsEarly` shows why.
- Calls to the audit router are sequential, and a hash is never empty.
- Strings are sequences of bytes, as in Go.

## What turned out not to hold

- The original replica count is not conserved in general. The count restored is that of the last
  submission that suspended the object (`ReplicaConservation`), so submitting the suspended object
  again makes the revive restore 0 (`ResubmissionRestoresZero`), and such runs exist for every
  submission (`ZeroIsReachable`).
- A revive does not always get through by repetition. A conflict on the update leaves the refresh
  ConfigMap behind, and since creating it does not tolerate an existing one, every later reconcile ends
  there (`ConflictGetsStuck`, `StuckIsReachable`, `StuckIsAbsorbing`). For the same reason a StatefulSet
  that was revived once is not revived again until the ConfigMap goes (`SuspendedAgainIsStuck`,
  `RevivedOnce`). `RevivesIff` says exactly when a reconcile gets through, `StuckEndsIff` exactly what
  ends the stuck state.
- A Job can be let go of though no `done` version was stored since its creation: where the
  StatefulSet was `done` already at that time (`UnstoredSubmissionDropsEarly`), and with fresh reads only
  there (`JobFinalizerSafety`).
- A suspended StatefulSet need not have a Job that could revive it (`OrphanIsReachable`); exactly what
  ends that is `OrphanEndsIff`.
- Volume names are not injective: `NamesCollide`. Those that are not hashed collide exactly as
  `UnhashedNamesEqualIff` says; what that does to uniqueness is `AddKeepsUniqueIffApart`.
- A group may match several configurations unless their names are suffix-free
  (`SuffixFreeIffUnambiguous`); when the order decides is `OrderIrrelevantIff`.
- Admitting a pod again may replace a sidecar that is up to date, since the order of its mounts is
  compared (`SidecarStableIff`).

## Model

| member | source | states |
|---|---|---|
| `IamTheorems.FinalizerSafety` | internal/controller/serviceaccount_controller.go:86-115 | Over every run of interleaved reconciles, edits, deletions and foreign policy writes, for a ServiceAccount whose own events are steady, whatever happens to all others: a binding titled for it sits only in the policy of the group it asks for, and only while it exists and carries the finalizer |
| `IamTheorems.ExpiryBound` | internal/controller/serviceaccount_controller.go:204-215 | Over every run, with moved groups, stale reads and lost finalizers, in which nobody else adds a binding with its title: each binding titled for a ServiceAccount was asked for by a stored version of it with the finalizer, for that group; if the group is reason-required, the binding is limited to an instant no later than creation plus the maximum duration |
| `IamTheorems.CurrentExpiryBound` | internal/controller/serviceaccount_controller.go:204-215 | With steady events that bound is one for the object that exists now and the group it asks for |
| `IamTheorems.NoLostUpdates` | internal/controller/serviceaccount_controller.go:250-263 | At any call of any run, whatever groups and caches do, a reconciler changes at most one policy, by its own edit applied to the bindings committed just before (etag compare-and-swap); foreign bindings and those of every other ServiceAccount stay, in order |
| `IamTheorems.StaleReadLeaksBinding` | internal/controller/serviceaccount_controller.go:70-78 | Steady reads are needed: for every bindable ServiceAccount there is a run with a read that goes back and leaves its binding behind after it is gone |
| `IamTheorems.RegroupingLeaksBinding` | internal/controller/serviceaccount_controller.go:80-83 | A steady group is needed: moving a bound ServiceAccount to another group and deleting it leaves the binding of the first group behind |
| `IamTheorems.LostFinalizerLeaksBinding` | internal/controller/serviceaccount_controller.go:95-110 | Keeping the finalizer is needed: if somebody else takes it away, deleting the ServiceAccount leaves its binding behind |
| `IamHeld.HeldRun` | internal/controller/serviceaccount_controller.go:67-131 | Over every run, without any condition: what reconciles hold is stored and entitled, and a fetched policy is the stored one as long as the etag is |
| `IamSafety.RunOk` | internal/controller/serviceaccount_controller.go:67-131 | The invariant of a name (readable versions, held version, bindings) survives every run that is steady for it |
| `IamReconcile.ReconcileSettles` | internal/controller/serviceaccount_controller.go:112-130 | One undisturbed reconcile reaches the goal, where the policy exists and the duration can be read: the object has exactly the finalizer and the annotation more; the first binding with the title has the role, this member alone, and an expression that is always true without a requested duration and otherwise ends in the second of creation plus duration; a binding is added only if there was none; nothing of anybody else changes |
| `IamMachine.ExpressionForIff` | internal/controller/serviceaccount_controller.go:204-215 | The expression for a version is the only one that says what is granted: always without a requested duration, otherwise until the second in which creation plus duration falls; there is none exactly if the duration cannot be read |
| `IamReconcile.ReconcileWithoutPolicy` | internal/controller/serviceaccount_controller.go:189-196 | If the Google service account does not exist, a reconcile changes the object alone, as usual |
| `IamReconcile.ReconcileUnreadable` | internal/controller/serviceaccount_controller.go:207-212 | A duration that cannot be read writes no policy and sets no annotation; only the finalizer is added |
| `IamReconcile.ReconcileIgnores` | internal/controller/serviceaccount_controller.go:70-83 | An object that is gone, asks for no group, or is being deleted without the finalizer is left alone |
| `IamReconcile.SettledIsFixpoint` | internal/controller/serviceaccount_controller.go:222-245 | Once the goal is reached a further reconcile writes nothing: same histories, policies and etags |
| `IamReconcile.ReconcileReleases` | internal/controller/serviceaccount_controller.go:95-110 | An undisturbed reconcile of a deleting object removes every binding with its title, then the finalizer and no other, so the object is gone if that was the last one; nothing else changes |
| `IamReconciler.ServiceAccountReconciler.Run` | internal/controller/serviceaccount_controller.go:67-131 | The reconcile code on mutable objects makes only steps of the machine, whatever fails or interferes, ends with no step pending, returns what its last step calls for (done, error, or requeue only after a conflict on the annotation), and undisturbed does what `Reconcile` says, with an error only for a duration that cannot be read where there is a policy |
| `IamReconciler.ServiceAccountReconciler.Establish` | internal/controller/serviceaccount_controller.go:86-94 | The branch of an object that stays: finalizer, binding and annotation in this order, each step only after the one before was accepted |
| `IamReconciler.ServiceAccountReconciler.Release` | internal/controller/serviceaccount_controller.go:95-110 | The branch of a deleting object: the finalizer is dropped only after the binding is gone; a refused update is an error |
| `IamReconciler.ServiceAccountReconciler.SetWorkloadIdentity` | internal/controller/serviceaccount_controller.go:117-128 | Updates only if the annotation differs; a conflict requeues, other failures are errors |
| `IamReconciler.ServiceAccountReconciler.RemoveIamBinding` | internal/controller/serviceaccount_controller.go:140-181 | Ends before the finalizer is dropped only when the policy has no binding with the title or the removal was committed; an error ends the reconcile |
| `IamReconciler.ServiceAccountReconciler.HandleGcpSa` | internal/controller/serviceaccount_controller.go:183-248 | Goes on to the annotation only when the policy is in order, written, or does not exist; a duration that cannot be read is an error wherever there is a policy |
| `IamReconciler.ServiceAccountReconciler.UpdateIamPolicy` | internal/controller/serviceaccount_controller.go:250-263 | Sends exactly the pending write against the fetched etag; a refused write ends the reconcile |
| `IamReconciler.EndMeans` | internal/controller/serviceaccount_controller.go:67-131 | What the outcome means, by effect: done exactly if the write took effect, requeue exactly if the annotation took none on an object that is there |
| `IamReconciler.EnsureCorrectBinding` | internal/controller/serviceaccount_controller.go:265-309 | All four cases in place: nothing to do, append, remove by title, overwrite in place; it reports a change exactly if role, members or expression disagreed |
| `IamReconciler.EnsureWanted` | internal/controller/serviceaccount_controller.go:222-241 | Search and correction together turn the fetched policy into `Ensure` of it, and report a change exactly if it was not in order |
| `IamReconciler.DeleteTitled` | internal/controller/serviceaccount_controller.go:167-170 | Deletes exactly the bindings with the title and keeps the others in order |
| `IamReconciler.FindTitled` | internal/controller/serviceaccount_controller.go:223-228 | Finds the first binding with the title, or none |
| `IamReconciler.CodeIsSafe` | internal/controller/serviceaccount_controller.go:67-131 | Finalizer safety holds for the reconciler code itself, at any moment between its API calls, for every name whose events were steady |
| `IamPolicy.EnsureEstablishes` | internal/controller/serviceaccount_controller.go:265-309 | After the correction a second one has nothing to do, and there is one binding if there was at most one |
| `IamPolicy.EnsureGivesWanted` | internal/controller/serviceaccount_controller.go:293-308 | After the correction the first binding with the title has the role of the operator, the wanted members and the wanted expression |
| `IamPolicy.InOrderIff` | internal/controller/serviceaccount_controller.go:293-308 | Nothing is written exactly if the first binding with the title has those three already |
| `IamPolicy.EnsureKeepsOthers` | internal/controller/serviceaccount_controller.go:265-309 | The correction keeps all bindings with other titles in order |
| `IamPolicy.OthersHasNoTitle` | internal/controller/serviceaccount_controller.go:168-174 | Removal leaves no binding with the title, and the length tells how many there were |
| `IamPolicy.TitleInjective` | internal/controller/serviceaccount_controller.go:321-323 | Titles are injective on namespaces and names without a slash |
| `IamPolicy.TitlesCollideWithSlashes` | internal/controller/serviceaccount_controller.go:321-323 | With slashes they are not |
| `IamPolicy.RefNamesEmail` | internal/controller/serviceaccount_controller.go:117-120 | The account in the annotation is the one whose policy is edited |
| `IamPolicy.K8sSaRefInjective` | internal/controller/serviceaccount_controller.go:316-319 | Different ServiceAccounts are different members |
| `IamPolicy.GcpSaRefInjective` | internal/controller/serviceaccount_controller.go:311-314 | Different groups have different policies |
| `Validator.AdmittedIff` | internal/controller/serviceaccount_webhook.go:76-134 | A request is admitted exactly if it asks for no group, is being deleted, or comes from a user namespace for a configured group its user is a member of, with a readable duration within the maximum and a reason where one is required |
| `Validator.AuditedIff` | internal/controller/serviceaccount_webhook.go:114-159 | An entry is recorded exactly for admitted, non-deleting requests for a reason-required group; it names the user, the group and a reason, and ends within the allowed time |
| `Validator.EntrySays` | internal/controller/serviceaccount_webhook.go:136-159 | The whole entry: team, group type, reason, start, end and text of the duration, chart, instance and stage |
| `Validator.RejectedBecause` | internal/controller/serviceaccount_webhook.go:85-134 | The reason of a rejection is the first condition, in the order of the code, that the request misses |
| `Validator.ChartLabelRebuilt` | internal/controller/serviceaccount_webhook.go:168-175 | A chart label with a hyphen is name, hyphen, version; the version has no hyphen |
| `ServiceAccountWebhook.ServiceAccountValidator.Validate` | internal/controller/serviceaccount_webhook.go:68-166 | When an audited request is admitted, every sink has been offered an entry with its hash, whatever errors came back; no other request leaves a trace |
| `ServiceAccountWebhook.AdmissionsCovered` | internal/controller/serviceaccount_webhook.go:114-165 | After any sequence of requests each audited admission has its hash among the forwarded ones, and no hash repeats within a window |
| `AuditRouter.Router.constructor` | internal/audit/router.go:58-63 | A new router has 100 empty slots and has forwarded nothing |
| `AuditRouter.Router.RecordAll` | internal/audit/router.go:65-79 | Forwards exactly if the hash is not among the last forwarded; then every sink is offered the entry, in spite of errors, and the error joins the answers of the sinks in order, also where one is listed twice |
| `AuditRouter.Router.RecordHash` | internal/audit/router.go:81-84 | The circular buffer read from its index is the last hashes in order |
| `AuditRouter.Router.FlushAll` | internal/audit/router.go:86-92 | Every listed sink is flushed, in spite of errors; the error joins their answers in order, and is nil exactly if there are none |
| `AuditRouter.Router.RingCovered` | internal/audit/router.go:65-79 | Every non-empty hash in the ring belongs to an entry that every sink was offered |
| `AuditRing.RingStep` | internal/audit/router.go:81-84 | Overwriting one slot and wrapping the index refines appending to the list of forwarded hashes and keeping the last of them |
| `AuditRing.LastOfMeans` | internal/audit/router.go:67-71 | Being among the last forwarded is being at one of the last positions of the list |
| `AuditRing.RingMembership` | internal/audit/router.go:67-71 | For non-empty hashes, being in the ring is being among the last forwarded |
| `AuditRing.ForwardAllProperties` | internal/audit/router.go:65-79 | Over any run, any window one longer than the ring has distinct hashes, and every presented hash has been forwarded |
| `StatefulSets.SuspendSavesReplicas` | internal/controller/statefulset_webhook.go:228-230 | A suspended object is not done, and the count parsed back is the one saved, for every int32 |
| `StatefulSets.NoStatusGivesOne` | internal/controller/job_controller.go:104-110 | Without a status, or with `done`, the count is 1 |
| `StatefulSets.RevivedIs` | internal/controller/job_controller.go:112-162 | What reviving does to an object, in full: replicas, status, the refresh volume and its mount in the service container, and nothing else |
| `StatefulSets.RevivedPassesWebhook` | internal/controller/job_controller.go:112-113 | The update of the reconciler passes back through the webhook with replicas and status unchanged |
| `StatefulSets.RevivedResolves` | internal/controller/job_controller.go:145-162 | The refresh volume and mount keep the mounts of the service container resolved |
| `ProbeTheorems.SuspensionInvariant` | internal/controller/statefulset_webhook.go:192-196 | Over every run, each stored version that asks for a group and is not deleting is done or has zero replicas, unless it was scaled past the webhook |
| `ProbeTheorems.JobFinalizerSafety` | internal/controller/job_controller.go:90-102 | Over every run, a Job is let go of only after a `done` version was stored; if the reads for it were no older than its creation, that is the last version before its creation or one stored since |
| `ProbeTheorems.RunOk` | internal/controller/job_controller.go:50-183 | The inductive invariant of the probe protocol survives every run |
| `ProbeRuns.ReplicaConservation` | internal/controller/job_controller.go:104-113 | After any run, a suspended submission and any stretch without another stored one, refused revives and recoveries included, an accepted revive restores exactly the submitted count |
| `ProbeRuns.ResubmissionRestoresZero` | internal/controller/statefulset_webhook.go:228-230 | Where the suspended object itself was submitted again, the revive restores the replicas it had then, 0 unless it was scaled: the count of the first submission is lost |
| `ProbeRuns.ZeroIsReachable` | internal/controller/statefulset_webhook.go:228-230 | And this happens: from the very beginning, for any submission with its service container, there is a run that ends done with zero replicas |
| `ProbeRuns.ReviveProgress` | internal/controller/job_controller.go:73-183 | An undisturbed reconcile of a completed Job with no refresh ConfigMap and the service container present stores `done` and the saved count and releases the Job |
| `ProbeRuns.RevivesIff` | internal/controller/job_controller.go:115-144 | An undisturbed reconcile revives exactly if the Job is completed and has the finalizer, there is no refresh ConfigMap, and the service container is found |
| `ProbeRuns.MissingMarksJob` | internal/controller/job_controller.go:75-85 | Without the StatefulSet an undisturbed reconcile of a completed Job asks it to go and keeps the finalizer; nothing else changes |
| `ProbeRuns.OnlyMissingMarks` | internal/controller/job_controller.go:75-85 | No other undisturbed reconcile does |
| `ProbeRuns.DoneReleasesJob` | internal/controller/job_controller.go:90-102 | With a StatefulSet that is done it only drops the finalizer, and the Job is gone if it was asked to go |
| `ProbeRuns.OtherJobsIgnored` | internal/controller/job_controller.go:54-71 | A Job that is missing, not completed or without the finalizer is left alone, and so is everything else |
| `ProbeRuns.HopelessIgnored` | internal/controller/job_controller.go:115-144 | Without the service container, or with the ConfigMap there, nothing is stored |
| `ProbeRuns.StuckEndsIff` | internal/controller/job_controller.go:142-144 | With the ConfigMap there and the status not done, exactly three kinds of event end it: the ConfigMap or the StatefulSet is removed, or somebody stores a StatefulSet that is marked done |
| `ProbeRuns.StuckIsAbsorbing` | internal/controller/job_controller.go:142-144 | So the StatefulSet stays suspended over any run without those, whatever reconciles, submissions, Jobs and deletion marks it has |
| `ProbeRuns.StuckReconcilesStoreNothing` | internal/controller/job_controller.go:142-144 | And reconciles alone store nothing, however many there are |
| `ProbeRuns.ConflictGetsStuck` | internal/controller/job_controller.go:164-170 | A submission between the creation of the ConfigMap and the update leads there |
| `ProbeRuns.SuspendedAgainIsStuck` | internal/controller/job_controller.go:142-144 | No conflict is needed: once the ConfigMap is there, as after every revive, any later suspended submission is stuck at once |
| `ProbeRuns.RevivedOnce` | internal/controller/job_controller.go:142-144 | Until the ConfigMap goes no update is even tried, so nothing is revived a second time |
| `ProbeRuns.StuckIsReachable` | internal/controller/job_controller.go:164-170 | That state is reachable from the very beginning, for any StatefulSet with its service container |
| `ProbeRuns.OrphanIsReachable` | internal/controller/statefulset_webhook.go:192-196 | When creating the Job fails the object is admitted suspended all the same, so a suspended StatefulSet without a Job is reachable from the very beginning |
| `ProbeRuns.OrphanEndsIff` | internal/controller/statefulset_webhook.go:192-196 | It ends exactly with a submission that creates a Job or stores a done object, or with the StatefulSet |
| `ProbeRuns.OrphanStays` | internal/controller/statefulset_webhook.go:192-196 | Over any other run it stays suspended, and without a stored submission or scaling its replicas stay as they are |
| `ProbeRuns.StaleReadDropsEarly` | internal/controller/job_controller.go:90-100 | Fresh reads are needed: with a stale one a Job loses the finalizer though its own StatefulSet is still suspended and was not done when the Job was created |
| `ProbeRuns.UnstoredSubmissionDropsEarly` | internal/controller/job_controller.go:90-100 | And if the StatefulSet was done when the Job was created, fresh reads do not help: when storing the submission fails, the Job is let go of with no `done` version stored since its creation |
| `JobReconciler.Reconciler.Reconcile` | internal/controller/job_controller.go:50-183 | The code makes only steps of the machine whatever fails or interferes, ends with no step pending, returns what its last step calls for (requeue only after a conflict), and undisturbed its new state is exactly `Undisturbed`: nothing to do, release, deletion of the Job of a missing StatefulSet, or revive; then only a suspended StatefulSet that cannot be revived is an error |
| `JobReconciler.EndMeans` | internal/controller/job_controller.go:50-183 | What the outcome means, by effect: done exactly if the write took effect, requeue exactly if it took none on an object that is there |
| `JobReconciler.Reconciler.HandleJob` | internal/controller/job_controller.go:73-183 | From the read of the StatefulSet on: deletion of the Job of a missing StatefulSet, release if it is done, or revive; undisturbed the new state is exactly `FinishCalls` |
| `JobReconciler.Reconciler.Revive` | internal/controller/job_controller.go:104-180 | The revive itself on the mutable object, up to the release of the Job |
| `JobReconciler.Reconciler.Restore` | internal/controller/job_controller.go:104-113 | Replicas from the status, 1 if it holds no number, and status `done`, set in place |
| `JobReconciler.Reconciler.AddRefresh` | internal/controller/job_controller.go:145-162 | Appends the refresh volume, and its mount to the service container, and changes nothing else |
| `JobReconciler.Reconciler.DropJobFinalizer` | internal/controller/job_controller.go:172-180 | Drops the finalizer of the version that was read |
| `JobReconciler.CodeIsSafe` | internal/controller/job_controller.go:50-183 | Job finalizer safety holds for the code itself, at any moment between its API calls |
| `Decimal.PrintMeans` | internal/controller/statefulset_webhook.go:229-229 | A printed count is digits without a leading zero, behind a hyphen if it is negative |
| `Decimal.ParsesIff` | internal/controller/job_controller.go:105-110 | Exactly what is no number: anything but digits behind an optional sign, or a number that does not fit 64 bits |
| `Decimal.PrintParseRoundTrip` | internal/controller/job_controller.go:105-112 | Printing and parsing gives every int32 back |
| `StatefulSetWebhook.Handle` | internal/controller/statefulset_webhook.go:71-203 | When a request passes, errs, is denied or patched, both ways; a patch is one of `Patches` of what was submitted (status and replicas, annotations, labels, environment, bucket phase); the ServiceAccount update; a finalized probe Job exactly with each suspension; all other containers stay, in order and with their mounts and environment |
| `StatefulSetWebhook.PatchAfterTime` | internal/controller/statefulset_webhook.go:154-167 | Of a patch, if the group needs a reason and now is after creation plus the requested duration: no bucket volume, no bucket mount and no sidecar is left, and everything else is |
| `StatefulSetWebhook.PatchInTime` | internal/controller/statefulset_webhook.go:154-190 | Otherwise: every wanted bucket has its volume and mount, everything added holds the bucket of its mount point, and the sidecar is there exactly with an image, with exactly those names |
| `StatefulSetWebhook.PatchIsReadable` | internal/controller/statefulset_webhook.go:155-160 | Where the group needs a reason, a duration that cannot be read is never patched |
| `StatefulSetWebhook.PatchReads` | internal/controller/statefulset_webhook.go:88-152 | The mark on the pod, team and group labels, and the project and group variables of the service container, read as they should |
| `StatefulSetWebhook.TargetMeans` | internal/controller/statefulset_webhook.go:90-106 | A request is patched for the first container with the name in the annotation, and the configuration of the group |
| `StatefulSetWebhook.PassingAdmits` | internal/controller/statefulset_webhook.go:79-86 | An object that is being deleted or asks for no group passes as it is |
| `StatefulSetWebhook.RuleAdmits` | internal/controller/statefulset_webhook.go:192-196 | What `Handle` does to status and replicas is exactly an admission of the probe protocol |
| `StatefulSetWebhook.LaunchIamProbe` | internal/controller/statefulset_webhook.go:228-266 | Saves the count, scales to zero and asks for a Job with the finalizer, the configured image and the same ServiceAccount, named after and pointing to the StatefulSet |
| `StatefulSetWebhook.HandleServiceAccount` | internal/controller/statefulset_webhook.go:268-294 | For every order of the map: the annotations become `NotesAfter`, and an update is sent exactly if they changed |
| `StatefulSetWebhook.NotesSettle` | internal/controller/statefulset_webhook.go:282-288 | Every wanted annotation reads as wanted, others are as before, and a second copy needs no update |
| `StatefulSetWebhook.TellingReads` | internal/controller/statefulset_webhook.go:98-111 | Afterwards the ServiceAccount reads as the group and the reason of the StatefulSet, its duration exactly if the group needs a reason, and anything else as before |
| `StatefulSetWebhook.UpdateNeededIff` | internal/controller/statefulset_webhook.go:277-293 | An update is needed exactly if there is no annotation map or a wanted annotation reads differently |
| `StatefulSetWebhook.GroupOverwritten` | internal/controller/statefulset_webhook.go:98-101 | After the copy the ServiceAccount asks for the group of the StatefulSet, whatever it asked for before, so the operator itself can move it |
| `StatefulSetWebhook.FindTarget` | internal/controller/statefulset_webhook.go:90-106 | A missing service container is an error, found before a missing configuration denies the request |
| `StatefulSetWebhook.BucketSources` | internal/controller/statefulset_webhook.go:169-182 | A mount point gets a bucket exactly from the sources asked for; standard wins over shared, and shared over named |
| `StatefulSetWebhook.LabelsRead` | internal/controller/statefulset_webhook.go:119-123 | The pod is labelled with team and group; other labels stay |
| `StatefulSetWebhook.SetEnvironment` | internal/controller/statefulset_webhook.go:125-152 | The in-place edits of the environment are `Environment` |
| `StatefulSetWebhook.EnvironmentReads` | internal/controller/statefulset_webhook.go:125-152 | The project variable always reads as given, the group variable keeps a value that was set, every other variable reads as before |
| `StatefulSetWebhook.EnsurePodAnnotations` | internal/controller/statefulset_webhook.go:392-410 | The in-place edit of a map that may be nil is `EnsuredAnnotations` |
| `PodAnnotations.RangesEnsured` | internal/controller/statefulset_webhook.go:399-409 | Existing ranges are kept in order, the range is added only if missing, and doing it twice changes nothing |
| `PodAnnotations.AnnotationsEnsuredTwice` | internal/controller/statefulset_webhook.go:392-410 | Ensuring the annotations is idempotent |
| `PodAnnotations.AnnotationsRead` | internal/controller/statefulset_webhook.go:392-410 | The mark of the driver is set, the range is among the ranges, and every other annotation of the pod stays |
| `PodAnnotations.GetExtraBucketMounts` | internal/controller/statefulset_webhook.go:205-216 | Each comma-separated name is a bucket mounted under its own name |
| `PodAnnotations.MergeSettles` | internal/controller/statefulset_webhook.go:282-288 | Merging changes exactly the wanted annotations that read differently, and is idempotent |
| `PodSpecs.AddBucketsToPodSpec` | internal/controller/volumes.go:41-82 | For some order of the map, appends exactly the missing volumes and mounts, so every bucket without one has got a volume that holds it and a writable mount; true exactly if something was appended |
| `PodSpecs.RemoveBucketsFromPodSpec` | internal/controller/volumes.go:84-104 | Deletes exactly the volumes and mounts with the prefix; true exactly if there were any |
| `PodSpecs.AddOrUpdatePrecreator` | internal/controller/precreator.go:10-41 | Leaves one position changed at most: the sidecar has the image and mounts exactly the derived volumes; an existing one is kept exactly if it has the image and lists the names in the order of this visit; true exactly if the containers changed |
| `PodSpecs.SidecarStableIff` | internal/controller/precreator.go:26-36 | An up-to-date sidecar is kept for every order of the map exactly if there is at most one name |
| `PodSpecs.PrecreatorMountsByName` | internal/controller/precreator.go:15-22 | The mounts of the sidecar are keyed by exactly the derived names, each with the path of a bucket of that name |
| `PodSpecs.RemovePrecreator` | internal/controller/precreator.go:43-52 | Deletes every container with the name of the sidecar, and always returns false |
| `PodSpecs.BucketPhase` | internal/controller/statefulset_webhook.go:165-190 | Both branches keep every mount of the service container and the sidecar resolved; expired access keeps no bucket; with an image the sidecar mounts exactly the names derived from the map; all other containers stay |
| `PodSpecs.ActivePhase` | internal/controller/statefulset_webhook.go:168-190 | The active branch in full, for some order of the map |
| `PodSpecs.ExpirePhase` | internal/controller/statefulset_webhook.go:165-167 | The expired branch in full |
| `PodSpecs.WholeMeansResolved` | internal/controller/statefulset_webhook.go:165-190 | Referential integrity on the recorded shape is integrity of the objects |
| `Buckets.AddIsIdempotent` | internal/controller/volumes.go:41-82 | A second addition appends nothing, whatever the two orders |
| `Buckets.AddedAreDerived` | internal/controller/volumes.go:44-72 | Everything appended is, field by field, the volume or the mount of a mount point of the map |
| `Buckets.AddedVolumesHold` | internal/controller/volumes.go:44-63 | Every volume added is a volume of the driver that holds the bucket of a mount point whose name was not taken; every such mount point gets one, as many as there are |
| `Buckets.AddedMountsPoint` | internal/controller/volumes.go:65-71 | The same of the mounts: writable, at the mount point |
| `Buckets.AddIgnoresOrder` | internal/controller/volumes.go:44-72 | All orders of the map append the same multisets of volumes and mounts |
| `Buckets.AddKeepsUniqueIff` | internal/controller/volumes.go:44-63 | Volume names stay unique exactly if naming is injective on the mount points that are new |
| `Buckets.AddKeepsUniqueIffApart` | internal/controller/volumes.go:44-63 | For mount points whose names are not hashed: exactly if the new ones differ in canonical form |
| `Buckets.RemoveUndoesAdd` | internal/controller/volumes.go:41-104 | Removing after adding, in any order, is removing alone |
| `Buckets.KeptAllIff` | internal/controller/volumes.go:84-104 | Removal is the identity exactly on pod specs without bucket names |
| `Buckets.AddResolves` | internal/controller/volumes.go:41-82 | Adding keeps every mount naming a volume |
| `Buckets.RemoveResolves` | internal/controller/volumes.go:84-104 | Removing keeps every mount naming a volume |
| `VolumeNames.VolumeName` | internal/controller/volumes.go:29-39 | At most 54 characters, starts with the prefix also when cut, the plain encoding when it fits, full length when it does not |
| `VolumeNames.EncodeThrough` | internal/controller/volumes.go:32-32 | A slash becomes two hyphens, anything else stays |
| `VolumeNames.HashedName` | internal/controller/volumes.go:33-36 | A hashed name is the first 45 characters, a hyphen and eight digits of the digest of the full name; two are equal exactly if both parts are |
| `VolumeNames.DecodeInvertsEncodeIff` | internal/controller/volumes.go:32-32 | The slash encoding is undone by decoding exactly where no hyphen is followed by a hyphen or a slash |
| `VolumeNames.EncodeInvertsDecode` | internal/controller/volumes.go:32-32 | Encoding undoes decoding on every text without a slash |
| `VolumeNames.UnhashedNamesEqualIff` | internal/controller/volumes.go:29-39 | Names that are not hashed are equal exactly if the mount points have the same canonical form (two hyphens read as a slash, from the left) |
| `VolumeNames.UnhashedNamesInjective` | internal/controller/volumes.go:29-39 | Names that are not hashed are injective there |
| `VolumeNames.NamesCollide` | internal/controller/volumes.go:29-39 | Outside they collide: `a/b` and `a--b` |
| `Groups.GetConfigFindsFirst` | internal/controller/common.go:76-83 | The first match, and nothing exactly if nothing matches |
| `Groups.MatchesMeansNonEmptySuffix` | internal/controller/common.go:78-80 | The trim comparison is a test for a non-empty suffix |
| `Groups.SuffixFreeIffUnambiguous` | internal/controller/common.go:76-83 | Every group has at most one matching configuration exactly if the non-empty names are pairwise suffix-free |
| `Groups.OrderIrrelevantIff` | internal/controller/common.go:76-83 | The order of the configurations does not matter for any group exactly if no two different ones have nested non-empty names |
| `Groups.ResolutionIgnoresOrder` | internal/controller/common.go:76-83 | Where different configurations have no nested names, the order of the configurations does not matter |
| `Groups.TeamGroupResolves` | internal/controller/common.go:57-59 | Under suffix-free names the group `team-name` resolves to its configuration and the team is recovered exactly |
| `Text.AffixesMean` | internal/controller/common.go:57-59 | Prefixes and suffixes are what can be put before or behind something to give the text, and trimming gives that something |
| `Text.JoinOfSplit` | internal/controller/statefulset_webhook.go:404-407 | Joining what was split gives the text back |
| `Text.SplitOfJoin` | internal/controller/statefulset_webhook.go:404-407 | Splitting what was joined gives the pieces back, if none has the separator |

## Left out

- Start-up, flags and client wiring (`cmd/main.go`), and the folder precreator's own program
  (`cmd/folder-precreator/main.go`): input and output around a small set union.
- `internal/controller/google.go`: the answer of the group directory is a parameter.
- The sinks' own work (`internal/audit/cloud_logging.go`, `internal/audit/cloud_storage.go`): a sink is
  a log with an arbitrary answer.
- Templates, JSON, MD5, patch generation, admission decoding and logging: uninterpreted or absent.
- `getStandardProject`, `addStandardBuckets`, `addSharedBuckets`: the project and the buckets they find
  are inputs of `Handle`, also where they fail half-way.
- Scheduling of the probe pod, the Job's time-to-live and garbage collection: a Job may complete, be
  asked to go or stay, at any time or never. Writes to the status and scale subresources are events
  (`WriteStatus`, `Scale`); of their contents only the replica count is modelled.
- The text of an expiry instant: it is represented by the whole second it denotes.
- The conflict branch of `updateIamPolicy` by status code: either way the write fails and the reconcile
  ends with an error. Retries and back-off are the next reconcile.
- The parts of a condition that are neither compared nor set are one field, `description`; only the
  operator's finalizer is modelled on Jobs.
- Containers and bindings are objects of their own; that Go keeps containers in one slice, where
  deleting one shifts what a reference to a later slot sees, is not captured. The code does not use such a
  reference afterwards.
- In the probe protocol the pod template that the webhook admits may be any, since only status and
  replicas matter there; what the webhook makes of the template is `Handle`.
- StatefulSetWebhook.Handle: gives the appended volumes and mounts by their names and as members of
  those derived from the bucket map, not as sequences; `ActivePhase` states the sequences in full, for
  the order in which the map was visited.
