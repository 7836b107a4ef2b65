# Verified model of the Jenkins operator's protocols

The operator is a set of Kubernetes controllers. This project models, in Dafny, the parts of it where something can go
wrong between two steps or between two functions, and proves what those parts promise.

* **Backup and Restore.** One reconcile is a machine that issues one request at a time and moves on with the answer
  (`Protocol`, `BackupMachine`, `RestoreMachine`, `Runs`). `BackupController` and `RestoreController` are the
  reconcilers step by step; every call they make goes through a `Cluster` that lets through only what the machine asks
  for, so the log of a reconcile is a run of the machine. About runs: `AtMostOnce` (any number of reconciles over a
  versioned store, with stale reads, crashes, refused updates, and updates applied without being acknowledged),
  `BackupTraces` and `RestoreTraces` (which commands, in which order, and what is recorded about them), `Lookups` and
  `Records` (whom a run asks about, and that what it records is true). About the volumes: `FileSystem` (`mkdir`, `cp
  -r` and patterns over a map from path to node, after POSIX.1-2017, XCU section 2.13.3 and the `cp` utility),
  `Scripts` (the command lines as text), `Archive`, `RoundTrip`, `Isolation`, and `EndToEnd`, which goes from recorded
  conditions to file contents. `ExecChannels` is the exec client, its goroutine and its two channels.
* **Jenkins status conditions.** `JenkinsMachine`, `JenkinsStages`, `JenkinsController` and `JenkinsConditions`, in the
  same manner; `JenkinsCompletion` is about what a recorded completion is worth.
* **Spec to deployment.** `Specs`, `Defaulting` (the in-place computation over objects, including the two objects
  through which the status and the calculated spec are the same), `Pods`, `Validation`, `ClosedPods`.
* **Role bindings.** `RbacNames`, `Rbac`.
* **JenkinsImage.** `BuildHistory` (races between goroutines that hold snapshots), `ImageRuns` (what whole runs of that
  machine can and cannot do), `JenkinsImages`, `BuilderPods`.
* **Services, plugins, options.** `Services` (a label map shared by several objects), `Plugins`, `Strings`,
  `JenkinsOptions`.

Answers of the API server, of the exec endpoint and of the scheduler are constants of type `nat -> ...` that the proofs
know nothing about, or actions of a state machine that may happen in any order. A resource version is an index into the
history of the object.

Where the code does not do what its documentation or its status says, the model follows the code. For each such
promise a lemma shows a run, a volume or a spec on which it fails, unless the condition itself names one, and another
says exactly when it holds:

* a Backup whose `mkdir` or copy failed is recorded as `BackupCompleted=True`: on every volume that holds its directory
  already (`ExistingDirectoryRecordedAsCompleted`); the record is right as `RecordedSuccessIsRightIffPossible` says;
* a Backup or Restore that dies after its first status write is never retried: `ClaimedAndNothingDone` is such a run,
  after a crash or after an update that was applied without being acknowledged, and `NeverAgainIff` says exactly
  which states are without another command for ever;
* a Backup copies from a directory that is not Jenkins home if JENKINS_HOME names another one (exactly when:
  `HomeIsSeenIff`);
* restoring into a missing `jobs` or `plugins` directory leaves files one level too high (`MisplacedWhenGone`,
  `OneJobMisplaced`; exactly when: `FilesBackIffTargetExists`);
* a Jenkins is recorded as completed although nothing was done: before any work (`CompletedBeforeAnyWork`), or after
  work that was rejected or postponed (`UndoneWorkRecordedAsCompleted`); a newly recorded completion is right exactly
  as `CompletionIsRightIff` says;
* a failed Jenkins reconcile is retried only if its failure could not be recorded (`FailureNotRetried`; exactly when:
  `RetriedIffNotRecorded`);
* two Jenkins instances can delete each other's role bindings (`CollidingRole`; exactly when: `CollideIff`);
* new services with labels of their own do not select the Jenkins pod (`CreationBreaksSelector`; exactly when:
  `AgreeIff`);
* volume names of an accepted spec need not be unique (`DuplicateNamesAccepted`; exactly when: `UniqueNamesIff`);
* a ConfigMap read that fails lets a builder pod start without its Dockerfile (`PodWithoutConfigMap`; exactly when:
  `PodAloneIff`, and for one reconcile the contract of `JenkinsImageReconciler.Reconcile`);
* the build of a pod that terminates while the goroutine waits is not recorded by that goroutine (exactly when it still
  can be: `CanRecordIff`);
* the recorded checksum of an image build is that of nothing (`ChecksumOfNothing`; exactly when: `ChecksumFitsIff`);
* two spaces in a row make the option parser panic (`DoubleSpacePanics`; exactly when: the contract of
  `GetJenkinsOpts`), a master without containers the defaulting (exactly when: `PanicsIff`).

`dafny verify dfyconfig.toml` checks the whole project.

## Model

| member | source | states |
|---|---|---|
| Conditions.SetLookup | controllers/backup_controller.go:149-152 | setting a condition changes the status of its own type and of no other |
| Conditions.SetCount | controllers/jenkins_controller.go:228-259 | setting a condition never duplicates a type and never loses one |
| Runs.RunAppend | controllers/backup_controller.go:67-189 | a run continued by a run is a run |
| Runs.RunSplit | controllers/backup_controller.go:67-189 | every prefix of a run is a run |
| AtMostOnce.StepKeepsInv | controllers/backup_controller.go:85-87 | every step of every reconcile, the store and the crashes keeps the claim invariant: whoever may issue commands created the version that first had conditions |
| AtMostOnce.RunKeepsInv | controllers/restore_controller.go:83-85 | the same over whole interleavings |
| AtMostOnce.ClaimIsUnique | controllers/restore_controller.go:167-174 | two claims in one history are the same claim |
| AtMostOnce.AtMostOneExecutor | controllers/backup_controller.go:149-178 | over every interleaving with stale reads, crashes, refused and ambiguous status writes, all commands of one object are issued by one reconcile |
| AtMostOnce.PersistedConditionBlocks | controllers/backup_controller.go:85-87 | a reconcile that reads a version with conditions ends without an error, and over every continuation it writes no version and issues no command |
| AtMostOnce.NeverAgainIff | controllers/backup_controller.go:136-156 | no continuation issues another command if and only if conditions are persisted and no reconcile under way is at a command or, holding the latest version, one write away from one |
| AtMostOnce.AnotherCommand | controllers/restore_controller.go:167-193 | otherwise some continuation does; while nothing is persisted, one of either controller |
| AtMostOnce.NoRetryAfterCrash | controllers/backup_controller.go:136-156 | once conditions are persisted, by an acknowledged claim, an unacknowledged one or a refusal, and no claiming reconcile is under way, nobody ever issues another command |
| AtMostOnce.ClaimedAndNothingDone | controllers/restore_controller.go:167-174 | from the start, for either controller and any configuration, a run that claims and dies with no command issued, after which none ever is |
| Clusters.SelectedParts | controllers/backup_controller.go:235-244 | the sub-locations selected by the options, in the fixed order `*.xml`, `jobs`, `plugins` |
| Clusters.Cluster.Send | controllers/backup_controller.go:74-74 | a request is answered with one of the answers it can get and the log stays a run |
| BackupController.BackupReconciler.PerformJenkinsQuietDown | controllers/backup_controller.go:272-296 | a failed quiet-down is noted and passed over; only a failed status write stops the reconcile |
| BackupController.BackupReconciler.PerformJenkinsCancelQuietDown | controllers/backup_controller.go:191-215 | the same for its cancellation |
| BackupController.BackupReconciler.PerformJenkinsBackup | controllers/backup_controller.go:217-270 | whatever command fails, without a failed status write the reconcile goes on to cancel quiet-down or to record completion |
| BackupController.BackupReconciler.Fetch | controllers/backup_controller.go:72-134 | ends the reconcile exactly on the answers the machine ends on, with the same error |
| BackupController.BackupReconciler.Claim | controllers/backup_controller.go:136-156 | goes on only after the first condition has been acknowledged |
| BackupController.BackupReconciler.Reconcile | controllers/backup_controller.go:67-189 | the whole log of a reconcile, under any answers, is a run of the Backup machine that ended with the returned error |
| RestoreController.RestoreReconciler.PerformJenkinsRestore | controllers/restore_controller.go:246-296 | copies until the first failure, records the outcome, and goes on to the restart unless that write failed |
| RestoreController.RestoreReconciler.PerformJenkinsRestart | controllers/restore_controller.go:202-222 | a failed restart is recorded and passed over |
| RestoreController.RestoreReconciler.PerformJenkinsSafeRestart | controllers/restore_controller.go:224-244 | a failed safe restart is recorded and passed over |
| RestoreController.RestoreReconciler.RestartAndRecord | controllers/restore_controller.go:182-199 | one of the two restarts at most, then the last write decides the returned error |
| RestoreController.RestoreReconciler.Fetch | controllers/restore_controller.go:70-152 | ends the reconcile exactly on the answers the machine ends on, with the same error, and otherwise returns the name of the Backup referred to and the configuration read |
| RestoreController.RestoreReconciler.Claim | controllers/restore_controller.go:154-174 | goes on only after the first condition has been acknowledged |
| RestoreController.RestoreReconciler.Reconcile | controllers/restore_controller.go:65-200 | the whole log of a reconcile, under any answers, is a run of the Restore machine that ended with the returned error |
| Lookups.PlanExact | controllers/backup_controller.go:235-244 | the parts visited are the wanted ones, each once, `*.xml` first and `plugins` last |
| Lookups.EverythingIsLookedUpRight | controllers/restore_controller.go:90-146 | over every run of either controller: the Backup is read by the name the Restore gives, the configuration by the name the Backup gives or as `default`, the Jenkins by the name the configuration gives; no command before the client and the claim; every mkdir and copy concerns the right backup's directory and a wanted part, every script one the configuration calls for |
| Lookups.RestoresTheReferredBackup | controllers/restore_controller.go:247-247 | a Restore that issued commands read the Backup it refers to, works on that one's directory and with the configuration it read |
| Records.ConditionsAreTruthful | controllers/backup_controller.go:137-152 | over every run of either controller, what is held about the client, quiet-down, its cancellation and the restart is how that very request was answered, and nothing before it was made |
| Records.EverythingIsRecorded | controllers/backup_controller.go:246-270 | over every run of either controller, how the client went, every failed command, every script and the last copy are put on record before anything else, and the run is not over before that |
| Records.ErrorIsTheLastAnswer | controllers/restore_controller.go:71-146 | a reconcile of either controller returns an error if and only if the last answer it got was a failure; an object that is gone or has conditions is not retried |
| BackupTraces.QuietDownBracket | controllers/backup_controller.go:158-183 | in every run the commands are a prefix of quietDown? mkdir cp* cancelQuietDown?, both optional commands or neither; with all status writes acknowledged a run that issued commands issued all of it, cancel last, whichever command failed |
| BackupTraces.RecordedSuccessIsRightIff | controllers/backup_controller.go:179-188 | a run that issued commands and ended without an error recorded success; that is right if and only if mkdir and every copy succeeded, and otherwise a recorded failure has been overwritten |
| BackupTraces.FailedBackupRecordedAsCompleted | controllers/backup_controller.go:222-231 | for every name and configuration without quiet-down, a run in which mkdir fails, nothing is copied, and success is what is recorded |
| Isolation.ExistingDirectoryRecordedAsCompleted | controllers/backup_controller.go:218-232 | on every volume that holds the directory already there is such a run that the volume explains; it leaves the volume as it is and records success |
| RestoreTraces.RestoreHonest | controllers/restore_controller.go:259-296 | every write of RestoreCompleted=True follows the success of every selected copy, at least one; every False follows a failed copy; never both kinds of restart; the commands are the copies up to the first failure and at most one restart |
| RestoreTraces.FinalRecordIsRight | controllers/restore_controller.go:176-199 | a run that ended without an error has exactly the right verdict on record as its last write |
| FileSystem.GraftAt | controllers/backup_controller.go:246-250 | copying entries into an existing directory writes exactly the moved entries |
| FileSystem.TransplantAt | controllers/restore_controller.go:262-272 | copying one tree to a new name writes exactly the moved tree |
| FileSystem.StarMatches | controllers/restore_controller.go:268-271 | the pattern `*` stands for exactly the entries whose names do not start with a period |
| FileSystem.StarXmlMatches | controllers/backup_controller.go:235-237 | the pattern `*.xml` stands for exactly the entries called something, not starting with a period, then `.xml` |
| FileSystem.CpOntoFile | controllers/restore_controller.go:268-272 | copied onto a file, a file replaces its content and changes nothing else, and a directory fails |
| Scripts.ScriptsSayWhatIsMeant | controllers/restore_controller.go:246-272 | for every volume and every name an object can have, splitting each command line into words, its paths into components and expanding its pattern gives exactly what the command stands for; each `sh` line runs a file the init container writes, which posts the action of that command |
| Scripts.HomeIsSeenIff | pkg/configuration/base/resources/pod.go:336-354 | both backup containers mount the scripts, and the sidecar the pool, where the command lines look for them; Jenkins home is mounted where they look if and only if JENKINS_HOME is not set or names `/var/lib/jenkins` |
| Archive.SaveStep | controllers/backup_controller.go:246-250 | saving one more part succeeds exactly when there is something to copy and adds exactly that |
| Archive.BackupExact | controllers/backup_controller.go:217-263 | a Backup succeeds if and only if its directory does not exist and every selected part has something to copy; the new directory then holds exactly the selected entries of home and nothing else changed |
| RoundTrip.LoadExact | controllers/restore_controller.go:260-272 | restoring one saved part into an existing directory succeeds if and only if the part was saved, has a visible entry and clashes with nothing |
| RoundTrip.RoundTripExact | controllers/restore_controller.go:246-285 | for any Jenkins home in between, a Restore succeeds if and only if every requested part was saved, is not empty and clashes with nothing; then every selected path holds what it held at the backup, at its original place, and every other path is unchanged |
| RoundTrip.RestoreTwice | controllers/restore_controller.go:246-285 | repeating a successful Restore of the same backup succeeds and changes nothing |
| RoundTrip.MisplacedWhenGone | controllers/restore_controller.go:268-271 | for every backed-up volume whose saved directory had one visible entry with a file in it: once the directory is gone from home, the copy succeeds and files are not back |
| RoundTrip.OneJobMisplaced | controllers/restore_controller.go:268-271 | one such volume, with one job |
| RoundTrip.FilesBackIffTargetExists | controllers/restore_controller.go:268-271 | a successful restore of `jobs` or `plugins` brings every file back if and only if that directory still existed |
| Isolation.BackupIsolated | controllers/backup_controller.go:217-263 | a Backup run, whatever fails half-way, touches nothing outside its own directory, and nothing at all if that directory existed |
| Isolation.RestoreIsolated | controllers/restore_controller.go:246-285 | a Restore run, whatever fails half-way, touches nothing outside Jenkins home |
| Isolation.BackupsAreImmutable | controllers/backup_controller.go:218-232 | over any sequence of Backup and Restore runs an existing backup directory keeps its whole content |
| Isolation.RecordedSuccessIsRightIffPossible | controllers/backup_controller.go:217-263 | when commands on the volumes fail only because of the volumes, a recorded success is right if and only if the directory did not exist and every selected part had something to copy when the Backup started |
| EndToEnd.BackupRunArchives | controllers/backup_controller.go:166-183 | a run that copied everything leaves exactly the volume of a successful Backup |
| EndToEnd.RestoreRunLoads | controllers/restore_controller.go:176-199 | a run has RestoreCompleted=True on record exactly when its copies are possible and there are any, and leaves exactly their result |
| EndToEnd.RecordedRestoreRestores | controllers/restore_controller.go:65-200 | from a Backup run to a later run of a Restore that refers to it: the recorded verdict is True if and only if something was selected, saved, not empty and clashes with nothing, and then every selected path holds its backup-time content and every other path is unchanged |
| ExecChannels.EverySchedule | pkg/exec/exec.go:109-142 | for any sequence of requests every schedule takes at most six steps a request, never deadlocks, leaves both channels empty between calls, and returns each request's own error |
| ExecChannels.UnbufferedDeadlocks | pkg/exec/exec.go:44-46 | without the buffer of the error channel the first streamed request deadlocks |
| ExecChannels.KubeExecClient.InitKubeGoClient | pkg/exec/exec.go:42-46 | both channels start empty, also when building the client configuration fails; its error is what is returned |
| ExecChannels.KubeExecClient.MakeRequest | pkg/exec/exec.go:68-79 | under any scheduler a call terminates, returns its own command's error and leaves both channels empty |
| JenkinsMachine.RetriedIffNotRecorded | controllers/jenkins_controller.go:142-156 | after failed work a reconcile returns the outcome of writing Degraded=True, so it is retried if and only if the failure could not be recorded |
| JenkinsMachine.FailureNotRetried | controllers/jenkins_controller.go:142-156 | from any persisted conditions, a run whose work fails and that ends without an error |
| JenkinsMachine.ErrorIsTheLastAnswer | controllers/jenkins_controller.go:115-127 | an error is returned if and only if the last answer was a failure or the object had gone when it was read a second time; a failed first read is retried, an object gone at first is not |
| JenkinsStages.SetAllLookup | controllers/jenkins_controller.go:228-259 | setting a list of conditions gives its types their new status and leaves every other type alone |
| JenkinsStages.StageStatuses | controllers/jenkins_controller.go:228-259 | at the start: complete and upgradeable unknown, not available, progressing; at the end: complete, available, upgradeable, not progressing |
| JenkinsController.JenkinsReconciler.SetStatusConditions | controllers/jenkins_controller.go:228-259 | whichever stage is in memory becomes exactly the final list; on any other list the five types get their final status and the rest is kept |
| JenkinsController.JenkinsReconciler.SetInitialConditions | controllers/jenkins_controller.go:687-718 | an object without conditions gets exactly the first list; on any list the five types get their first status and the rest is kept |
| JenkinsController.JenkinsReconciler.UpdateJenkinsStatus | controllers/jenkins_controller.go:208-226 | one retry after a reload; an error only if the reload or the second write failed |
| JenkinsController.JenkinsReconciler.Reconcile | controllers/jenkins_controller.go:106-206 | the log of a reconcile, under any answers, is a run of the machine that ended with the returned error |
| JenkinsStages.CompletedConditions | controllers/jenkins_controller.go:228-259 | completing any persisted stage gives the same five conditions |
| JenkinsStages.DegradedConditions | controllers/jenkins_controller.go:142-150 | a failure changes Degraded and keeps the stage |
| JenkinsConditions.StepKeepsInv | controllers/jenkins_controller.go:106-226 | every step of every reconcile, with stale reads and conflict reloads, keeps the condition invariant and only appends to the history |
| JenkinsConditions.PersistedConditions | controllers/jenkins_controller.go:129-156 | every persisted version with conditions has exactly one entry of each of the five types and no other, its four stage conditions have the initial or the completed statuses together, and completed is never taken back |
| JenkinsCompletion.PrematureIff | controllers/jenkins_controller.go:209-224 | an applied write, acknowledged or not, records completion before its reconcile has done any work exactly if it is the second attempt at the first update |
| JenkinsCompletion.WorkIsAnswered | controllers/jenkins_controller.go:140-140 | over every run a reconcile's work ended the way it was answered, and is answered once |
| JenkinsCompletion.CompletionIsRightIff | controllers/jenkins_controller.go:199-206 | over every run, whoever puts completion on record where it was not has succeeded in its work if and only if its first update did not fail and its work was neither rejected by the validation nor postponed |
| JenkinsCompletion.CompletionIsEarned | controllers/jenkins_controller.go:131-206 | in runs where no first update fails and no work is rejected or postponed, completion is on record only once some reconcile's work has succeeded |
| JenkinsCompletion.CompletedBeforeAnyWork | controllers/jenkins_controller.go:131-137 | one refused first update puts completion on record while no reconcile has done any work |
| JenkinsCompletion.UndoneWorkRecordedAsCompleted | controllers/jenkins_controller.go:349-368 | a run without any failure in which the only work is rejected, or postponed, and completion is on record at its end |
| Defaulting.Idempotent | controllers/jenkins_controller.go:440-564 | in a fixed environment, defaulting a calculated spec changes nothing |
| Defaulting.FillsExactlyTheGaps | controllers/jenkins_controller.go:440-564 | what the request sets stays as it is, the master's image and pull policy apart, and nothing that has a default is left unset |
| Defaulting.AllDefaults | controllers/jenkins_controller.go:482-561 | every default in figures, from a bare master and a bare sidecar |
| Defaulting.LastBuildIsDeployed | controllers/jenkins_controller.go:470-474 | a referenced image that is successful is deployed by its last build, registry and name in front, whatever the container asks for |
| Defaulting.RecordedBuildIsDeployed | controllers/jenkins_controller.go:461-480 | from goroutine to deployment: the build a goroutine has just persisted is the one the next defaulting deploys |
| Defaulting.PendingImageIsLeftAside | controllers/jenkins_controller.go:470-470 | a referenced image that is not successful yet changes nothing |
| Defaulting.RefusedIff | controllers/jenkins_controller.go:590-606 | refused exactly for a first container of another name, or a referenced image that is not found |
| Defaulting.PanicsIff | controllers/jenkins_controller.go:470-478 | defaulting panics exactly for a master without containers or a successful image without builds |
| Defaulting.LastBuildInRange | controllers/jenkins_controller.go:474-475 | with statuses from any run of the JenkinsImage controller the last build is always there |
| Defaulting.Defaulter.GetJenkinsMasterContainer | controllers/jenkins_controller.go:590-606 | the container defaulting starts from, or the error for a first container of another name |
| Defaulting.Defaulter.GetCalculatedJenkinsMaster | controllers/jenkins_controller.go:577-588 | a fresh copy of the master with its original containers; panics exactly for a master without containers |
| Defaulting.Defaulter.MasterImage | controllers/jenkins_controller.go:456-480 | the requested image, the default one, or the last build of the referenced image |
| Defaulting.Defaulter.SetEnvVarIfNotSet | controllers/jenkins_controller.go:566-575 | adds a variable only if none of that name is set |
| Defaulting.Defaulter.SetDefaultsForContainer | controllers/jenkins_controller.go:630-652 | defaults the container reached through the status of the resource and no other, and tells whether that changed it |
| Defaulting.Defaulter.SetDefaultsForSidecars | controllers/jenkins_controller.go:526-530 | through the shared object every container but the first gets its defaults |
| Defaulting.Defaulter.GetCalculatedSpec | controllers/jenkins_controller.go:440-564 | the in-place computation ends with the status referring to fresh objects that hold exactly the calculated spec; the requested spec's objects are untouched; the errors are exactly those of the specification |
| Defaulting.Defaulter.SetDefaults | controllers/jenkins_controller.go:422-438 | the comparison never finds a difference, so nothing is updated and no other round is asked for |
| Pods.GetJenkinsMasterPodBaseVolumes | pkg/configuration/base/resources/pod.go:151-182 | the loop builds the base volumes that validation and the deployment are stated with |
| Pods.NewJenkinsConfigInitContainer | pkg/configuration/base/resources/pod.go:376-410 | the loop mounts one volume for each configuration, and the default one unless it is off |
| Pods.NewContainers | pkg/configuration/base/resources/pod.go:481-496 | master, optional reload sidecar, the user's sidecars, optional backup sidecar, in this order |
| Pods.AllVolumes | pkg/configuration/base/resources/deployment.go:47-69 | the volumes of a spec that uses everything, one by one with their names and sources |
| Pods.AllContainers | pkg/configuration/base/resources/pod.go:185-354 | its containers with their mounts and paths, one by one |
| Pods.AllInitContainers | pkg/configuration/base/resources/pod.go:356-459 | its init containers with their mounts and paths, one by one |
| Pods.HomeIsMounted | pkg/configuration/base/resources/pod.go:139-148 | Jenkins home is mounted at the value of the first JENKINS_HOME |
| Validation.ValidateReservedVolumes | pkg/configuration/base/validate.go:342-355 | silent if and only if no user volume takes the name of a base volume |
| Validation.ValidateVolumes | pkg/configuration/base/validate.go:265-292 | silent if and only if every object a volume needs exists; an error only if a read failed |
| Validation.BackedMeans | pkg/configuration/base/validate.go:294-340 | ConfigMaps and Secrets are needed unless optional, claims always, other sources nothing |
| Validation.ValidateContainer | pkg/configuration/base/validate.go:357-376 | silent if and only if image, pull policy and mounts are fine, with one message for each reason that applies and none for another |
| Validation.ValidateContainerVolumeMounts | pkg/configuration/base/validate.go:378-400 | silent if and only if every mount has a path and names a base volume or a user volume |
| Validation.ValidateJenkinsMasterPodEnvs | pkg/configuration/base/validate.go:402-441 | silent if and only if the last JAVA_OPTS carries both required flags |
| Validation.LastIsLast | pkg/configuration/base/validate.go:402-412 | the value taken is that of the last variable of the name, whatever comes before |
| Validation.ValidateConfiguration | pkg/configuration/base/validate.go:489-535 | silent if and only if secret, configurations and default ConfigMap are there or can be created, with one message for each empty name and for a secret alone |
| Validation.StopsIff | pkg/configuration/base/validate.go:489-535 | stops exactly for a named object that cannot be read or a default ConfigMap that can neither be read nor created; silent exactly if it does not stop, no name is empty and no secret stands alone |
| Validation.Validate | pkg/configuration/base/validate.go:156-193 | neither messages nor an error exactly for the specs that satisfy every check, and every message of every check there exactly when its own reason is |
| Validation.DefaultedHasFlags | controllers/jenkins_controller.go:496-497 | a master container without JAVA_OPTS passes the flag check once defaulted |
| ClosedPods.ClosedIff | pkg/configuration/base/resources/deployment.go:14-69 | of a defaulted spec the deployment is closed if and only if the user's own mounts are |
| ClosedPods.AcceptedIsClosed | pkg/configuration/base/resources/pod.go:185-507 | when defaulting succeeds and validation has neither messages nor an error, every mount of every container and init container names a volume of the deployment, whatever the flags |
| ClosedPods.MountCheckIff | pkg/configuration/base/validate.go:378-400 | the mount check agrees with the deployment except for the two backup volumes |
| ClosedPods.DuplicateNamesAccepted | pkg/configuration/base/validate.go:342-355 | under every Jenkins name a spec with two volumes of one name is accepted and deployed |
| ClosedPods.UniqueNamesIff | pkg/configuration/base/resources/deployment.go:47-69 | of an accepted spec the volume names are unique if and only if configurations and user volumes are named once each and user volumes avoid the backup's names |
| RbacNames.NamesInjective | pkg/configuration/base/resources/meta.go:23-32 | within one instance a binding name determines the kind of role and its name |
| RbacNames.NameSpelled | pkg/configuration/base/resources/meta.go:23-32 | `-cr-` for a ClusterRole, `-r-` for everything else |
| RbacNames.OwnedSpelled | pkg/configuration/base/rbac.go:71-75 | the prune loop considers exactly the names with one of the two prefixes |
| RbacNames.CollidingRole | pkg/configuration/base/rbac.go:71-75 | when the first name with a dash starts with the second with an infix, a role of the second whose binding the first one's prune loop considers its own |
| RbacNames.CollideIff | pkg/configuration/base/rbac.go:71-75 | one instance's prune loop considers some binding of another if and only if one name with a dash starts with the other with an infix |
| RbacNames.Disjoint | pkg/configuration/base/rbac.go:71-75 | instances that do not shadow each other own no common name, nor the other's main binding |
| Rbac.ReconciledExact | pkg/configuration/base/rbac.go:55-94 | afterwards the names with this instance's prefixes are exactly the wanted ones, each bound to a wanted role; every other binding, the main one included, is unchanged; a second time changes nothing |
| Rbac.BindsTheWantedRole | pkg/configuration/base/resources/rbac.go:43-66 | every wanted name is bound to a wanted role that has this name, kind and group included, and to the instance's own service account |
| Rbac.EveryRoleIsBound | pkg/configuration/base/rbac.go:55-65 | every wanted role has a binding of its name, and of its kind |
| Rbac.Independent | pkg/configuration/base/rbac.go:55-94 | reconciling an instance never touches those of one it does not shadow, and the two reconciliations commute |
| Rbac.RbacReconciler.CreateOrUpdateResource | pkg/configuration/configuration.go:99-116 | without an error the binding is in place and no other changed; with an error nothing changed |
| Rbac.RbacReconciler.CreateMainBinding | pkg/configuration/base/rbac.go:40-50 | binds the instance's own role, group and kind included, to its own service account |
| Rbac.RbacReconciler.IsWanted | pkg/configuration/base/rbac.go:77-85 | found if and only if some wanted role has this binding name |
| Rbac.RbacReconciler.PruneBindings | pkg/configuration/base/rbac.go:66-93 | without an error exactly the unwanted bindings of this instance are gone; in any case no other is touched |
| Rbac.RbacReconciler.EnsureExtraRBACArePresent | pkg/configuration/base/rbac.go:55-94 | without an error the namespace is the exact result, every wanted name bound to a wanted role and the instance's account; whatever fails, bindings outside the instance's prefixes are untouched |
| BuildHistory.AfterWaitAppends | controllers/jenkinsimage_controller.go:127-155 | recording a build keeps what is there, adds one new build and sets the phase to successful |
| BuildHistory.AfterWaitExact | controllers/jenkinsimage_controller.go:127-155 | a build is recorded exactly if the wait succeeded and the snapshot has one container, terminated with the message of a build that is new; then the phase is successful and that build is last |
| BuildHistory.TrimExact | controllers/jenkinsimage_controller.go:132-137 | bars, newlines and spaces go at both ends, all of them and nothing else |
| BuildHistory.StepKeepsInv | controllers/jenkinsimage_controller.go:57-155 | every step of every reconcile and goroutine keeps the history invariant |
| BuildHistory.BuildsOverEveryRun | controllers/jenkinsimage_controller.go:122-155 | over all interleavings the builds are append-only and free of duplicates, each was read off a terminated builder pod, and the phase is successful in exactly the versions that have a build |
| ImageRuns.CanRecordIff | controllers/jenkinsimage_controller.go:127-155 | a waiting goroutine can still record a build, in any continuation, if and only if its pod snapshot had terminated when taken, before the wait, and its image snapshot is the latest version |
| ImageRuns.PodNeedsConfigMap | controllers/jenkinsimage_controller.go:83-117 | as long as ConfigMap reads fail only by not finding it, a builder pod exists only beside its ConfigMap |
| ImageRuns.PodWithoutConfigMap | controllers/jenkinsimage_controller.go:84-97 | one read that fails otherwise is enough for a pod without it |
| ImageRuns.PodAloneIff | controllers/jenkinsimage_controller.go:83-117 | over every run, a reconcile creates the pod beside no ConfigMap if and only if its own ConfigMap read failed otherwise than by not finding it and nobody has created the ConfigMap |
| ImageRuns.OneReconcile | controllers/jenkinsimage_controller.go:75-125 | from any state, an undisturbed reconcile leaves fewer objects missing or none, ConfigMap first, whatever else interleaves |
| ImageRuns.Convergence | controllers/jenkinsimage_controller.go:75-125 | from any state, after two undisturbed reconciles one after the other, whatever else interleaves, both objects are there |
| JenkinsImages.Contains | controllers/jenkinsimage_controller.go:169-176 | true if and only if the build is in the list |
| JenkinsImages.ChecksumOfNothing | controllers/jenkinsimage_controller.go:157-167 | for every image not called like its namespace, objects of the controller's own making under which the recorded checksum is that of nothing |
| JenkinsImages.ChecksumFitsIff | controllers/jenkinsimage_controller.go:157-167 | where no other namespace holds a ConfigMap of that name, the recorded checksum is that of the Dockerfile if and only if the image is called like its namespace |
| JenkinsImages.DockerfileIsMounted | pkg/configuration/base/resources/builder.go:110-236 | what the builder pod mounts as its Dockerfile directory is a volume over the very ConfigMap the reconcile creates, and no other volume has that name |
| JenkinsImages.ConductsLeads | controllers/jenkinsimage_controller.go:57-125 | what one reconcile's calls can do is a run of the machine of `BuildHistory` and `ImageRuns` |
| JenkinsImages.JenkinsImageReconciler.Reconcile | controllers/jenkinsimage_controller.go:57-125 | undisturbed, one step towards both objects, the ConfigMap with the given content; a pod without its ConfigMap exactly when the image was read, the ConfigMap read failed, neither object was there and the calls for the pod went through; an error exactly when the image read or a create failed; a goroutine exactly when nothing had to be created, with the snapshots as read; and its calls are a run of the machine of `BuildHistory` in which reads fail exactly where the calls do |
| JenkinsImages.JenkinsImageReconciler.GetDockerfileContent | controllers/jenkinsimage_controller.go:157-167 | the content found under the image's name as namespace, or nothing |
| JenkinsImages.JenkinsImageReconciler.UpdateStatusWhenPodIsCompleted | controllers/jenkinsimage_controller.go:127-155 | one version is appended if a new build was read off the snapshot and the image snapshot is still current; otherwise nothing changes |
| BuilderPods.DockerBuilderSecretName | pkg/configuration/base/resources/secret.go:26-39 | the first secret of the builder account, or no name if there is none |
| BuilderPods.FirstSecretIsFirst | pkg/configuration/base/resources/secret.go:31-38 | nothing before the secret taken belongs to the builder account, and what comes after does not matter |
| BuilderPods.AllOfThem | pkg/configuration/base/resources/builder.go:144-236 | volumes and mounts one by one |
| BuilderPods.PairedIff | pkg/configuration/base/resources/builder.go:144-236 | mounts and volumes of the builder pod pair one to one by distinct names if and only if the image names its own secret or both lookups agree on whether there is one |
| Services.UpdateService | pkg/configuration/base/resources/service.go:15-32 | merges the configured labels into the label map whoever shares it; panics exactly for a missing label map and configured labels |
| Services.ServiceReconciler.CreateService | pkg/configuration/base/service.go:15-39 | the selector is what the shared map holds afterwards; that map takes the configured labels exactly when the service had to be created; no other service changes |
| Services.ServiceReconciler.EnsureServicesArePresent | pkg/configuration/base/reconcile.go:119-130 | both selectors equal the labels of the deployment if and only if each service existed or adds nothing to them |
| Services.AgreeIff | pkg/configuration/base/resources/deployment.go:14-44 | what the first service adds stays in the map the second one uses |
| Services.LabelsTellInstances | pkg/configuration/base/resources/meta.go:35-41 | no two instances have the same labels, and no pod is selected by the labels of both |
| Services.ServiceNamesCollideIff | pkg/configuration/base/resources/service.go:35-42 | services of two instances share a name if and only if one instance is called like the other with `-jnlp` behind it |
| Services.CreationBreaksSelector | pkg/configuration/base/service.go:19-31 | one configured label of its own cuts a new service off from the pods, and whatever service comes next |
| Plugins.NewThenString | pkg/plugins/plugin.go:19-49 | exactly the strings of a valid name, a colon and a valid version are accepted, and printing gives them back |
| Plugins.StringThenNew | pkg/plugins/plugin.go:33-62 | parsing recovers name and version of every valid plugin from its string |
| Plugins.PatternsExact | pkg/plugins/plugin.go:23-31 | letters, digits, dash and underscore in names; letters, digits, plus, backslash, dot and dash in versions; neither empty |
| Plugins.MapDemandsAny | pkg/plugins/plugin.go:95-111 | the order in which a map is traversed does not matter |
| Plugins.DemandsIff | pkg/plugins/plugin.go:90-111 | every root plugin and every dependency of every map is required, in its version and on behalf of its root, and nothing else |
| Plugins.PairsCount | pkg/plugins/plugin.go:118-129 | the nested loops give every ordered conflicting pair as often as it occurs |
| Plugins.NoMessagesIffCompatible | pkg/plugins/plugin.go:90-133 | no message if and only if any two requirements of one plugin agree on the version |
| Plugins.VerifyDependencies | pkg/plugins/plugin.go:90-133 | exactly one message for each ordered pair of requirements of one plugin that disagree, as a multiset, for any number of maps in any order |
| Plugins.VerifyBasePlugins | pkg/configuration/base/validate.go:469-487 | silent if and only if every required plugin is named |
| Plugins.ValidatePlugins | pkg/configuration/base/validate.go:443-467 | silent if and only if every plugin is well formed, no two of one name differ in version, and every required one is named, with one message for each that is not |
| Strings.SplitOfJoin | pkg/configuration/configuration.go:258-261 | splitting inverts joining for pieces without the separator |
| Strings.JoinOfSplit | pkg/configuration/configuration.go:258-261 | joining inverts splitting, and there are two pieces or more exactly if the separator occurs |
| JenkinsOptions.GetJenkinsOpts | pkg/configuration/configuration.go:246-269 | the options of the first JENKINS_OPTS; none if it is missing or empty; a panic if and only if some token has no equals sign |
| JenkinsOptions.DoubleSpacePanics | pkg/configuration/configuration.go:258-262 | two spaces in a row panic, whatever stands around them |
| JenkinsOptions.LastWins | pkg/configuration/configuration.go:260-263 | every key has the value of its last assignment, and there are no other keys |
| JenkinsOptions.FirstIsFirst | pkg/configuration/configuration.go:249-253 | the variable taken is the first of its name, whatever comes after |
| JenkinsOptions.AssignmentParses | pkg/configuration/configuration.go:260-264 | the value ends at the next equals sign, and the key loses its double dashes |
| JenkinsOptions.FirstDashesGo | pkg/configuration/configuration.go:260-264 | double dashes go from left to right, all of them |
| JenkinsOptions.PrintThenParse | pkg/configuration/configuration.go:246-269 | printing any map of printable options, in any order, and parsing it gives the map back; the empty map comes back as none |

## Left out

- Reasons, messages and times of conditions, log text, notifications: they carry no decision.
- Deletion and recreation of the custom resources, and writers of status other than these controllers: an object keeps one history; other writers may add versions that leave the status as it is.
- The lookup of the pod by deployment and replica set: one request that succeeds or fails. That the lookups panic on a missing deployment is not part of this model.
- The exec endpoint, SPDY streams and what Jenkins does with a posted action: a command succeeds or fails; the four scripts leave the volumes alone.
- What lies at `/var/lib/jenkins` in the backup container when JENKINS_HOME names another directory (see Scripts.HomeIsSeenIff): the volumes are those of a container that sees Jenkins home there.
- Records.ConditionsAreTruthful: leaves out the verdicts on the copies, which BackupTraces and RestoreTraces are about.
- Records.EverythingIsRecorded: the second write after a failed restart, which repeats the first, is not part of the claim.
- Symbolic links, permissions, sizes and the order inside one `cp`: a failed copy may leave anything below its target.
- What Jenkins itself writes to its home between a Backup and a Restore: any change there is allowed by the round trip, none while a copy runs.
- docs/backupandrestore.adoc:168 says that of the BackupConfig only the restart settings are used for a Restore; controllers/restore_controller.go:250-258 uses the selected parts too, and the model follows the code.
- RoundTrip.RoundTripExact: assumes that the directories restored into exist; RoundTrip.FilesBackIffTargetExists is about the other case.
- EndToEnd.RecordedRestoreRestores: assumes that commands on the volumes fail only because of the volumes, which no record could tell apart.
- JenkinsImages.JenkinsImageReconciler.Reconcile: reads the latest version of each object; stale reads are part of BuildHistory and ImageRuns.
- ImageRuns.Convergence: the two reconciles are undisturbed and the second starts after the first is through; others may do anything but delete.
- The text of the Dockerfile and the destination of the build: parameters or left out.
- Services.ServiceReconciler.CreateService: after a create or update the local service keeps its map objects; what the API server adds on its own is not part of this model.
- Rbac.RbacReconciler.CreateOrUpdateResource: the API server's refusal to change the role of an existing binding counts as a failed call.
- Validation.Validate: image and URL patterns are predicates; the checks of image pull secrets and of the master command are not called by the source.
- Pods.NewContainers: of a container the name, the image and the mounts; environment, ports, probes and resources are not part of it.
- Defaulting.Defaulter.GetCalculatedSpec: annotations, labels, node selectors, tolerations and security context of the master are copied along in the source and not part of the model; a list is a value where the source shares it without writing to it.
- The error counter of the Jenkins reconciler: every error has returned before it.
- Creation of the backup claim and of the default BackupConfig, the seed of the default ConfigMap, service accounts, secrets, routes: create-if-missing steps with no property of their own.
- MD5, regular expressions, random passwords: functions or predicates without properties.
- The unused comparison helpers of the base configuration, the generated copies, manifests and chart: nothing to prove.
