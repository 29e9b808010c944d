# Verification model of the migration importer

The importer moves a Cloudogu EcoSystem to a new cluster. A coordinator waits for a cron tick, a manual
request or the final timestamp, stops blueprints and dogus, runs an import job, and starts everything
again. The import job copies dogu volumes with rsync, replaces the configuration, and in the final run
takes over the exporter's FQDN and certificate. Each part must survive failed API calls, retries and
interleavings; that is what is modelled and proved here.

## How the cluster is modelled

* **API calls.** `GlobalConfigRepo.Network` numbers the calls of a run and asks `faults(i)` before the
  i-th one: no fault, or an injected error (not found, conflict, already exists, other) that may or may
  not have taken effect. Only where a not-found answer means that an object is gone (reading a blueprint or a
  dogu, deleting a backup schedule) it is never injected for an object that is there. `faults` is arbitrary, so a contract holds under every placement of failures.
  `Quiet` says that no failure is injected from some call on; contracts say exactly how an operation
  ends then, so that an operation that always fails would not meet them. `FewFailures` says that fewer calls
  fail than an operation has retry steps, and none with a false not-found or already-exists.
* **Time and other parties.** `Evolves` relations say what the cluster may do between two calls (pods
  terminate, marked schedules vanish, dogus are deleted). The next world is chosen arbitrarily within them.
* **Clock.** A clock read returns the current time. The firing of the final wait's timer counts as one, although
  the source reads the clock only to start the timer; "strictly increasing clock reads" include it.
* **Concurrency.** The three triggers and the volume resizer's goroutines are state machines whose steps
  interleave in any order; theorems are about every sequence of steps.
* **Go maps.** Their iteration order is arbitrary: loops pick any remaining key.
* **Configuration.** A config is a map from keys to values. `Set` and `Get` strip one leading slash and
  `Set` refuses ancestors and descendants of present keys.

| file | models |
|---|---|
| Kubernetes, ObjectStore, GlobalConfigRepo, ConfigTree, Glob | errors, faults, config maps and secrets, the global config repository, the key tree, path patterns |
| FqdnValues, FqdnManager, CertificateManager, FqdnService | the FQDN change transaction |
| Triggers | cron, manual and final migration over one flag and one clock |
| MigrationSaga, BlueprintControl, DoguControl, Coordinator | one migration run, stopping and starting around it, and sequences of whole runs |
| DoguLists, UnorderedCopy, GlobalImport, DoguImport, BackupSchedules | configuration import |
| ImportJob, KeyChanges | the job's environment, its gate, sequences of jobs, and what they can do to the importer's own keys |
| DataSync, JobWatch | the rsync driver, waiting for the job |
| Validator, VolumeResizer | comparison of the two systems, enlarging volumes |

## What holds, and what does not

* **FQDN change.** All-or-nothing under every placement of failures, after at most 7n² + 12n + 2 calls for
  n retry steps. One family breaks it: a certificate secret without data makes the update panic after the
  FQDN was saved, the deferred step sees no error and deletes the backups. Under every placement of failures
  a crash leaves the original state unless `FqdnService.Tears` holds of the start; without failures a crash
  has changed something iff `TearsVisibly` holds, that is iff moreover the exporter's values differ. A config
  in which the three keys cannot be set (a key above or below them is present) ends in a restore error even
  without failures.
* **Triggers.** A delta and the final migration exclude each other only on a clock that never returns the
  same time twice: the wait ends at the timestamp, while the timestamp only expires after it.
  `TieBreaksExclusion`, `CancelBreaksExclusion` and `RaceBreaksExclusion` reach an overlap of delta and
  final from the start for each of the three exceptions; `HandlersOverlap` and `ManualJoinsFinal` reach those
  with a manual run.
* **Global config.** One import never touches a kept entry unless the store already holds its key with a slash in
  front. But an exporter key with two leading slashes is
  not recognised as one to keep, is stored with one slash, and counts as kept there, so the next import copies
  it to the key itself. Over a sequence of jobs the importer's own keys can change without an FQDN change iff
  one job plants the key like that and a later one can be imported on top (`KeyChanges.OwnKeyChangesIff`).
  `ProtectionIff`, `AbsorptionIff`, `IdempotentIff` and `RunsProtectIff` say when an import leaves everything that counts as
  kept alone, the planted entry included, when it is absorbed by the next and when repeating it changes nothing.
  With additional keys to keep that are nested, one import can leave a store into which no import is possible
  any more (`CopyFailsForEver`).
* **Dogu config.** A second import is unaffected by the first one exactly when the excluded keys the store
  held were also sent the first time, or when it fails either way; a repeated import never changes anything (`DoguImport.Idempotent`).
* **Migration run.** Only the last cleanup error is returned, the mail reports success after a panic, and a
  panic while the maintenance mode is switched off keeps everything stopped.
* **Blueprints.** A patch that fails but took effect is lost; exactly the lost ones stay stopped.
* **Job watch.** Nil also means that the channel was closed or a foreign job's event came first.

## Model

| member | source | states |
|---|---|---|
| FqdnService.CreateChangeRequest | migration/fqdn/service.go:57-102 | for each of the five names the request holds the value of the last entry for it, with or without a leading slash, and an empty one if there is none; it is refused iff the FQDN, certificate type, certificate or key is empty in that sense |
| FqdnService.RequestIsAsSent | migration/fqdn/service.go:57-102 | the same of the request function that the transaction theorems speak about, in terms of the exporter entries alone |
| FqdnService.Service.ChangeFqdn | migration/fqdn/service.go:135-186 | for every placement of failures: after success the stored config and the secret hold the exporter's last value of each of the five names and nothing else has changed (`TakenOver`); any other plain error leaves every value as before (`AsBefore`); a restore error leaves both backups with the original values (`BackupsHold`) and at most the five values overwritten (`OnlyTheFive`); a crash needs an object without data and leaves the original state unless `Tears` holds; at most 7n²+12n+2 calls; without failures success iff `Changeable`, and a crash that changed something iff `TearsVisibly`; with fewer failing calls than retry steps success leaves no backup, and a restore error needs a stored key above or below one of the three |
| FqdnService.ChangedIffChangeable | migration/fqdn/service.go:135-186 | without failures the change succeeds iff the config has FQDN and certificate type and no key above or below the three, the certificate secret has data, stale backups have data, and the exporter config is complete |
| FqdnService.TearsIff | migration/fqdn/certificate.go:134-149 | it ends half changed iff all that holds but the certificate secret has no data |
| FqdnService.SwitchedIsTakenOver | migration/fqdn/service.go:212-222 | a finished update means entry by entry that config and secret hold what the exporter sent last |
| FqdnService.EntryByEntry | migration/fqdn/service.go:135-186 | what the guarantees on config, secret and backups mean for every single key |
| FqdnService.Service.Transact | migration/fqdn/service.go:142-178 | between backup and deletion the backups hold the original values at every exit, also when update or restore fail half way; a crash has changed the config only if the exporter's request is complete and its three keys can be set |
| FqdnService.Service.Backup | migration/fqdn/service.go:188-198 | success means both backups hold the current values, also over a stale backup, and no stale one was without data; only the backups are touched; with fewer failing calls than retry steps it does not fail when the values are there |
| FqdnService.Service.DeleteBackup | migration/fqdn/service.go:200-210 | only the backups are touched; with fewer failing calls than retry steps both are gone; at most two calls per retry step |
| FqdnService.Service.Update | migration/fqdn/service.go:212-222 | the certificate is touched only after the FQDN was saved |
| FqdnService.Service.Restore | migration/fqdn/service.go:224-234 | the certificate is restored first; what a failed restore leaves is the old state or the backup's values, part by part; with fewer failing calls than retry steps it does not fail when both backups are there and the keys can be set |
| FqdnService.OneRestoreRecovers | migration/fqdn/service.go:142-178 | after a restore error one later successful restore of both parts brings the original state back |
| FqdnService.AfterUpdate | migration/fqdn/service.go:212-222 | however far the update got, the backups stay valid and at most the five values were overwritten |
| FqdnService.AfterRestore | migration/fqdn/service.go:224-234 | however far a restore got, another one can still recover |
| FqdnService.BackupsDoNotMatter | migration/fqdn/service.go:200-210 | deleting the backups takes back none of the guarantees about config and certificate |
| FqdnService.BackupIsOriginal | migration/fqdn/fqdn.go:34-55 | writing the backup back over the config it was taken from changes nothing but a missing alternativeFQDNs, which comes back empty |
| FqdnService.TearsForEveryOtherFqdn | migration/fqdn/certificate.go:134-149 | an importer whose certificate secret has no data ends half changed for every exporter with another FQDN |
| FqdnService.ConfigOverwrittenAgain | migration/fqdn/fqdn.go:140-206 | writing over an already overwritten config gives what writing over the original gives |
| FqdnService.CertificateOverwrittenAgain | migration/fqdn/certificate.go:102-149 | the same for the certificate secret |
| FqdnService.CallBound | migration/fqdn/service.go:135-234 | the call bounds of backup, update, restore and deletion add up to the polynomial |
| FqdnManager.Manager.BackupOnce | migration/fqdn/fqdn.go:75-111 | success means the backup config map holds the stored config's values, whether it was created or updated |
| FqdnManager.Manager.Backup | migration/fqdn/fqdn.go:69-73 | the same after retries on everything but not-found, within the nested call bound; fewer failing calls than retry steps are survived; a panic needs a stale backup without data |
| FqdnManager.Manager.UpdateBackup | migration/fqdn/fqdn.go:113-131 | retries on conflict, and survives fewer conflicts than it has steps; success means exactly the wanted values are in the backup |
| FqdnManager.Manager.Update | migration/fqdn/fqdn.go:167-206 | the stored config is either untouched or has exactly the three keys replaced; success means the latter |
| FqdnManager.Manager.RestoreOnce | migration/fqdn/fqdn.go:140-164 | the stored config is untouched or has the backup's three values |
| FqdnManager.Manager.Restore | migration/fqdn/fqdn.go:134-138 | the same over all retries, with the nested call bound; fewer failing calls than retry steps are survived |
| FqdnManager.Manager.DeleteBackup | migration/fqdn/fqdn.go:209-222 | touches the backup only; not found counts as deleted; with fewer failing calls than retry steps the backup is gone |
| FqdnManager.ThreeKeysAreApart | migration/fqdn/fqdn.go:167-206 | none of the three keys is above or below another, so whether they can be set depends on the other keys only |
| CertificateManager.EcosystemCertificate.UpdateSecret | migration/fqdn/certificate.go:134-149 | retries on conflict, and survives fewer conflicts than it has steps; the secret is untouched or has exactly certificate and key replaced; a panic needs a secret without data |
| CertificateManager.EcosystemCertificate.BackupOnce | migration/fqdn/certificate.go:49-93 | success means the backup secret holds the current pair, whether it was created or updated |
| CertificateManager.EcosystemCertificate.Backup | migration/fqdn/certificate.go:43-47 | the same after retries, within the nested call bound; fewer failing calls than retry steps are survived |
| CertificateManager.EcosystemCertificate.RestoreOnce | migration/fqdn/certificate.go:102-125 | the certificate is untouched or has the backup's pair, its other entries kept |
| CertificateManager.EcosystemCertificate.Restore | migration/fqdn/certificate.go:96-100 | the same over all retries, however many of the failed ones took effect; fewer failing calls than retry steps are survived |
| CertificateManager.EcosystemCertificate.DeleteBackup | migration/fqdn/certificate.go:152-165 | touches the backup only; not found counts as deleted; with fewer failing calls than retry steps the backup is gone |
| CertificateManager.RestoreTwice | migration/fqdn/certificate.go:96-125 | a repeated restore ends where one restore ends |
| Triggers.StepKeepsInv | migration/run.go:90-134 | every step of cron, manual and final process keeps the flag and clock invariant |
| Triggers.RunsKeepInv | migration/run.go:90-134 | the invariant holds in every reachable state |
| Triggers.DeltaEndsAndFrees | migration/run.go:90-116 | from every reachable state a delta migration that got the flag can end by its own steps, and frees the flag |
| Triggers.ManualEndsAndFrees | migration/manual/manual.go:83-109 | so can a manual one |
| Triggers.TickStartsDelta | migration/run.go:90-116 | a tick that finds the flag free starts a delta migration up to the timestamp, and after it starts none and frees the flag |
| Triggers.FlagExcludesHandlers | migration/run.go:90-121 | unless one handler's load fell between another's load and store, the flag is true exactly while one handler is between its two stores, and never two of them run |
| Triggers.ReadyWhenNobodyRuns | migration/run.go:118-121 | then the final process gets ready only while neither handler is running |
| Triggers.DeltaExcludesFinal | migration/run.go:90-134 | a delta and the final migration overlap only after such a race, an early end of the wait or two equal clock reads at exactly the timestamp |
| Triggers.NoDeltaAfterFinal | migration/run.go:96-103 | after the final run has started a delta run passes its clock check only if the wait had ended early or two reads were equal at exactly the timestamp, even after a race |
| Triggers.CronAndFinalExclude | migration/run.go:90-134 | with the cron worker and the final process only, an uncancelled context and strictly increasing clock reads, delta and final never overlap |
| Triggers.NoManualNoRace | migration/run.go:90-121 | one cron worker alone cannot race |
| Triggers.NoCancelNotEarly | migration/timestamp.go:48-72 | without a cancellation the wait does not end before the timestamp |
| Triggers.RaceOverlaps | migration/manual/manual.go:83-109 | as long as the timestamp has not passed, both migrations can run together from every state in which both handlers saw the flag free; after that the cron handler skips its run |
| Triggers.HandlersOverlap | migration/manual/manual.go:83-109 | such a state is reached from the start, so cron and manual migration can overlap at any time up to the timestamp |
| Triggers.ManualJoinsFinal | migration/manual/manual.go:83-109 | the final run never sets the flag, so a manual run can join it |
| Triggers.EarlyOrTiedOverlaps | migration/run.go:90-121 | a delta can join a running final migration whenever the timestamp has not expired |
| Triggers.FinalAlone | migration/timestamp.go:48-72 | the final run can be reached exactly at its timestamp, or before it after a cancellation |
| Triggers.TieBreaksExclusion | migration/timestamp.go:33-62 | for every timestamp, a clock that stands still at it lets delta and final overlap |
| Triggers.CancelBreaksExclusion | migration/timestamp.go:48-62 | so does a cancelled context, on any clock |
| Triggers.RaceBreaksExclusion | migration/run.go:90-134 | so does a race with a manual handler, without a cancellation and on a clock that never returns the same time twice: the manual run frees the flag while the delta still runs |
| MigrationSaga.Migrator.RunMain | migration/runner.go:106-168 | executes a prefix of the main steps that ends at the first step that fails or panics |
| MigrationSaga.Migrator.Cleanup | migration/runner.go:170-208 | every cleanup step runs whatever happened before, until one panics; the result names the run's error and the last cleanup error; a panic of the main part is raised again unless one of the cleanup replaces it; the mail reports the run's error if it is reached |
| MigrationSaga.Migrator.RunMigration | migration/runner.go:106-208 | the whole trace and result of a run, for any results of all steps, panics of the cleanup included |
| MigrationSaga.RunIsUnique | migration/runner.go:106-168 | the step results decide the trace |
| MigrationSaga.JobNeedsEverythingBefore | migration/runner.go:120-168 | the job starts only after validation, blueprint stop, resize, dogu stop and, in a final run, maintenance mode all succeeded |
| MigrationSaga.NoCleanupBefore | migration/runner.go:106-168 | no cleanup step is executed among the main steps |
| MigrationSaga.CleanupRunsIff | migration/runner.go:186-200 | dogus and blueprints are started and the mail is sent exactly once each, last and in this order, iff no cleanup step before the mail panics |
| MigrationSaga.CleanupRunIs | migration/runner.go:170-208 | the cleanup executes its steps up to the first one that panics, and that one's panic is the one raised |
| MigrationSaga.DisableIffFinalFailed | migration/runner.go:179-184 | maintenance mode is switched off iff the run is final and failed or panicked |
| MigrationSaga.NilIffAllSucceeded | migration/runner.go:170-208 | a run returns nil iff every executed step, cleanup included, succeeded; in particular no run that panics anywhere does |
| MigrationSaga.FailureIsNamed | migration/runner.go:170-208 | the error of the main step that failed is reported in the mail, and returned unless the cleanup panics |
| MigrationSaga.PanicIsRaised | migration/runner.go:170-208 | the panic of the main step that panicked is raised again unless the cleanup panics |
| MigrationSaga.LastCleanupFailure | migration/runner.go:179-200 | which cleanup error survives: mail over blueprints over dogus over maintenance mode |
| MigrationSaga.CleanupErrorsCompleteIff | migration/runner.go:179-200 | an error that is returned names every failed cleanup step iff at most one failed |
| MigrationSaga.MailReportsSuccessIff | migration/runner.go:197-205 | the mail reports success iff no main step returned an error, so also after every panic |
| Coordinator.Coordinator.RunSteps | migration/runner.go:120-168 | with the real blueprint and dogu controls the main part is a run of the abstract saga, and the job starts only on a cluster at rest: no blueprint active, and every dogu stopped without active pods, given that dogu resources carry the simple name of their spec |
| Coordinator.Coordinator.StopDogusAndRun | migration/runner.go:145-168 | the same from the resizing on, where the blueprints are not touched any more |
| Coordinator.Coordinator.StartAgain | migration/runner.go:186-194 | blueprints are started whatever starting the dogus reports; each success restores its part |
| Coordinator.Coordinator.RunMigration | migration/runner.go:106-208 | one run refines the saga; nil means every dogu is started and every blueprint but the lost ones is back; a run from whose start on the blueprint API works restores the blueprints even if the run fails or panics, also those of earlier failed runs, unless switching off the maintenance mode panics |
| Coordinator.Coordinator.RunAll | migration/runner.go:106-208 | over any number of runs with any outcomes the bookkeeping stays right, and a last run that returns nil brings everything back as it was before the first, when failed patches take no effect |
| Coordinator.Coordinator.FirstCleanupUnderSecondJob | api/importer/clients.go:63-63 | two overlapping runs share the controls, so the first one's cleanup starts blueprints and dogus under the second one's job: with a working blueprint API some blueprint runs there iff one is to run and was not lost |
| Coordinator.Coordinator.StartAgainAndReport | migration/runner.go:186-207 | the rest of the cleanup has the saga's result, whatever became of the maintenance mode, and restores the blueprints when their API works |
| Coordinator.RunOfAgrees | migration/runner.go:106-168 | what the cleanup does cannot change the main part's trace |
| Coordinator.EndsAfter | migration/runner.go:120-168 | the job is among the executed steps iff the run reached the last one |
| Coordinator.ReturnedIs | migration/runner.go:170-208 | without a panic in the cleanup the error put together step by step is the saga's result, so nil needs both starts to have succeeded |
| Coordinator.Coordinator.Cleanup | migration/runner.go:170-208 | the cleanup with the real controls has the saga's result, a panic of the maintenance mode or the mail included; nil means everything is started again |
| Coordinator.PanicReturns | migration/runner.go:170-208 | a panic while switching off the maintenance mode or sending the mail is what the run raises |
| BlueprintControl.Control.StartStop | api/importer/blueprintClient.go:78-103 | changes at most the named blueprint's flag, and only to the wanted value; a missing flag counts as running; success without a change means the flag was already right or the blueprint gone |
| BlueprintControl.Control.StopListed | api/importer/blueprintClient.go:50-58 | a blueprint is noted down only if this call stopped it; one gets lost iff this call reported a failure, found it running, left it stopped and did not find it on the list |
| BlueprintControl.Control.StopEach | api/importer/blueprintClient.go:50-58 | the loop keeps the bookkeeping right when it stops half way; success means the flag of everything listed that still exists is true |
| BlueprintControl.Control.StopBlueprint | api/importer/blueprintClient.go:44-61 | nil means every blueprint's flag is true; whatever this call took from missing or false to true is noted down or lost, and nothing that was true beforehand is noted down; nothing is lost when failures take no effect |
| BlueprintControl.Control.StartBlueprint | api/importer/blueprintClient.go:64-75 | nil empties the list and leaves no existing blueprint stopped whose flag was missing or false at first, except exactly the lost ones, also after failed cycles that left duplicates; an error keeps the list |
| BlueprintControl.NoteOne | api/importer/blueprintClient.go:50-58 | the list only grows by blueprints that were running |
| DoguControl.Control.StartStop | api/importer/doguClient.go:163-194 | changes at most the named dogu's flag to the wanted value; without failures it fails only for a bad name or a dogu that is gone |
| DoguControl.Control.WaitForDoguPodsTerminated | api/importer/doguClient.go:92-121 | success means no pod of the dogu is active; without failures giving up means some pod has neither succeeded nor failed |
| DoguControl.CountNotTerminatedPods | api/importer/doguClient.go:81-89 | the loop computes the count that CountZeroIff is about |
| DoguControl.CountZeroIff | api/importer/doguClient.go:81-89 | the count is zero iff every pod has succeeded or failed |
| DoguControl.Control.StartStopAll | api/importer/doguClient.go:63-68 | flags set earlier in the loop stay right while later ones are set |
| DoguControl.Control.AwaitAll | api/importer/doguClient.go:70-75 | dogus whose wait finished early are still at rest when the last wait ends |
| DoguControl.Control.RestStays | api/importer/doguClient.go:70-75 | a stopped dogu without active pods stays so while other dogus are polled |
| DoguControl.Control.FlagsStay | api/importer/doguClient.go:63-68 | setting one dogu's flag leaves the flags that are right alone |
| DoguControl.Control.NamesKeepMatching | api/importer/doguClient.go:163-194 | neither the cluster on its own nor setting a flag makes a resource and its spec disagree on the name |
| DoguControl.Control.ListedMeansPresent | api/importer/doguClient.go:56-78 | then what holds for every listed name holds for every dogu present |
| DoguControl.Control.StopAll | api/importer/doguClient.go:56-78 | nil means every listed dogu still present is stopped and has no active pod at return; when resources carry the simple name of their spec, that is every dogu of the cluster, and all its pods have succeeded or failed |
| DoguControl.Control.DoneIff | api/importer/doguClient.go:81-89 | a dogu at rest has no pod that neither succeeded nor failed |
| DoguControl.Control.StartAll | api/importer/doguClient.go:135-150 | nil means every listed dogu still present is started, also one that was stopped before; when resources carry the simple name of their spec, that is every dogu of the cluster |
| ConfigTree.Set | migration/fqdn/fqdn_test.go:404-437 | what is assumed of the registry library: set succeeds iff the trimmed key is neither above nor below a present one |
| ConfigTree.NextKey | migration/config/global_test.go:150-197 | a key that does not fit rules out every larger store, so the order of sets cannot matter for success |
| ConfigTree.AncestorFreeSubset | migration/config/global.go:88-103 | a subset of an ancestor-free key set is ancestor-free |
| Glob.MatchOneLevel | migration/config/importer.go:105-116 | `prefix*` matches exactly the names one level below the prefix |
| Glob.MatchLiteral | migration/config/importer.go:105-116 | a pattern without a star matches itself only |
| GlobalImport.KeptKeys | migration/config/global.go:17-24 | the kept keys are the one-level keys below certificate, k8s and proxy, the three named keys and the configured additional ones |
| GlobalImport.GlobalConfigImporter.AddConfigToKeep | migration/config/global.go:88-103 | in every iteration order: succeeds iff the kept targets are ancestor-free, and yields a copy of exactly the kept entries |
| GlobalImport.GlobalConfigImporter.Refill | migration/config/global.go:57-75 | succeeds iff base and imported keys fit in one tree, and writes exactly the last exporter value of every key that is not kept |
| GlobalImport.GlobalConfigImporter.ImportGlobalConfig | migration/config/global.go:31-84 | saves nothing (at most an empty config where none was) or exactly a complete merge, under every placement of failures; success iff the two or three calls it makes succeed and the merge fits in one tree; then the store holds, key by key, the kept entries it had and the exporter's last value of every other key |
| GlobalImport.MergedIsImportedOver | migration/config/global.go:31-84 | what a merge means key by key, in terms of the fixed names, the additional keys and the exporter's entries |
| GlobalImport.MergeableIff | migration/config/global.go:31-84 | it fits in one key tree iff none of the names to be held is above another |
| GlobalImport.ImportedAreNotKept | migration/config/global.go:57-75 | every imported key comes from an exporter entry that is not kept |
| GlobalImport.SurvivorsAreImported | migration/config/global.go:57-75 | every exporter entry that is not kept is imported |
| GlobalImport.PartsAreDisjoint | migration/config/global.go:46-103 | kept and imported keys are disjoint up to a leading slash |
| GlobalImport.CopyNeverFails | migration/config/global.go:88-103 | copying the kept entries of a key tree cannot fail when the kept keys of the store are without a leading slash |
| GlobalImport.CopyNeverFailsByDefault | migration/config/global.go:17-24 | without additional keys it cannot fail whatever the store holds |
| GlobalImport.CopyNeverFailsIff | migration/config/global.go:88-103 | when no kept key has two leading slashes it fails for no key tree iff no kept name lies below another |
| GlobalImport.CopyFailsForEver | migration/config/global.go:46-103 | for every two nested kept names one import over a store with the inner one saves a key tree into which no later import is possible, because copying its kept entries fails |
| GlobalImport.OrderIndependentIff | migration/config/global.go:88-103 | the result is independent of the iteration order iff no two kept keys with different values differ only by a slash |
| GlobalImport.MergedWhenSettled | migration/config/global.go:46-103 | on a store whose kept keys are without a leading slash the import has one result: the kept entries as they are and the exporter's |
| GlobalImport.KeptEntrySurvives | migration/config/global.go:46-103 | a kept entry comes through every import as it was, present or absent, unless the store also holds its key with a slash in front |
| GlobalImport.OneImportKeepsKeptEntries | migration/config/global.go:46-103 | so one import into a store whose kept keys are without a leading slash leaves every kept entry alone, whatever the exporter sent |
| GlobalImport.OneImportChangesIff | migration/config/global.go:46-103 | over any store: an import can change a kept entry iff the store also holds its key with a slash in front, under another value |
| GlobalImport.CleanImportProtects | migration/config/global.go:46-103 | an import that smuggles nothing leaves what counts as kept, present or absent, as it was |
| GlobalImport.SmuggledKeysHaveTwoSlashes | migration/config/importer.go:105-116 | only a key with two leading slashes can be smuggled |
| GlobalImport.ProtectionIff | migration/config/global.go:46-103 | after every import into a store whose kept keys are without a leading slash the same entries count as kept as before, none added under a key that the next import keeps, iff the import smuggles nothing or could never be stored at all |
| GlobalImport.KeptPartDecides | migration/config/global.go:46-103 | an import reads nothing of the old store but its kept entries |
| GlobalImport.AbsorptionIff | migration/config/global.go:46-103 | a later import behaves as if the earlier one had never been there iff the earlier one leaves what counts as kept alone |
| GlobalImport.Idempotent | migration/config/global.go:46-103 | importing the same clean config twice changes nothing the second time |
| GlobalImport.IdempotentIff | migration/config/global.go:46-103 | importing is idempotent iff the exporter smuggles nothing in or its entries can never be stored together; over every store when no kept key has two leading slashes, else over those whose kept keys have none |
| GlobalImport.SmuggledChangesAgain | migration/config/global.go:46-103 | a smuggled entry makes every repetition of its import change the store again |
| GlobalImport.KeepsNoSlashIff | migration/config/global.go:17-24 | no kept key has two leading slashes iff no configured additional key starts with one |
| UnorderedCopy.SetAll | migration/config/dogu.go:120-125 | in every iteration order: succeeds iff the targets are ancestor-free, and yields a copy of exactly the entries |
| UnorderedCopy.OneCopyIff | migration/config/dogu.go:120-125 | there is one possible copy iff no two spellings of a key have different values |
| DoguImport.CollectValues | migration/config/dogu.go:109-118 | the loop computes the values to set that ValueToSet is about |
| DoguImport.ValueToSet | migration/config/dogu.go:109-147 | per spelling of a key: nothing unless the exporter sent it, the stored value if it is excluded, the exporter's last value otherwise |
| DoguImport.RefilledKeys | migration/config/dogu.go:87-148 | whatever the order, only exporter keys are present, and an excluded one is present iff it was before, with the value it had |
| DoguImport.RefilledValues | migration/config/dogu.go:87-162 | when the exporter's spellings of each key agree, every key that is not excluded carries the exporter's last value |
| DoguImport.RefilledAs | migration/config/dogu.go:87-162 | what one import means for every key: sent, and with the former value if excluded, else with the value of the last entry for one of its spellings |
| DoguImport.StorableIff | migration/config/dogu.go:120-125 | it fits in one key tree iff no two of the keys that are sent, and not excluded or held before, are above each other |
| DoguImport.OrderIndependentIff | migration/config/dogu.go:120-125 | the outcome is independent of the iteration order iff the exporter's spellings of a key agree |
| DoguImport.SecondImportIff | migration/config/dogu.go:87-148 | whatever a first import saved, a second one may save the same stores as without it, iff its excluded keys that the store held were also sent by the first, or it fails either way |
| DoguImport.Idempotent | migration/config/dogu.go:87-148 | importing the same config again succeeds or fails alike and changes nothing |
| DoguImport.ImportDoguConfigWithRepo | migration/config/dogu.go:87-134 | all or nothing for one dogu under every placement of failures; without failures it succeeds iff the keys to set are ancestor-free |
| DoguImport.DoguConfigImporter.ImportDoguConfig | migration/config/dogu.go:60-82 | success means normal and sensitive config are completely imported, over the keys excluded for the dogu; without failures it succeeds iff both can be stored and the local config can be written |
| DoguImport.DoguConfigImporter.ExcludedIff | migration/config/importer.go:67-70 | a key is excluded for a dogu iff some entry of the configured list names both |
| DoguImport.DoguConfigImporter.ImportDoguConfigs | migration/config/dogu.go:41-56 | dogus that are not listed, and nginx, stay untouched; success means, from the configured list itself, that a key listed for the dogu has its former value or is absent, and any other key has the exporter's value for it and is there iff it was sent, by the last entry for the dogu; each dogu holds what its entries make of its config, one after the other; for distinct names and without failures it succeeds iff each can be imported |
| DoguImport.DoguConfigImporter.EachAsConfigured | migration/config/dogu.go:41-82 | what an import of all dogus means, entry by entry of the configured list and of the exporter |
| DoguImport.LastImport | migration/config/dogu.go:41-56 | the last entry for a dogu decides what it holds |
| DoguImport.InTurnKeepsExcluded | migration/config/dogu.go:109-118 | over any number of imports an excluded key has its first value or is gone |
| DoguImport.DoguConfigImporter.EachOnce | migration/config/dogu.go:41-56 | with distinct names every dogu then holds a complete import over its former config |
| DoguImport.FewerTargets | migration/config/dogu.go:87-148 | an earlier import can only take keys away from a later one, so it never makes it fail |
| DoguLists.Collect | migration/config/importer.go:67-70 | what is configured for the same dogu in several places adds up, in order; the rsync driver groups its exclude patterns alike (migration/sync/rsync.go:89-92) |
| DoguLists.ListedSomewhere | migration/config/importer.go:67-70 | a value counts for a dogu iff some entry for that dogu lists it |
| BackupSchedules.Importer.DeleteAndWait | migration/config/backup.go:70-113 | nil means the schedule is absent, since the watch opens before the deletion; an accepted deletion ends with nil only if its event shows up behind the start of the watch within the time of the wait, and does end with nil if the history holds it there when the wait begins; not found is reported iff the watch was answered so; without failures an absent schedule always yields nil |
| BackupSchedules.Importer.Await | migration/config/backup.go:92-113 | the event loop passes over foreign events and ends with nil at the deletion, else with the timeout |
| BackupSchedules.Importer.ImportOne | migration/config/backup.go:39-64 | other schedules stay; a created schedule is there with its cron expression; the import is broken off as unavailable iff the watch was answered with not found |
| BackupSchedules.Importer.ImportBackupSchedules | migration/config/backup.go:32-68 | nil without a skip means every name whose last delete succeeded is present with its last entry's cron expression; schedules that are not imported are untouched; it errs only after a successful delete, and never without an API failure |
| BackupSchedules.NextEntry | migration/config/backup.go:39-64 | a later entry of another name does not disturb an earlier one |
| ImportJob.FlagsReachTheJobIff | migration/jobProvider.go:393-403 | the coordinator's two flags reach the job's context iff both are set; nothing else in the environment sets it |
| ImportJob.OnlyAFinalMigrationTriggers | migration/run.go:118-134 | only a final migration that shall change the FQDN starts a job that may |
| ImportJob.ImportExecuter.SyncConfig | migration/config/importer.go:84-103 | stops at the first part that fails; the global config is untouched or completely merged; success iff the exporter answers, the calls of the global import succeed, everything fits in one tree, and the other two parts succeed |
| ImportJob.ImportExecuter.Start | cmd/import-job/executer.go:54-86 | both syncs always run; it reports a failed sync iff data or config cannot be synced, and which of them; otherwise it ends without a change iff the trigger is off; otherwise with the transaction's guarantees on the config the sync left, all five values taken over on success, and without failures with the transaction's own outcome |
| ImportJob.ImportExecuter.RunJob | cmd/import-job/main.go:19-60 | a whole job, from who started the migration over the environment to the end, is a step of the stored config, and it attempts the FQDN change iff it is a final one with trigger whose data and config can be synced |
| ImportJob.RunJobs | cmd/import-job/executer.go:54-86 | any number of jobs, each with its own clients over one stored config, is a run in the sense of the theorems below |
| ImportJob.StepProtects | cmd/import-job/executer.go:54-86 | one harmless job that does not qualify for an FQDN change leaves what counts as kept as it was |
| ImportJob.HarmlessJobsProtect | cmd/import-job/executer.go:54-86 | any sequence of such jobs, with any outcomes, does |
| ImportJob.HarmfulJobBreaks | migration/config/global.go:46-103 | one job with a smuggled key is enough to add an entry that counts as kept, in a run in which all other jobs fail |
| ImportJob.RunsProtectIff | cmd/import-job/executer.go:54-86 | over every sequence of jobs none of which is a final one with trigger and both syncs successful, the same entries count as kept, smuggled spellings included, iff no exporter config smuggles one in |
| ImportJob.OwnKeysSurvive | migration/config/global.go:17-24 | in particular fqdn, alternativeFQDNs and every one-level certificate key then keep their value or their absence; KeyChanges.OwnKeyChangesIff has both directions |
| ImportJob.TwoSlashesAreHarmful | migration/config/importer.go:105-116 | for each of those keys, the same key with two leading slashes is a harmful exporter entry |
| KeyChanges.ChangesIffAppears | migration/config/global.go:46-103 | for every kept key and every sequence of jobs that may not change the FQDN, from any store in which nothing waits for the key with slashes in front: some outcome changes the key's value, presence or absence iff exporter entries alone can make it appear in an empty store |
| KeyChanges.ChangesIffTwoJobs | migration/config/global.go:46-103 | that is, iff one job has a surviving entry that is stored as the key with a slash in front, and a later job's entries can be imported on top of the former's |
| KeyChanges.OwnKeyChangesIff | migration/config/global.go:17-103 | both conditions for the importer's fqdn, alternativeFQDNs and one-level certificate keys |
| KeyChanges.OneJobChangesNothing | migration/config/global.go:46-103 | a single such job changes none of them unless the store already holds the key with a slash in front, whatever the exporter sent |
| KeyChanges.OneJobCompletes | migration/config/global.go:46-103 | if it does, under another value, a single job that exports nothing can give the key that value |
| KeyChanges.WaitsIff | migration/config/global.go:88-103 | the only key that waits is the one with a single slash in front, unless that spelling is itself kept |
| KeyChanges.NothingWaitsWhenSettled | migration/config/global.go:88-103 | nothing waits in a store whose kept keys are without a leading slash |
| KeyChanges.TwoJobsChangeIt | migration/config/global.go:46-103 | two jobs that export the key with two slashes in front turn an absent key into a present one |
| KeyChanges.PlantedByTwoSlashes | migration/config/importer.go:105-116 | an entry is stored as the key with a slash in front iff the exporter sends the key with two |
| KeyChanges.KeysOfRun | migration/config/global.go:46-103 | along every run the stored keys are what imports leave of the first store's, among which nothing new waits for a key, and those the exporters brought |
| KeyChanges.NothingBroughtNothingChanged | migration/config/global.go:46-103 | a kept key that the exporters do not bring in keeps its value or absence along every run |
| KeyChanges.BuildRun | migration/config/global.go:46-103 | every combination of saves that fits in one key tree is taken by some run |
| DataSync.GetSubDirs | migration/sync/rsync.go:271-291 | a missing directory has no subdirectories; any other read error is one |
| DataSync.SubDirsAre | migration/sync/rsync.go:283-287 | exactly the directories that are not on the ignore list |
| DataSync.DirsAre | migration/sync/rsync.go:271-291 | an error iff the directory cannot be read; otherwise exactly its directories but `lost+found` and `_private` |
| DataSync.GetSimpleDoguNames | migration/sync/rsync.go:155-166 | the set of simple names, unqualified names standing for themselves |
| DataSync.Syncer.SyncDirs | migration/sync/rsync.go:133-143 | every listed subdirectory is copied once, in order; nothing is reported iff every copy succeeded |
| DataSync.Syncer.SyncDogu | migration/sync/rsync.go:98-146 | an excluded dogu causes no event and no report, one that cannot be named, exported or listed is reported and not copied, any other is copied directory by directory after it was set for export |
| DataSync.Syncer.SyncData | migration/sync/rsync.go:80-148 | the trace is the concatenation of the dogus' traces, whatever fails; nil iff every dogu is excluded, or has a name, was exported, listed and copied directory by directory without an error |
| DataSync.Syncer.AllOkIff | migration/sync/rsync.go:80-148 | nothing is reported iff nothing is for any dogu, said in terms of the answers |
| DataSync.Syncer.EveryDoguIsTried | migration/sync/rsync.go:98-146 | every dogu that has a name and is not excluded is set for export, whatever happens to the others, and every listed directory of an exported one is copied |
| DataSync.Syncer.CopiesAreAsked | migration/sync/rsync.go:133-143 | no other copies are made: each has its dogu's directory, export, patterns and checksum setting |
| DataSync.Syncer.ExcludedAreLeftAlone | migration/sync/rsync.go:105-109 | no excluded dogu, by simple name, is ever set for export or copied |
| DataSync.Syncer.NothingReportedMeansAllCopied | migration/sync/rsync.go:80-148 | nil means every listed subdirectory of every dogu that is not excluded was copied successfully, from its export and with its patterns |
| DataSync.EveryCopyIsFromTheExportedDogu | migration/sync/rsync.go:111-143 | every copy of a dogu runs while that dogu is the one last successfully set for export |
| JobWatch.WatchEvents | migration/jobService.go:233-276 | ends at the first event that is not a change of the unfinished job itself, and reports nil exactly for the end of the channel, a success or a foreign job |
| JobWatch.NilWithoutSuccessIff | migration/jobService.go:233-276 | nil proves nothing about the job iff the channel closed early or a foreign job's event came first |
| JobWatch.NilIffTheJobSucceeded | migration/jobService.go:233-276 | along a history of the job alone that reaches an end, nil is returned iff the job succeeded |
| JobWatch.LaterEventsAreIgnored | migration/jobService.go:233-276 | once ended, the wait ignores whatever follows |
| Validator.Validator.ValidateDogus | systeminfo/validator.go:56-133 | nothing is reported iff the checked exporter dogus have distinct simple names, these are the importer's without the excluded ones, and versions equal the importer's last entry |
| Validator.Validator.ValidateComponents | systeminfo/validator.go:135-154 | nothing is reported iff every exporter component has a non-empty name and the importer's last entry of that name has its version |
| Validator.Validator.Validate | systeminfo/validator.go:32-53 | nil iff dogus and components match, said entry by entry of the two system descriptions |
| Validator.DogusMatchIff | systeminfo/validator.go:56-133 | what matching dogus are: the entries taking part have distinct simple names, each has the version of the importer's last entry of that name, and the importer has no other dogus but excluded ones |
| Validator.ComponentsMatchIff | systeminfo/validator.go:135-154 | what matching components are: each has a name and the version of the importer's last entry of that name |
| Validator.LoopsDecideMatch | systeminfo/validator.go:66-93 | consuming the importer map while checking decides the declarative match |
| Validator.AllFoundIff | systeminfo/validator.go:66-83 | what the consuming loop accepts: every checked name found with its version, and none twice |
| VolumeResizer.HasVolumeWithBackup | systeminfo/dogu_volume_resizer.go:122-145 | an error iff version, name or descriptor cannot be read; otherwise whether some volume of the descriptor, wherever it stands, needs a backup |
| VolumeResizer.WaitForPvcResize | systeminfo/dogu_volume_resizer.go:179-204 | succeeds iff one of the 60 polls of the dogu's claim saw at least the requested size |
| VolumeResizer.Resize | systeminfo/dogu_volume_resizer.go:147-176 | succeeds iff the name can be parsed, the dogu of that simple name is found and takes the requested size, and its claim gets there |
| VolumeResizer.FailsIffNotFine | systeminfo/dogu_volume_resizer.go:71-108 | an entry contributes an error iff it is not left out and the importer's first dogu of its name is missing, cannot be read, or has a volume to back up, is too small and is not enlarged |
| VolumeResizer.LeftOutIff | systeminfo/dogu_volume_resizer.go:71-80 | left out are the excluded dogus and nginx, by simple name |
| VolumeResizer.BackupIff | systeminfo/dogu_volume_resizer.go:122-145 | what the decision knows of the volumes: unreadable, or whether some volume needs a backup |
| VolumeResizer.StepKeepsInv | systeminfo/dogu_volume_resizer.go:63-120 | every step of main, worker and closer goroutines keeps the invariant |
| VolumeResizer.RunsKeepInv | systeminfo/dogu_volume_resizer.go:63-120 | the invariant holds under every interleaving |
| VolumeResizer.SendNeverBlocks | systeminfo/dogu_volume_resizer.go:67-113 | whenever a worker is about to send, the channel is open and has a free place |
| VolumeResizer.NoDeadlock | systeminfo/dogu_volume_resizer.go:63-120 | until the main goroutine has ended, some goroutine can go on |
| VolumeResizer.EveryRunEnds | systeminfo/dogu_volume_resizer.go:63-120 | every interleaving is over after at most 4n + 3 steps |
| VolumeResizer.OneErrorPerFailure | systeminfo/dogu_volume_resizer.go:63-120 | the joined errors are exactly one per entry whose volume is not fine, and none means every volume is fine |

## Left out

- HTTP client, JSON decoding and the exporter services: only the values they return appear, as parameters.
- Mail composition, configuration files and field validation: library behaviour without a hard property.
- Job spec, volume mounts, image and resource parsing, log streaming, client construction: wiring.
- Preflight check, the rsync process and its argument strings: foreign calls; a copy is an event with its arguments and its outcome.
- `local.yaml`: writing it is a file operation; its outcome is a parameter of the dogu import.
- RFC 3339 parsing and the cron library: a timestamp is an integer, ticks of the single cron worker do not overlap.
- Registry, name and version libraries are not part of this model: the key tree's rules are assumed as described above, parsers are parameters.
- Path patterns other than literal characters and `*`: the importer's own patterns use nothing else; additional keys are compared literally.
- Secret data are byte strings in the source and strings here; error messages are reduced to their kind.
- A second writer: with one writer a merge on save replaces the stored config, so SaveOrMerge is one call that replaces.
- FqdnService.Service.ChangeFqdn: counts the request for the exporter's config and a SaveOrMerge as one API call each, because their inner retries belong to libraries.
- FqdnService.Service.ChangeFqdn: a backup retained by an earlier restore error is overwritten by the next change, so nothing is stated about it beyond one change.
- Triggers.CronAndFinalExclude: excludes neither a manual run nor equal clock reads, because the code does not; the overlaps are reached by lemmas of their own.
- DoguControl.Control.StartAll: does not bring dogus back to their earlier stopped state, because the code starts all of them.
- Coordinator.Coordinator.RunAll: runs follow one another; of two overlapping runs only the first one's cleanup under the second one's job is modelled.
- Coordinator.Coordinator.RunMigration: starts after the logger was initialised, lets blueprint and dogu calls fail but not panic, and numbers the API calls of the two clients separately.
- BlueprintControl.Control.StartStop: a not-found answer for a blueprint that is there is not modelled, because the API server gives none; the code would take the blueprint for deleted.
- DoguControl.Control.StartStop: the same for a dogu that is there.
- DoguImport.DoguConfigImporter.ImportDoguConfigs: when a name is listed twice, its exact success condition is not stated, because it depends on what the earlier entry left; success itself is described entry by entry.
- KeyChanges.ChangesIffTwoJobs: speaks of keys whose spelling with one slash is not itself configured as an additional key to keep; for the others ChangesIffAppears gives the condition.
- BlueprintControl.Control.StartBlueprint: does not restart a blueprint whose stopping patch reported a failure but took effect; the contract names exactly these.
- ImportJob.ImportExecuter.SyncConfig: the outcomes of the dogu and the backup schedule import are parameters, because they do not touch the global config; those imports have their own models.
- BackupSchedules.Importer.ImportBackupSchedules: how long a marked schedule takes to vanish is open, so a schedule that was present may be reported as not deleted even without failures.
- VolumeResizer.WaitForPvcResize: the pause between two polls is not modelled, only their number.
