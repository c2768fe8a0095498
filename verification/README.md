# Backup Repository: a verified model of uploads, windows and access

Backup Repository accepts versions of backups into collections. An upload takes a lock, gets the next version number,
plans which old versions to rotate out, computes a byte quota, streams the data through validators, registers the
version and deletes the old ones. This project models those parts in Dafny 4.11 and proves what they guarantee.
`dafny verify dfyconfig.toml` checks everything.

## How the model is laid out

- `UploadProtocol.dfy` is the upload handler as a state machine: one lock table, one registry, one blob store, any
  number of collections and of requests, each with a phase. Every database statement and storage call is a step of its
  own, so requests interleave between any two of them. Steps may fail wherever the program handles a failure, and also
  where it does not: queries, inserts, the copy, the reading of the written size, the registration, the deletes.
- `UploadSafety.dfy` proves the invariant every step keeps, `UploadWindow.dfy` the one about version numbers,
  `UploadConservation.dfy` the one about stray blobs; `UploadTheorems.dfy` states what follows for every admissible run.
- `Handler.dfy` is what one upload does to registry and store as a function of what its surroundings decide;
  `StorageService.dfy` and `LocksService.dfy` are the operations as classes whose methods update their fields.
  `Service.Upload` is the handler body as the holder of the lock executes it, calling the array sort of `Rotation.dfy`,
  the int64 accounting of `Quota.dfy` and the buffer-reusing copy of `Stream.dfy`. It computes exactly that function,
  and `UploadRefinement.dfy` proves that the function, and the lock service, are runs of the state machine.
- `UploadProgress.dfy` proves that runs go on and heal, and gives the runs in which things go wrong; `UploadRefused.dfy`
  is about collections nothing gets into, and those that overflow opens.
- `Naming.dfy` is about file names and paths, `Versions.dfy` about the registry table, `Int64.dfy` about wrap-around,
  `Substrings.dfy` about searching.
- `BackupWindow.dfy` covers schedules, the backward search, upload permission and the window health check.
- `Roles.dfy` and `Decision.dfy` cover role inheritance, access decisions and the gate in front of an upload.

An **admissible run** starts from an empty repository, and in it every holder unlocks before its lock expires
(`ExclusionBrokenIff` shows this is exactly what exclusion needs). A version is **live** while no clean-up has failed to
delete its row. A **sound configuration** has slash-free collection ids, templates that contain `${version}`
(`DiscardSparesRowsIff`), a `MaxBackupsCount` of at least 1 (with 0, `pkg/storage/rotation.go:46` slices one element
past the versions it has listed) and an estimate `MaxBackupsCount * MaxOneVersionSize` at most 2^63 above
`MaxCollectionSize` (`ExtraSpaceExactIff` shows this is exactly what the int64 arithmetic needs: wrapping the product on
the way does no harm).

Further assumptions: `id` is the key of the `locks` table; `uuid.New()` never repeats an id; the blob store holds what
was written once a copy has finished and its size was confirmed; a reader fills the front of the buffer it is given and
leaves the rest of it alone; a registration that reports an error has left no row (a lost reply of the database could
leave one); clocks do not go backwards, though each may be read any time before its statement executes.

## Where the program and its promises part

- The comment at `pkg/storage/validation.go:19-20` promises validators the previous chunk at the end of the stream. The
  previous chunk shares its memory with the read buffer, so the final read overwrites it. `FooterTrustedIff` gives, for
  hunks of every length, the exact condition under which the footer check sees what it should;
  `SharedBufferForgesFooter` gives a stream without a footer that is accepted.
- A read of no bytes just before the end empties the previous chunk, and the footer check is skipped: an armor header
  alone is accepted (`EmptyReadSkipsFooter`).
- The empty-data validator reports only between chunks (`pkg/storage/io.go:96`), never at the end of the stream: an empty
  stream passes it if and only if its first read reports the end (`EmptyStreamPassesIff`). Empty uploads are still
  refused, by the header check (`ArmoredUploadsExact`).
- The window health check promises an alarm when a collection has no backup (`pkg/health/backupwindow.go:24-27`). The
  lookup of an empty collection yields a zero version and no error, so the collection is reported healthy whenever a
  window is open (`EmptyCollectionHealthyIff`, `EmptyCollectionReportedHealthy`).
- The search for the previous scheduled run gives up after 518401 minutes, so windows more than 360 days apart cannot be
  found at every instant (`SearchTotalIff`, `PeriodicSearchIff`, `YearlyScheduleFails`).
- After a failed registration the old versions are deleted all the same. In a collection that keeps a single version
  this empties the registry and version numbers start over, whenever anything can be uploaded to it at all
  (`NumberReused`, `NumbersAdvanceIff`).
- The attributes of the written file are used without looking at the error (`pkg/storage/io.go:36-37`), so a failure there
  panics: the lock is released, and the written file stays although no version owns it (`PanicStrandsBlob`).
- A clean-up that fails to delete a row may still delete its blob (`DeleteAgreesIff`). Such rows are not counted against
  the limits by any later plan; they are doomed again by every later upload and gone after the first whose deletes work
  (`LimitsHold`, `LeftoversAreDoomed`, `LeftoverBreaksLimits`, `AcceptedUploadSucceeds`).
- Arithmetic that overflows int64 can let uploads into a collection that is too small for its versions. It does so if and
  only if the limit it computes holds an armor header and has not itself wrapped below zero (`OverflowBreaksLimitsIff`).

## Model

| member | source | states |
|---|---|---|
| `Versions.HighestNumber` | pkg/storage/repository.go:13-20 | the largest version number among the rows, and 0 for an empty collection |
| `Versions.SumPermutation` | pkg/storage/repository.go:23-31 | no accounting sum depends on the order in which the database lists the rows |
| `Naming.DecimalInjective` | pkg/collections/model.go:184-186 | different version numbers are rendered differently |
| `Naming.DecimalSpells` | pkg/collections/model.go:184-186 | the rendering is the decimal one: digits without leading zeros that, read in base ten, give the number back |
| `Naming.FilenameReplacesMark` | pkg/collections/model.go:184-186 | the number takes the place of the template's first `${version}` and everything around it stays |
| `Naming.FilenameWithoutMark` | pkg/collections/model.go:184-186 | a template without the mark is the file name itself |
| `Naming.FilenameInjectiveIff` | pkg/collections/model.go:184-186 | a template names every version differently if and only if it contains `${version}` |
| `Naming.PathInjective` | pkg/storage/entity.go:23-25 | with slash-free collection ids a path determines collection and file name |
| `Naming.PathParts` | pkg/storage/entity.go:23-25 | a path is the id, one slash and the file name, each in full |
| `Naming.PathsCollideIff` | pkg/storage/entity.go:23-25 | two collections can share a path if and only if they are the same or one's id is a directory above the other's |
| `Rotation.SortKeeps` | pkg/storage/rotation.go:37-40 | the sort orders by version number and only permutes |
| `Rotation.SortStable` | pkg/storage/rotation.go:37-40 | rows with equal numbers keep their order |
| `Rotation.SortRecovers` | pkg/storage/rotation.go:37-40 | from any listing of rows with distinct numbers the sort recovers the one ascending order |
| `Rotation.InsertInPlace` | pkg/storage/rotation.go:37-40 | one pass of the in-place sort inserts the next element stably and leaves the rest of the slice alone |
| `Rotation.SortInPlace` | pkg/storage/rotation.go:37-40 | the caller's slice itself ends up sorted, as the sort function says |
| `Rotation.VersionsToDelete` | pkg/storage/rotation.go:29-47 | returns the planned prefix of the sorted slice and only permutes the slice |
| `Rotation.FifoRotation` | pkg/storage/rotation.go:29-47 | doomed and kept versions partition the existing ones, every doomed number is below every kept one, and with the new version the count is min(len + 1, MaxBackupsCount), even when starting above the limit |
| `Quota.AllocatedSpaceAboveLimit` | pkg/storage/service.go:145-171 | the int64 accumulator holds the exact sum of the non-excluded excess, wrapped to 64 bits, for all inputs |
| `Quota.MaximumAllowedUpload` | pkg/storage/service.go:105-143 | the limit or the corrupted-collection error, computed in int64 from whatever rows are listed; where the arithmetic is exact, the error if and only if there is extra space to speak of and more than that is used |
| `Quota.LimitExact` | pkg/storage/service.go:115-142 | in terms of the configured sizes: one version where they leave no extra space, whatever is used; otherwise the error if more is used than they leave, and else one version and what is left |
| `Quota.ExcessOfRetained` | pkg/storage/service.go:153-168 | excluding the doomed prefix by id leaves exactly the excess of the rows that stay, in any listing order |
| `Quota.QuotaTight` | pkg/storage/service.go:115-142 | a size is within the limit if and only if it fits beside what is kept, and the limit lies between MaxOneVersionSize and MaxCollectionSize |
| `Quota.NegativeExtraSpaceRefuses` | pkg/storage/service.go:136-140 | a configuration with negative extra space is always refused |
| `Quota.TotalWithinExcess` | pkg/collections/model.go:188-217 | total size is bounded by the count times the single-version limit plus the excess |
| `Quota.ExtraSpaceExactIff` | pkg/collections/model.go:190-217 | the int64 extra space is the true one if and only if the estimate exceeds the collection by at most 2^63, whether or not the product wraps |
| `Quota.CorruptionMissedIff` | pkg/storage/service.go:105-143 | the corrupted-collection error of a collection too small for its versions is missed if and only if the extra space wraps to a non-negative number, and never when the arithmetic is exact |
| `Quota.OverflowBreaksQuota` | pkg/collections/model.go:190-217 | a configuration that overflows and then admits more than the collection holds |
| `UploadRefused.RefusesIff` | pkg/storage/service.go:105-143 | for all int64 sizes, whatever overflows: the limit of an empty collection lets some upload in if and only if it holds an armor header and does not wrap below zero |
| `UploadRefused.ReachableEmpty` | pkg/storage/validation.go:100-111 | a collection whose limit lets nothing in stays empty in every run |
| `UploadRefused.OverflowBreaksLimitsIff` | pkg/collections/model.go:190-217 | a collection too small for its versions is brought beyond its limits by some run if and only if that limit lets something in |
| `Quota.ValidateVersionsSize` | pkg/health/size.go:14-32 | healthy if and only if no version is larger than the single-version limit, which is when the excess with nothing excluded is zero |
| `Quota.ValidateSumOfVersions` | pkg/health/sumofversions.go:14-29 | healthy if and only if the int64 sum of the sizes is within MaxCollectionSize; never when one version alone is larger and nothing wraps |
| `Quota.SizesAddUp` | pkg/health/sumofversions.go:14-29 | each further version adds its own size to the sum |
| `Stream.Chain.ProcessChunk` | pkg/storage/validation.go:32-39 | passes if and only if every middleware passes, and records the length in each non-empty middleware |
| `Stream.Chain.CheckFinalStatus` | pkg/storage/validation.go:41-48 | passes if and only if no non-empty middleware has recorded zero |
| `Stream.ReadInto` | pkg/storage/io.go:60 | a read replaces the front of every slice of the buffer, the previous chunk included |
| `Stream.CopyStream` | pkg/storage/io.go:46-101 | the loop over one reused buffer computes exactly the functional copy, in which the previous chunk is seen as the last read left it |
| `Stream.CopyIsFaithful` | pkg/storage/io.go:46-101 | for every splitting of the input and any middlewares, success writes exactly the input and returns its length, and any other outcome wrote a prefix of it |
| `Stream.DeliveredIsJoined` | pkg/storage/io.go:52-99 | what a stream delivers is the bytes of its reads up to its end, joined in order |
| `Stream.ArmorLines` | pkg/storage/validation.go:55-68 | header and footer are byte for byte the lines "-----BEGIN PGP MESSAGE" and "-----END PGP MESSAGE" |
| `Stream.CopyWithinQuota` | pkg/storage/validation.go:100-111 | under a quota nothing beyond the limit is written and the running total never exceeds it by more than one buffer |
| `Stream.StandardChainExact` | pkg/storage/service.go:181-186 | for every reader, writer and cancellation, the standard chain copies a stream if and only if it is undisturbed, starts with the header, fits the quota and shows the footer in what the shared buffer holds at the end |
| `Stream.ArmoredUploadsExact` | pkg/storage/validation.go:55-111 | for non-empty chunks and an empty final read: header in the first chunk, footer in the last, total within the quota; empty input is refused |
| `Stream.AdmitsIff` | pkg/storage/validation.go:100-111 | a limit admits some upload if and only if it is at least as long as an armor header |
| `Stream.CopiedIffFooterSeen` | pkg/storage/validation.go:61-68 | after the first read the acceptance of an undisturbed, armored, affordable stream hangs on the footer verdict over the shared buffer alone |
| `Stream.FooterTrustedIff` | pkg/storage/io.go:60-84 | for hunks of all lengths: the verdict agrees with the joined last two hunks for all contents if and only if the previous hunk is not empty and the final read carries no bytes or both are too short for a footer |
| `Stream.SharedBufferForgesFooter` | pkg/storage/io.go:84 | a stream the standard chain copies although there is no footer anywhere in it |
| `Stream.EmptyReadSkipsFooter` | pkg/storage/validation.go:61-62 | a header followed by an empty read is copied without a footer |
| `Stream.EmptyStreamPassesIff` | pkg/storage/io.go:96 | in any chain with the empty-data validator a stream without a byte is copied if and only if its first read reports the end and the other validators pass it |
| `Stream.EmptyStreamAccepted` | pkg/storage/validation.go:80-97 | the validator alone lets an empty stream through if and only if it ends with its first read |
| `LocksService.Locks.Lock` | pkg/concurrency/locking.go:17-55 | undisturbed, the lock is granted if and only if the id has no row or an expired one cleaned up by the call; other rows only expire |
| `StorageService.Service.CleanUpOlderVersions` | pkg/storage/service.go:69-99 | every listed version is attempted in turn, row and blob independently, and any failure is reported |
| `Handler.CleanedTable` | pkg/storage/service.go:69-99 | a clean-up removes exactly the rows whose deletion works |
| `Handler.CleanedBlobs` | pkg/storage/service.go:69-99 | and exactly the blobs whose deletion works, leaving the others as they are |
| `Handler.DeleteAgreesIff` | pkg/storage/service.go:85-99 | deleting a registered version keeps registry and store in agreement unless the row stays and the blob goes |
| `Handler.PlanOfListed` | pkg/http/collection.go:59-107 | from any listings of the rows the plan is the oldest ones and the limit exactly what the kept ones leave, or the error for negative extra space |
| `Handler.ReceivedIff` | pkg/http/collection.go:109-115 | the copy completes if and only if the stream is accepted within that limit, and then stores the delivered bytes |
| `Handler.EffectRows` | pkg/http/collection.go:59-135 | the exact rows after every outcome and every combination of failed deletes; other collections are untouched |
| `Handler.EffectSettled` | pkg/http/collection.go:131-135 | whatever the outcome, the collection is within its limits but for the rows that could not be deleted, and the next plan dooms those |
| `UploadProgress.LeftoverBreaksLimits` | pkg/storage/service.go:69-99 | a run that leaves a quiet collection of two with two rows beyond its extra space, a leftover beside a live version, which is why the limits are about the live versions |
| `Handler.RegisteredIsStored` | pkg/http/collection.go:109-135 | a registered upload is stored at its path with exactly the delivered bytes, and no clean-up removes them |
| `Handler.EffectBlobs` | pkg/http/collection.go:109-135 | the exact blobs after every outcome: the new path holds one if the upload is registered, or its size unread, or discarding it failed; any other is left alone unless it is a doomed version's and its deletion works; contents are kept |
| `StorageService.Service.Receive` | pkg/http/collection.go:109-129 | stores the delivered bytes if and only if they are accepted, not cancelled and their size can be read; otherwise a prefix was written and is deleted, or stays when the handler panics |
| `Handler.AfterCopyRows` | pkg/http/collection.go:131-135 | the rows after registration, cancellation, panic or lost registration, with any deletes of the clean-up failing; other collections are untouched |
| `StorageService.Service.Upload` | pkg/http/collection.go:59-135 | computes the specified effect on any registry and store; as a holder finds the collection, the exact condition of success, the exact rows and blobs, the limits in every outcome, other collections untouched |
| `UploadRefinement.HandlerRuns` | pkg/http/collection.go:51-135 | whatever the surroundings decide, the effect of the handler body is that of a run of the state machine, which strands no row or blob but those whose deletion fails or whose size is unread |
| `UploadRefinement.LockRuns` | pkg/concurrency/locking.go:17-55 | check, clean-up and insert of the state machine grant the lock exactly when the lock service does, and leave the same table |
| `UploadRefinement.OnlyUnlockReleases` | pkg/http/collection.go:57 | a request that has the lock keeps it through every step, failing ones included, until the deferred unlock |
| `UploadRefinement.HolderCanFinish` | pkg/http/collection.go:51-135 | whatever it is in the middle of, a request can finish and free its lock without any other request moving |
| `UploadSafety.MoveKeeps` | pkg/http/collection.go:51-135 | every step of a request, failing or not, keeps the global invariant |
| `UploadSafety.EnvironmentKeeps` | pkg/concurrency/locking.go:42-55 | so do clock ticks, arriving requests and the clean-up of expired locks |
| `UploadSafety.RunKeeps` | pkg/http/collection.go:51-135 | an admissible run from any state with the invariant ends in one |
| `UploadSafety.ReachableKeeps` | pkg/http/collection.go:51-135 | the invariant holds in every state of every admissible run |
| `UploadTheorems.MutualExclusion` | pkg/concurrency/locking.go:17-55 | at most one request holds a collection, and its unexpired row is in the table |
| `UploadTheorems.LocksApart` | pkg/collections/model.go:227-229 | different collections have different locks |
| `UploadTheorems.ExclusionBrokenIff` | pkg/concurrency/locking.go:17-55 | a second request gets in beside a holder if and only if the holder's lock has expired |
| `UploadTheorems.LimitsHold` | pkg/http/collection.go:51-135 | under every interleaving and every failure the live versions of a quiet collection are within its count, extra space and total size, and a busy one has at most one too many; the live versions are all of them unless a row could not be deleted |
| `UploadTheorems.LeftoversAreDoomed` | pkg/storage/rotation.go:29-47 | rows a clean-up failed to delete are doomed again by every later plan |
| `UploadTheorems.SumHealthy` | pkg/health/sumofversions.go:14-29 | the sum check's condition holds in every quiet state without leftover rows, without overflow |
| `UploadTheorems.RegistryAgreesWithStorage` | pkg/http/collection.go:109-135 | in every reachable state registered versions have paths of their own, and each live one is stored there with the content and size it was accepted with |
| `UploadConservation.StoreHoldsExactlyTheRegistry` | pkg/http/collection.go:109-135 | when no request is in progress the store holds exactly the blobs of the live versions, those whose deletion failed and those whose size could not be read |
| `UploadProgress.PanicStrandsBlob` | pkg/storage/io.go:36-37 | a run in which the size of a complete copy cannot be read and its blob stays although nothing is registered or in progress |
| `UploadConservation.EveryBlobAccounted` | pkg/storage/service.go:69-99 | in every reachable state each blob belongs to a live version, to a request that will register or delete it, to a failed deletion or to an upload whose size could not be read |
| `UploadTheorems.DiscardSparesRowsIff` | pkg/http/collection.go:110-115 | discarding an upload spares the registered blobs if and only if the template contains `${version}` |
| `UploadTheorems.SlidingWindow` | pkg/storage/service.go:28-54 | after k registrations and no lost one, the live numbers are the min(k, MaxBackupsCount) consecutive ones ending at k |
| `UploadTheorems.NumbersNeverReused` | pkg/storage/service.go:28-35 | a version about to be registered carries the number after the last registration, also after lost registrations if at least two versions are kept |
| `UploadTheorems.LostRegistrationKeepsNumberIff` | pkg/http/collection.go:131-135 | the clean-up after a lost registration leaves the next number unchanged if and only if the collection keeps two versions or has none |
| `UploadTheorems.PlanningIsExact` | pkg/storage/service.go:105-171 | in a reachable state no sum or difference of the planning leaves int64, the product wraps exactly from 2^63 on and the next step undoes it; the corrupted branch is taken if and only if the extra space is negative, and the limit is tight |
| `UploadTheorems.CopyNeverOverflows` | pkg/storage/io.go:65-83 | the running total of the following copy fits int64 when MaxCollectionSize + 1 MiB does |
| `UploadProgress.AcceptedUploadSucceeds` | pkg/http/collection.go:51-135 | after any admissible run a quiet collection whose lock is free or expired can register every stream that fits beside what the plan keeps; it is then stored as the newest version, leftovers are gone, no blob is stranded, all versions are within the limits, and the collection is quiet and free again |
| `UploadProgress.RegularIsAccepted` | pkg/storage/service.go:105-143 | with non-negative extra space every armored upload up to MaxOneVersionSize fits, in every reachable state |
| `UploadProgress.NumberReused` | pkg/http/collection.go:131-135 | a run in which a collection that keeps one version gives out a number that was registered before |
| `UploadProgress.NumbersAdvanceIff` | pkg/storage/service.go:28-54 | a version about to be registered carries the number after the last registration in every run if and only if the collection keeps at least two versions, or is smaller than its one version or than an armor header so that nothing gets in |
| `BackupWindow.PreviousScheduledRun` | pkg/collections/model.go:82-112 | the backward walk ends and finds the latest run before the reference run if it is later than 518401 minutes ago, and otherwise fails |
| `BackupWindow.FindsUnique` | pkg/collections/model.go:82-112 | there is only one right answer, so success and failure exclude each other |
| `BackupWindow.SearchTotalIff` | pkg/collections/model.go:94-109 | the search succeeds at every instant if and only if every run has one at most 518400 minutes before it |
| `BackupWindow.CloseRunsAreFound` | pkg/collections/model.go:94-109 | a schedule whose runs are at most 360 days apart can be searched at every instant |
| `BackupWindow.PeriodicSearchIff` | pkg/collections/model.go:94-109 | a schedule with a run every so many minutes can be searched at every instant if and only if they are at most 360 days |
| `BackupWindow.YearlyScheduleFails` | pkg/collections/model.go:105-108 | a yearly schedule cannot be searched at every instant |
| `BackupWindow.OpenByPredecessor` | pkg/collections/model.go:70-80 | checking the one predecessor agrees with the existence of any open window, overlapping ones included |
| `BackupWindow.IsInWindowNow` | pkg/collections/model.go:70-80 | true if and only if some run within the horizon is at least a second old and its window has not ended |
| `BackupWindow.IsInPreviousWindowTimeSlot` | pkg/collections/model.go:114-122 | true if and only if the creation time lies inside the window of the previous run |
| `BackupWindow.IsUploadAllowed` | pkg/collections/service.go:18-37 | allowed if and only if there are no windows or one of them is open |
| `BackupWindow.OpenIff` | pkg/collections/model.go:70-112 | for windows no longer than the search horizon the answer is the plain existential one at every instant |
| `BackupWindow.LatestCreated` | pkg/storage/service.go:201-207 | the creation time of the version with the highest number, and the zero time for an empty collection |
| `BackupWindow.LatestIsHighest` | pkg/storage/service.go:201-207 | wherever it is listed, the backup whose number is above all others is the latest |
| `BackupWindow.LatestOfListing` | pkg/storage/repository.go:13-20 | the order in which distinctly numbered backups are listed does not matter |
| `BackupWindow.ValidateBackupWindow` | pkg/health/backupwindow.go:18-51 | green without windows, red when the lookup fails, and otherwise decided by the windows for the backup with the highest number |
| `BackupWindow.HealthyByWindow` | pkg/health/backupwindow.go:32-48 | window by window: a failing search decides for red, a match for green, anything else leaves it to the windows behind |
| `BackupWindow.EmptyCollectionHealthyIff` | pkg/health/backupwindow.go:24-46 | for any clock from year 2 on, an empty collection is reported healthy if and only if a window is open and no search before it fails |
| `BackupWindow.EmptyCollectionReportedHealthy` | pkg/health/backupwindow.go:24-27 | an instant at which the check of an empty collection is green |
| `BackupWindow.HealthyIff` | pkg/health/backupwindow.go:32-48 | when no search fails, any matching window makes the check green, whatever its place |
| `BackupWindow.HealthGreen` | pkg/health/backupwindow.go:18-51 | a backup made in the window of one run keeps the check green until the next run's window ends |
| `BackupWindow.HealthRed` | pkg/health/backupwindow.go:18-51 | with no newer backup the check is red from then until the run after that is a second old |
| `Roles.ExpandRoles` | pkg/security/decision.go:74-93 | for every acyclic table the expansion ends and yields exactly the roles reachable from the list |
| `Roles.ChildShrinks` | pkg/security/decision.go:84-88 | acyclicity alone makes the set of roles below strictly smaller at each recursive call |
| `Decision.InheritanceAcyclic` | pkg/security/constants.go:25-30 | the configured inheritance has no cycle |
| `Decision.ExpandActions` | pkg/security/decision.go:95-104 | exactly the actions some listed role grants |
| `Decision.CanRolesPerform` | pkg/security/decision.go:69-72 | permitted if and only if some listed role reaches a role granting the action |
| `Decision.PermitsBySet` | pkg/security/decision.go:70-93 | order and repetition in a list of roles do not matter |
| `Decision.PermitsUnion` | pkg/security/decision.go:69-104 | a list of roles permits exactly what some role in it permits |
| `Decision.RolePermitsExactly` | pkg/security/constants.go:25-39 | exactly which actions each configured role permits, inherited ones included, and that any other role permits none |
| `Decision.IsPermitted` | pkg/security/model.go:57-65 | permitted if and only if some entry for the actor permits the action |
| `Decision.AccessKeyRoles` | pkg/users/model.go:105-114 | permits exactly what the first entry about the subject permits, and nothing without one |
| `Decision.ScopeVerdict` | pkg/security/decision.go:43-58 | the verdict is that of the last element about the subject |
| `Decision.DecideCanDo` | pkg/security/decision.go:28-67 | the decision equals the conjunction of ACL or global roles, access key and session scope |
| `Decision.GlobalDecision` | pkg/security/decision.go:29-33 | a decision about no subject is one about the actor's own roles |
| `Decision.PlainDecision` | pkg/security/decision.go:60-66 | without key and scope an ACL entry alone suffices, a global role alone suffices, and nothing else does |
| `Decision.KeyLayer` | pkg/security/decision.go:35-41 | with a key: what is allowed without it and permitted by the key's first entry about the subject |
| `Decision.KeyWithoutEntry` | pkg/security/decision.go:35-41 | a key that says nothing about the subject refuses everything |
| `Decision.ScopeLayer` | pkg/security/decision.go:43-58 | with a scope: what is allowed without it and permitted by the scope's last element about the subject |
| `Decision.ScopeWithoutElement` | pkg/security/decision.go:43-58 | a scope that says nothing about the subject refuses everything, and an empty one is no scope |
| `Decision.LimitationsOnlyLimit` | pkg/security/decision.go:35-58 | an access key or a scope never grants what the plain account is refused |
| `Decision.ScopeOrderIff` | pkg/security/decision.go:47-51 | the order of a scope is irrelevant if and only if its elements about the subject agree |
| `Decision.AnytimeImpliesUpload` | pkg/security/constants.go:32-39 | whoever may upload at any time may upload, through every layer of the decision |
| `Decision.SystemAdminPermitted` | pkg/security/constants.go:25-39 | a system administrator's roles permit every action |
| `Decision.UploadGate` | pkg/http/collection.go:31-49 | passes if and only if uploading at any time is allowed, or uploading is and a window is open |

## Left out

- HTTP routing, responses, rate limiting, JWT handling, granted-access records and the download, listing and login routes.
- Password hashing, base64, JSON extraction, and the Kubernetes and filesystem configuration providers: collections and users are given values.
- Parsing of sizes, durations and cron expressions: sizes and durations are integers, a schedule is its `Next` function. A schedule that never fires again is not modelled.
- Time zones, daylight saving and the two-digit years of the RFC822 comparison: runs are compared as UTC minutes.
- Logging, error messages, the storage read/write check and the database health check.
- Auditing columns of a version, except its creation time in the window health check, and the soft deletion of rows: a deleted row is gone.
- The timeout middleware's answer to the client: a handler that goes on after it is a holder that may outlive its lock.
- Readers that scribble on the buffer beyond the bytes they return.
- UploadProtocol.Step: the handler's steps are a state machine over values, because requests interleave; as in-place updates the operations are the methods of `StorageService.Service` and `LocksService.Locks`, tied to the machine by `UploadRefinement`.
