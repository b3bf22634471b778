# Verified model of the Substra backend

This project models the parts of the backend whose correctness is spread over several functions, processes or
machines, and proves what they promise. `dafny verify dfyconfig.toml` checks the whole project (Dafny 4.11).

## What is modelled

**The event-sourced read model** (`Rows`, `ComputePlans`, `TaskLinks`, `EventSync`, `Handlers`, `StreamInvariants`,
`TaskHistory`, `RowHistory`, `References`, `Reactor`, `Interleavings`). The orchestrator sends a stream of events;
handlers turn it into rows. `Handlers.Database` holds the tables as fields and its methods work as the handlers do:
fetch a row, assign its fields, save it, inside one transaction. Each method is proved against `EventSync.Apply`, the
same step on values, over which the stream theorems are proved by induction. The stream hypotheses are one predicate,
`StreamInvariants.WellFormed`: an event comes after what it refers to, tasks start in a non-terminal status, terminal
statuses are absorbing, a task stays in its plan, an output has one asset, cancelations are not withdrawn, and
timestamps do not decrease. Two inputs of a handler that the database does not determine are explicit in
`EventSync.Delivery`: the clock it reads, and the row the database returns among equally early failed tasks.

**The two-level file lock** (`LockLocal`, `LockProgress`, `LockPaths`). Any number of calls interleave their atomic
file steps: exclusive creation, writing the id, stat, open, read, remove, taking and dropping the secondary lock,
time-outs and the passing of time. Creation is outside the secondary lock and creation and write are separate steps.
Age is measured from creation.

**Image transfer** (`ImageNames`, `Encoder`, `Decoder`, `Packing`, `Replay`, `RoundTrip`, `Placement`,
`IncrementalTransfer`). Images are packed from a source registry into an archive, leaving out blobs that the
destination has, and replayed by pushes and cross-repository mounts; then a second payload is replayed on top of a
first. The registry follows the OCI Distribution Specification v1.1, sections "Pushing Blobs", "Mounting a blob from
another repository" and "Pushing Manifests". A digest stands for its content.

**Worker allocation** (`TaskRouting`, `RoutingInterleavings`). Each compute plan gets the least loaded worker, first
with whole transactions, then query by query between processes under the partial unique constraint.

**The asset buffer** (`AssetBuffer`, `ChunkedDownloads`, `BufferRuns`). A cache filled by parallel download processes
that can fail or be killed, with a roll-back of the whole batch, deletions, clears and models computed locally.

Every imperative method is proved against a function on values named in its `ensures`; the theorems are about these
functions. Exceptions are `Result`, `Option<Error>` or `bool` results, never preconditions.

## Where the code does not do what one would expect

- The docstring at `backend/api/events/sync.py:490-491` calls the synchronisation idempotent. It is so for every
  modelled event but the creation of an output asset (`Reactor.ReplayExact`, `Reactor.OutputAssetReplayFails`).
- A crash between applying an output asset and saving its position is never made good
  (`Reactor.OutputAssetReplayFails`, `Reactor.UnsafeCrashNeverRecovers`); every other crash is
  (`Reactor.CrashResume`).
- The clean-up at `backend/substrapp/lock_local.py:144-152` removes the secondary lock file even after a time-out,
  when another process owns it. Mutual exclusion survives that exactly when no call has a TTL
  (`LockLocal.ExclusionSurvivesTimeOutsExactly`, `LockLocal.TimeOutBreaksExclusion`).
- Two images whose names differ by a slash against an underscore share an archive path, and two images with a common
  tag share a target under the repository override (`RoundTrip.IntactWithoutOverride`,
  `RoundTrip.IntactWithDistinctPaths` say exactly when that matters).
- Digests that are left out are located by the repositories of the source (`backend/image_transfer/encoder.py:45-51`)
  and mounted from there (`backend/image_transfer/decoder.py:89-93`). A second payload replayed under the override of
  the first therefore raises, unless every digest to mount is in the repository of the override or was in the
  destination before (`IncrementalTransfer.UnderOverride`, `IncrementalTransfer.SharedDigestUnderOverride`).
- Outside strict mode an absent image is only warned about, but mounting a digest it shares with a new image still
  raises (`IncrementalTransfer.AbsentImageStillNeeded`; `RoundTrip.StrictExactly` is the exact condition).
- After a scale-down a fresh plan may be sent to a worker that no longer exists (`TaskRouting.ChoiceExistsExactly`).
- Overlapping releases rewrite a release date (`RoutingInterleavings.HistoryStepExact`).
- An acquire or a release that changes the table between the count and the insertion of another process can break the
  load bound (`RoutingInterleavings.InterleavedCountsCollide`, `RoutingInterleavings.ReleaseBeforeInsertion`); without
  such changes it holds (`RoutingInterleavings.InterleavedLoadBound`).
- A data sample with a wrong checksum removes the folder of all data samples (`BufferRuns.SamplesLostExactly`), and a
  partial file that outlives its worker is taken for the model (`BufferRuns.LeftoverTaken`).
- An empty plan whose cancelation is withdrawn keeps its end date (`TaskHistory.WithdrawnCancelation`).

## Model

| member | source | states |
|---|---|---|
| ComputePlans.StatsPartition | backend/api/models/computeplan.py:77-94 | the eight status counts of a plan always add up to its number of tasks |
| ComputePlans.StatusFromStatsCorrect | backend/api/models/computeplan.py:96-124 | the counting cascade yields a status exactly when that status is the one defined from scratch by "some task is canceled / all waiting for the builder / all done / some failed": the two definitions agree and the status is unique |
| ComputePlans.FirstFailed | backend/api/models/computeplan.py:61-75 | the chosen row is a FAILED task none of the others ended before, and any such row is a possible answer of the database |
| ComputePlans.RefreshIdempotent | backend/api/models/computeplan.py:96-147 | recomputing end date and status a second time, at any later clock reading and whichever of several equally early failures the database returns, changes nothing |
| ComputePlans.RefreshEndDateExact | backend/api/models/computeplan.py:126-147 | the two separate functions leave an end date that agrees with the status (present exactly for DONE, FAILED, CANCELED; the latest task end, or the cancelation date) if and only if the plan is not an empty one that still carries the end date of a withdrawn cancelation |
| ComputePlans.RefreshMatches | backend/api/models/computeplan.py:96-147 | a refresh establishes the whole plan invariant (status, start date, end date, first failure) and never moves a start date or first failure that is set |
| TaskLinks.InsertTaskKeepsJoin | backend/api/serializers/computetask.py:190-239 | eager path: creating a compute task keeps every input of the database resolved exactly as its row asks |
| TaskLinks.InsertOutputAssetSucceeds | backend/api/events/sync.py:261-288 | lazy path: with the join intact, linking the inputs of a new output asset never meets the one-to-one constraint |
| TaskLinks.InsertOutputAssetKeepsJoin | backend/api/events/sync.py:261-288 | lazy path: receiving the first asset of an output keeps every input resolved exactly as its row asks |
| TaskLinks.ResolveAfterOutput | backend/api/serializers/computetask.py:209-229 | the eager path finds, for an input that names the output, the received key under the declared kind, and for every other input what it would have found before |
| TaskLinks.PathsCommute | backend/api/serializers/computetask.py:190-239 | creating a child and receiving the asset of its parent output can be done in either order, and leave the same four tables if and only if every new input that names the output declares the kind of the asset |
| Handlers.Database.AddFailedTask | backend/api/models/computeplan.py:61-75 | in place: sets the failed task to the row the query returns, unless one is set |
| Handlers.Database.UpdateStatus | backend/api/models/computeplan.py:96-124 | in place: the plan row becomes the specified one and no other plan changes |
| Handlers.Database.UpdateEndDate | backend/api/models/computeplan.py:126-147 | in place: the plan row gets the specified end date and no other plan changes |
| Handlers.Database.OnCreateComputeplanEvent | backend/api/events/sync.py:123-140 | in place: a plan is created once, a second creation is absorbed |
| Handlers.Database.OnUpdateComputeplanEvent | backend/api/events/sync.py:143-159 | in place: name, cancelation date, then end date and status; raises for an unknown plan |
| Handlers.Database.CreateComputetask | backend/api/events/sync.py:174-193 | in place: the task and its input, output and input-asset rows, or the exception of the first failing check or row; an existing task is left alone |
| Handlers.Database.InsertInputs | backend/api/serializers/computetask.py:203-231 | in place: the loop inserts every input row at its position with the asset known so far, or stops at the first exception |
| Handlers.Database.OnCreateComputetaskEvent | backend/api/events/sync.py:162-171 | in place: creation, then the plan brought up to date |
| Handlers.Database.UpdateComputetask | backend/api/events/sync.py:212-233 | in place: status always written, each date only when unset |
| Handlers.Database.OnUpdateComputetaskEvent | backend/api/events/sync.py:196-209 | in place: the task row, then its plan brought up to date; raises for an unknown task or plan |
| Handlers.Database.CreateComputetaskOutputAsset | backend/api/events/sync.py:261-288 | in place: the asset row, then one input asset per matching input, or the integrity error of the first input that has one |
| Handlers.Database.OnCreateFailureReportEvent | backend/api/events/sync.py:401-434 | in place: the report is created once and the failure fields of the task, or of every task of the function, are overwritten |
| Handlers.Database.OnOtherEvent | backend/api/events/sync.py:89-120 | in place: function, model and ignored events do to the database what the specification says |
| Handlers.Database.Callback | backend/api/events/sync.py:445-504 | in place: every event reaches its handler, and the tables are the specified ones when it returns normally |
| Handlers.Database.SyncOnEventMessage | backend/api/events/sync.py:488-504 | one transaction: the database becomes the specified one, or an exception leaves it exactly as it was |
| StreamInvariants.FirstFailureStays | backend/api/models/computeplan.py:61-75 | with non-decreasing timestamps and absorbing terminal statuses, no later update of any task makes another failure earlier than the recorded one |
| StreamInvariants.TaskWriteSound | backend/api/events/sync.py:196-209 | writing one task row and refreshing its plan repairs that plan and disturbs no other, and moves no start date or first failure |
| StreamInvariants.LinksCarryOver | backend/api/events/sync.py:401-434 | events that touch neither links nor declared kinds keep the join and the kinds of resolved assets |
| StreamInvariants.WellFormedEventSound | backend/api/events/sync.py:488-504 | every well-formed event is applied without exception and keeps the whole invariant: plans, task dates, join and kinds |
| StreamInvariants.WellFormedStreamSound | backend/api/events/sync.py:488-504 | so does every well-formed stream of any length; plan start dates, first failures and task dates once set are kept |
| TaskHistory.DatesAreFirstUpdates | backend/api/events/dynamic_fields.py:6-21 | over any stream whatever, the start date of a compute task is the timestamp of its first EXECUTING update and its end date that of its first terminal update |
| TaskHistory.TaskDatesAfterStream | backend/api/events/sync.py:212-233 | after any well-formed stream a task has an end date exactly when its status is terminal, did not end before it started, and has the dates of its first updates |
| TaskHistory.PlansAfterStream | backend/api/models/computeplan.py:96-147 | after any well-formed stream the stored status is the from-scratch one, a started plan has a start date, the end date is there exactly for ended plans and is the latest task end when DONE or FAILED, and a FAILED plan names a FAILED task with the smallest end date |
| TaskHistory.JoinAfterStream | backend/api/serializers/computetask.py:190-239 | after any well-formed stream a direct input is resolved to its own key, an input naming a parent output is resolved exactly when that output has its (single) asset, to the same key, and to the same kind when the declared kind agrees |
| TaskHistory.FirstsStay | backend/api/models/computeplan.py:118-122 | between any two moments of a well-formed stream start dates, first failures and task dates only appear, they never change |
| TaskHistory.NewTaskRestartsDonePlan | backend/api/models/computeplan.py:126-147 | one more task on a DONE plan makes it DOING with no end date and the same start date |
| TaskHistory.WithdrawnCancelation | backend/api/models/computeplan.py:126-147 | when a cancelation is withdrawn, end date and status agree if and only if the plan has tasks |
| RowHistory.TasksEndAsLastUpdated | backend/api/events/sync.py:196-233 | over any stream whatever, a task is there exactly when an event created it, its plan, function and channel are those of its first creation, and its status is that of the last update event for it, or else of that creation |
| RowHistory.PlansEndAsLastUpdated | backend/api/events/sync.py:123-159 | over any stream, a plan is there exactly when an event created it; its name and cancelation date are those of the last update event for it, or else the name of its first creation and none |
| RowHistory.CanceledByTheLastUpdate | backend/api/events/sync.py:143-159 | over any stream, a plan whose last update carries a cancelation date is CANCELED with exactly that end date |
| RowHistory.PlansStartWhenFirstPastCreated | backend/api/models/computeplan.py:118-122 | over any stream, the start date of a plan is the clock read for the first event that left it past CREATED, and there is none before |
| RowHistory.FunctionsEndAsLastUpdated | backend/api/events/sync.py:74-120 | over any stream, a function has the input kinds of its first creation, and the name, status and image of the last update that gave one that is not empty, or else of that creation |
| RowHistory.ModelsStayDisabled | backend/api/events/sync.py:372-398 | over any stream, a model belongs to the task of its first registration, and has that address until the first disabling and none from then on |
| RowHistory.AssetsAreThoseSent | backend/api/events/sync.py:261-288 | over any stream, the assets of an output are those sent for it, in the order of the stream |
| References.RefusedExactly | backend/api/events/sync.py:445-504 | whatever the database, an event raises if and only if a row it mentions is missing, an input of a new task cannot be resolved, an input naming the output has its asset already or the channel differs, or a report lacks logs or owner |
| References.RefusedWith | backend/api/events/sync.py:445-504 | which exception that is: the integrity error exactly for an output asset whose output is there in its channel, invalid data exactly for models of unknown tasks and incomplete reports, a missing row otherwise |
| References.NothingDangles | backend/api/events/sync.py:174-193 | after any stream whatever, well-formed or not, no row refers to a missing one: tasks to plan and function, models to tasks, inputs to the outputs they name, assets to inputs and outputs |
| Reactor.ReplayExact | backend/api/events/sync.py:488-504 | a second delivery of an applied event changes nothing and raises nothing if and only if the event is not the creation of an output asset, for every database, clock reading and query answer |
| Reactor.ReplayOutputAsset | backend/api/events/sync.py:261-288 | a second delivery of an output asset raises the integrity error exactly when some input names the output, otherwise inserts a duplicate row; it never leaves the database as it was |
| Reactor.ReplayCreateTask | backend/api/events/sync.py:162-193 | delivering a task creation twice is delivering it once |
| Reactor.ReplayFailureReport | backend/api/events/sync.py:401-434 | delivering a failure report twice is delivering it once |
| Reactor.CrashResume | backend/api/events/reactor.py:28-45 | for every stream and every schedule of deliveries, saves and crashes in which no crash falls between applying an output asset and saving its position, the database is that of one uninterrupted pass over the saved events and possibly the next one |
| Reactor.CrashResumeComplete | backend/api/events/reactor.py:28-45 | once all positions are saved, under the same schedules, the database equals that of one uninterrupted pass over the whole stream |
| Reactor.UnsafeCrashNeverRecovers | backend/api/events/reactor.py:28-45 | conversely, when the output has one asset in the stream, after one crash between applying the asset and saving its position, whatever follows: either nothing has moved since, or the database is that of no uninterrupted pass over any part of the stream |
| Reactor.ChannelConsumer.ConsumeChannel | backend/api/events/reactor.py:28-45 | the apply-then-save loop, in a process that may die anywhere, is a schedule of the step system; it gets exactly as far as its life allows, and raises only if the event at its position does |
| Reactor.OutputAssetReplayFails | backend/api/events/sync.py:273-288 | concrete failures: one crash after an output asset leaves a duplicate row that no uninterrupted pass leaves, or a consumer whose saved position never moves again |
| Interleavings.StepFacts | backend/api/events/sync.py:488-504 | a row of the link tables is there after an event if and only if it was there before or the event brings it |
| Interleavings.FactsComeFromEvents | backend/api/events/sync.py:488-504 | every new row of the final tables was brought by some event of the stream |
| Interleavings.EventsGiveFacts | backend/api/events/sync.py:488-504 | every row that some event of the stream brings is in the final tables |
| Interleavings.OrderIndependence | backend/api/events/sync.py:268-288 | two well-formed streams of the same events, in any two orders and with any repetitions, leave the same inputs, outputs, output assets and resolved input assets when declared kinds agree |
| TaskHistory.ReportsAreFirst | backend/api/events/sync.py:401-434 | after any stream whatever, the report stored for an asset is that of the first failure report event for it that is not an internal error, and there is none exactly when there was no such event |
| TaskHistory.ErrorsAreLast | backend/api/events/sync.py:401-434 | after any stream whatever, the error a task carries is that of the last failure report about it, or about its function, since its creation, internal errors included |
| TaskHistory.FailureReportWritten | backend/api/events/sync.py:401-434 | exactly the task, or the tasks of the function, that the report is about carry its error; logs and owner only when it has them |
| LockLocal.StepSound | backend/substrapp/lock_local.py:63-152 | every file-system step of every caller except a secondary time-out keeps the invariant on files, holders and the secondary lock |
| LockLocal.MutualExclusion | backend/substrapp/lock_local.py:19-60 | in every interleaving of any number of callers in which no secondary acquisition times out, two callers inside the guarded block and both within every TTL of creating their lock file are the same caller |
| LockLocal.MutualExclusionWithoutTtl | backend/substrapp/lock_local.py:19-60 | when no call has a TTL at most one caller is inside at all, in every interleaving, secondary time-outs included |
| LockLocal.OnlyTheRightFileIsRemoved | backend/substrapp/lock_local.py:88-129 | a step that takes the lock file away is a release by the caller that created it, or an expiry of the very file whose age was read, created more than its TTL ago |
| LockLocal.RemovalsFindTheirFile | backend/substrapp/lock_local.py:88-129 | an expiry that decided to remove still finds the file it judged, and a release that recognised its id finds its own file |
| LockLocal.NoFileLeftBehind | backend/substrapp/lock_local.py:111-129 | the lock file on disk never belongs to a caller that has finished |
| LockLocal.AloneInAndOut | backend/substrapp/lock_local.py:19-60 | with nobody else moving a caller gets in with a file of its own, and after leaving no file remains |
| LockLocal.ExpiredExactly | backend/substrapp/lock_local.py:63-108 | with nobody else moving a caller with a TTL gets past a lock file if and only if that was last modified longer ago than the TTL |
| LockLocal.TimeOutBreaksExclusion | backend/substrapp/lock_local.py:132-152 | for any TTL of one of any four callers, a run with a single secondary time-out, whose clean-up removes another caller's secondary file, ends with two of them inside at the instant both created their files |
| LockLocal.ExclusionSurvivesTimeOutsExactly | backend/substrapp/lock_local.py:132-152 | with secondary time-outs allowed, every interleaving keeps holders of files created at that instant exclusive if and only if no call has a TTL |
| LockProgress.OnlyStoppingGivesUp | backend/substrapp/lock_local.py:43-60 | in every interleaving, a caller ends without the lock only if it stopped waiting itself, for the lock file or for the secondary lock: no lock file it meets and nothing others do makes it |
| LockProgress.GivesUpExactly | backend/substrapp/lock_local.py:43-60 | the same step by step, as an equivalence |
| LockProgress.WaitsThenEnters | backend/substrapp/lock_local.py:47-53 | whatever the others do, a caller without TTL is still trying if and only if each of its tries met a lock file, and then the next try after the file has gone puts it inside, however often it was refused |
| LockProgress.HandedOver | backend/substrapp/lock_local.py:47-60 | a caller refused any number of times by a holder gets in as soon as the holder has released |
| LockProgress.ReleasesExactly | backend/substrapp/lock_local.py:111-129 | a caller that leaves with the secondary lock free is done after its six steps, and the lock file is gone if and only if it held the caller's own id |
| LockProgress.ExpiresExactly | backend/substrapp/lock_local.py:88-108 | a caller with a TTL that holds the secondary lock is trying again after its five steps, and the lock file is gone if and only if it is older than the TTL |
| LockProgress.FilesChangeExactly | backend/substrapp/lock_local.py:63-85 | a step changes a file only by the write of the caller that created it, which puts its id and the time; files are created only by a try that found no lock file |
| LockPaths.PathsPair | backend/substrapp/lock_local.py:177-200 | no lock file is a secondary lock file, and two resources share a lock file if and only if they share the secondary one |
| LockPaths.SlugStaysInFolder | backend/substrapp/lock_local.py:195-200 | no resource name leads outside the lock folder |
| LockPaths.PlainSlug | backend/substrapp/lock_local.py:177-200 | a resource name of kept characters that does not end in a space is found unchanged in the names of its two files |
| LockPaths.DroppedCharacters | backend/substrapp/lock_local.py:195-200 | a character that is not kept and a space at the end make no difference to the file |
| ImageNames.GetRepoAndTag | backend/image_transfer/common.py:138-139 | succeeds exactly for names with a colon, and splits at the first one |
| Encoder.ClosedSourceHas | backend/image_transfer/common.py:74-86 | a registry whose manifests have their blobs has every blob the packing will ask it for |
| ImageNames.RepoAndTagOf | backend/image_transfer/common.py:138-139 | inverse of the split: repository and tag come back from the name built of them |
| ImageNames.NormalizeName | backend/image_transfer/common.py:122-123 | same length, slashes replaced by underscores, every other character kept |
| ImageNames.SameManifestPath | backend/image_transfer/common.py:102-114 | two images share an archive path if and only if their normalised names are equal |
| ImageNames.PathsApart | backend/image_transfer/encoder.py:117-137 | manifest, blob and descriptor paths never collide and blob paths are injective |
| Encoder.MakeDescriptor | backend/image_transfer/common.py:101-114 | the loop builds one entry per distinct image, in order of first occurrence, with no path exactly for images already transferred |
| Encoder.NotTransferredYet | backend/image_transfer/common.py:116-119 | exactly the listed images that are not already transferred |
| Encoder.GetManifestsAndListOfAllBlobs | backend/image_transfer/encoder.py:98-114 | the loop fetches every manifest in order and collects all their blobs, or returns the first exception |
| Encoder.GetManifests | backend/image_transfer/encoder.py:98-114 | every manifest is the registry's for its name; an exception means some name cannot be fetched |
| Packing.FetchedExactly | backend/image_transfer/encoder.py:89-114 | fetching returns normally if and only if the registry has one single manifest for every name |
| Encoder.GetBlobWithSameDigest | backend/image_transfer/encoder.py:83-86 | finds a listed blob with the digest exactly when there is one |
| Encoder.ZipFile.AddBlobsToZip | backend/image_transfer/encoder.py:29-58 | in place: the loop appends exactly the members of the specification, in order, and returns the locations |
| Encoder.ZipFile.CreateZipFromDockerImages | backend/image_transfer/encoder.py:117-137 | in place: the archive written is the specified one, or the exception of the first image or blob that cannot be read |
| Encoder.PayloadCompleteAndMinimal | backend/image_transfer/encoder.py:29-58 | every digest to transfer has a location; it is stored in the archive, once, if and only if no already-transferred image has it, and otherwise located in the repository of one that has |
| Encoder.FirstBlobListed | backend/image_transfer/encoder.py:83-86 | the first blob with a digest over a list of images belongs to the first image that lists the digest |
| Encoder.FetchedBlobs | backend/image_transfer/encoder.py:98-114 | the blobs to pull are exactly the configuration and layers of the fetched images, each in its image's repository |
| Encoder.EncodeSucceeds | backend/image_transfer/encoder.py:117-137 | from a source whose manifests have all their blobs, packing succeeds if and only if every named image can be fetched |
| Packing.PackedExactly | backend/image_transfer/encoder.py:29-58 | for every source, complete or not: packing returns normally if and only if there is one manifest for every image named and, of each digest that no image left out lists, the blob of the first image that lists it |
| Decoder.DestinationRegistry.PushAllBlobsFromManifest | backend/image_transfer/decoder.py:70-93 | in place: the loop pushes or mounts blob after blob as specified and stops at the first exception |
| Decoder.DestinationRegistry.LoadSingleImageFromZip | backend/image_transfer/decoder.py:96-108 | in place: all blobs, then the manifest; nothing after an exception |
| Decoder.DestinationRegistry.LoadZipImagesInRegistry | backend/image_transfer/decoder.py:137-160 | in place: the writes to the destination, the images yielded and the exception are those of the specification |
| Decoder.ClosedAtEveryStep | backend/image_transfer/decoder.py:70-108 | whatever the archive, the override and the outcome: if every manifest of the destination has its blobs in its own repository at the start, this holds after each single push, mount and manifest |
| Decoder.NothingUnfounded | backend/image_transfer/decoder.py:70-108 | whatever the archive, even one no encoder wrote, and wherever the replay stops: a blob is pushed only if the archive holds it, mounted only from where the destination has it by then, and a manifest put only if the archive holds it and all its blobs are there |
| Decoder.LoadedInOrder | backend/image_transfer/decoder.py:70-108 | an image that is loaded gets its configuration, then its layers in order, then its manifest |
| Replay.ZipReads | backend/image_transfer/encoder.py:117-137 | reading the archive back gives the descriptor, every stored blob, and for each image the manifest last written under its path |
| Replay.DigestPlaced | backend/image_transfer/decoder.py:76-93 | every digest the decoder looks up is in the descriptor; it is to be mounted exactly when an image left out lists it, from a repository where the source has it, and is in the archive otherwise |
| Replay.PushOneExactly | backend/image_transfer/decoder.py:76-93 | at any moment of a replay, one push or mount raises if and only if the digest is to be mounted from a place where the initial destination does not have it |
| Replay.ReplayExactly | backend/image_transfer/decoder.py:137-160 | for every payload and every destination: replaying returns normally if and only if the check of every image left out passes and every digest to mount is in the initial destination where it is said to be; a payload that gets past its checks can raise in no other way than at a mount; a normal return yields every image in order and leaves the registry of the reference definition |
| RoundTrip.StrictExactly | backend/image_transfer/decoder.py:111-134 | without override, for every destination: replaying returns normally if and only if every digest to mount is there and no image left out is blocked, or absent in strict mode |
| Replay.PlacedExact | backend/image_transfer/decoder.py:96-108 | in the reference definition each target holds the last manifest put there, every other image is untouched, and the blobs are the old ones plus exactly the needed ones |
| RoundTrip.RoundTrip | backend/image_transfer/decoder.py:137-160 | packing then replaying, for every source, image list, already-transferred list, override and destination: it returns normally exactly when the checks pass and the mounts find their blobs, and then every new target holds its origin's manifest with all its blobs in its repository, all other images and blobs unchanged |
| RoundTrip.DigestLocated | backend/image_transfer/encoder.py:45-51 | a digest is to be mounted if and only if some image already transferred lists it, and then from the source's repository of the first such image |
| RoundTrip.TransferredSuffices | backend/image_transfer/decoder.py:89-93 | a destination that has the blobs of the images left out in their own repositories has every digest to mount |
| RoundTrip.IntactExactly | backend/image_transfer/decoder.py:145-159 | whenever packing and replaying return normally, every new image arrives with the source's own manifest if and only if each has the manifest of its origin, the image last packed under the path last read for its target |
| RoundTrip.IntactWithoutOverride | backend/image_transfer/common.py:122-123 | without override, whenever the transfer returns normally: if and only if images whose names differ only by slash against underscore have equal manifests |
| RoundTrip.IntactWithDistinctPaths | backend/image_transfer/decoder.py:145-148 | with distinct archive paths, whenever the transfer returns normally: if and only if images that share a target under the override have equal manifests |
| RoundTrip.NormalizedNamesClash | backend/image_transfer/common.py:122-123 | for any two such names there is a source for which the transfer succeeds and an image arrives with another one's manifest |
| RoundTrip.SlashAgainstUnderscore | backend/image_transfer/common.py:122-123 | such names exist: a/b:1 and a_b:1 |
| RoundTrip.OverriddenTagsClash | backend/image_transfer/decoder.py:145-148 | for any two images with a common tag there is a source for which the override makes one overwrite the other |
| Placement.TargetExactly | backend/image_transfer/decoder.py:145-148 | an image keeps its repository and tag without override and its tag under one; a colon in the override ends the repository |
| Placement.SameTarget | backend/image_transfer/decoder.py:145-148 | two images share a target if and only if they have the same tag, or without override the same name |
| Placement.FoundUnderOverride | backend/image_transfer/decoder.py:137-160 | under an override without a colon every new image is found in that repository under its own tag, with the manifest of the last image of that tag and all its blobs; every other image is as it was |
| Placement.FoundAtItsOwnName | backend/image_transfer/decoder.py:137-160 | without override every new image is found at its own repository and tag, with the manifest last packed under its archive path; every other image is as it was |
| Placement.IntactByTags | backend/image_transfer/decoder.py:145-148 | with distinct archive paths, every new image has the source's own manifest at the override and its tag if and only if images of one tag have one manifest |
| Placement.NamesReturned | backend/image_transfer/decoder.py:145-160 | the names returned are those of all images in order, under the override with their own tags |
| Placement.WhyItRaises | backend/image_transfer/decoder.py:76-134 | a replay of a payload raises for no other reason than a mount whose source lacks the blob, an image left out that is blocked, or, when strict, one that is absent, with the exception that belongs to it |
| Placement.KeysInOrder | backend/image_transfer/common.py:101-114 | the images of a payload are listed in the order of their first occurrence |
| Placement.PackedInOrder | backend/image_transfer/common.py:116-119 | those packed are exactly the images named and not transferred already, in the order of their first occurrence |
| IncrementalTransfer.FullPayloadReplays | backend/image_transfer/decoder.py:137-160 | a payload that leaves nothing out can be replayed into every destination, under every override |
| IncrementalTransfer.IncrementalExactly | backend/image_transfer/decoder.py:111-134 | a first payload, then a second one that leaves out what the first brought: the second replay raises if and only if some digest to mount is not where the first put it, and only at a mount; no check of an image left out fails |
| IncrementalTransfer.WithoutOverride | backend/image_transfer/encoder.py:45-51 | without override the second replay always returns normally, when no image of the first was read under another one's path |
| IncrementalTransfer.UnderOverride | backend/image_transfer/decoder.py:89-93 | under an override the second replay returns normally if and only if every digest to mount is said to be in the repository of the override, or was in the destination there before either replay |
| IncrementalTransfer.SharedDigestUnderOverride | backend/image_transfer/encoder.py:45-51 | concretely: any two images that share a digest, any override other than the first one's repository, any destination without that blob there: the second replay raises |
| IncrementalTransfer.AbsentImageStillNeeded | backend/image_transfer/decoder.py:111-134 | an image left out and absent from the destination is let pass outside strict mode, and mounting any digest it shares with a new image raises |
| TaskRouting.MappingTable.GetExistingWorker | backend/substrapp/task_routing.py:54-66 | the worker of the plan's unreleased row, or none |
| TaskRouting.MappingTable.ReleaseWorker | backend/substrapp/task_routing.py:69-83 | in place: dates the plan's unreleased row and changes nothing else |
| TaskRouting.MappingTable.GetWorkersWithFewestRunningCps | backend/substrapp/task_routing.py:110-138 | exactly the candidates whose number of unreleased rows is minimal, vanished workers with rows included; nothing when there is no candidate |
| TaskRouting.MappingTable.AcquireWorkerIndex | backend/substrapp/task_routing.py:86-107 | in place: the existing worker, or a new row for the smallest index among the least loaded |
| TaskRouting.AcquireFinds | backend/substrapp/task_routing.py:86-107 | after an acquire the plan is found on the worker answered and every other plan is found where it was; the table stays unique |
| TaskRouting.AcquireAdds | backend/substrapp/task_routing.py:86-107 | an acquire adds one row exactly for a plan that has no unreleased one, and touches no other row |
| TaskRouting.ReleaseFrees | backend/substrapp/task_routing.py:69-83 | after a release the plan is no longer found and every other plan is found where it was; its row has the date of the release, all other rows are as they were; the table stays unique |
| TaskRouting.Choice | backend/substrapp/task_routing.py:98-101 | a least loaded candidate, and the smallest index among those |
| TaskRouting.IdleNoLoad | backend/substrapp/task_routing.py:121-130 | the grouped count mentions a worker exactly when its load is positive |
| TaskRouting.RunShared | backend/substrapp/task_routing.py:86-138 | from any table of in-range, evenly shared rows, any sequence of acquires and releases stays in range and evenly shared with respect to its peak |
| TaskRouting.LoadBound | backend/substrapp/task_routing.py:69-138 | over any sequence of whole acquires and releases with a fixed number of workers, no worker ever has more plans than the peak divided by that number, rounded up |
| TaskRouting.ChoiceExistsExactly | backend/substrapp/task_routing.py:121-138 | a fresh plan is sent to a worker that exists if and only if some current worker has no more plans than each vanished worker that still has rows |
| TaskRouting.PlacedInTurn | backend/substrapp/task_routing.py:86-138 | starting empty, with no release, the k-th fresh plan gets worker k mod n |
| TaskRouting.EvenlyPlaced | backend/substrapp/task_routing.py:86-138 | so the loads of any two workers differ by at most one |
| RoutingInterleavings.AlwaysUnique | backend/substrapp/models/computeplan_worker_mapping.py:16-23 | whatever the interleaving of reads, counts, inserts and saves, a plan has at most one unreleased row |
| RoutingInterleavings.Sticky | backend/substrapp/task_routing.py:54-107 | from the moment a row exists until it is released, every lookup of its plan at every point of every interleaving finds that row and the same worker |
| RoutingInterleavings.HistoryStepExact | backend/substrapp/task_routing.py:69-83 | a step changes a released row if and only if it saves a release read before that one was saved, with another date; nothing but the date changes |
| RoutingInterleavings.HistoryKept | backend/substrapp/task_routing.py:69-83 | when releases do not overlap, released rows never change again |
| RoutingInterleavings.OverlappingReleasesRewrite | backend/substrapp/task_routing.py:69-83 | two overlapping releases of a plan: the second rewrites the date of the first |
| RoutingInterleavings.InterleavedLoadBound | backend/substrapp/task_routing.py:86-138 | the same bound in every interleaving of the single queries, from a table with nothing running, in which the table an insertion finds is the one its process counted |
| RoutingInterleavings.InterleavedCountsCollide | backend/substrapp/task_routing.py:86-107 | two processes that count before either inserts choose the same worker, whatever their number: load two at a peak of two |
| RoutingInterleavings.ReleaseBeforeInsertion | backend/substrapp/task_routing.py:69-107 | one acquire overlapped by a single release, no other acquire: load two at a peak of two with two workers |
| RoutingInterleavings.UninterleavedAcquire | backend/substrapp/task_routing.py:86-107 | the three queries of an acquire with nothing in between are the atomic acquire |
| RoutingInterleavings.UninterleavedRelease | backend/substrapp/task_routing.py:69-83 | the two queries of a release with nothing in between are the atomic release |
| AssetBuffer.Buffer.Download | backend/substrapp/clients/organization.py:147-174 | in place: chunk by chunk; the whole content when its salted checksum is right, nothing after a mismatch or refusal, the partial file after a cut |
| AssetBuffer.Buffer.AddModelSafe | backend/substrapp/compute_tasks/asset_buffer.py:77-111 | in place: a file already there is left alone, a failed download leaves nothing |
| AssetBuffer.Buffer.AddModelsToBuffer | backend/substrapp/compute_tasks/asset_buffer.py:224-252 | in place: the processes in any order, then success exactly when all exit codes are zero, otherwise all requested models deleted |
| AssetBuffer.Buffer.DeleteModels | backend/substrapp/compute_tasks/asset_buffer.py:166-170 | in place: removes exactly the listed models |
| AssetBuffer.Buffer.ClearModels | backend/substrapp/compute_tasks/asset_buffer.py:62-74 | in place: removes every model whose removal does not fail and goes on after a failure |
| AssetBuffer.Buffer.AddModelFromPath | backend/substrapp/compute_tasks/asset_buffer.py:141-149 | in place: moves the file, or raises for a missing path |
| AssetBuffer.Buffer.SaveModels | backend/substrapp/compute_tasks/outputs.py:51-75 | in place: all checksums, then both registrations, then the renames, stopping at the first failure |
| AssetBuffer.AllOrNothing | backend/substrapp/compute_tasks/asset_buffer.py:224-252 | after a batch either every requested model is in the buffer (normal return) or none is (exception); models not requested are untouched, and on success those already there too |
| AssetBuffer.BatchSucceedsExactly | backend/substrapp/compute_tasks/asset_buffer.py:224-269 | a batch returns normally if and only if no process is killed and the first download of each missing model is whole with the registered checksum |
| ChunkedDownloads.DownloadExactly | backend/substrapp/clients/organization.py:147-174 | for every content, chunk size and cut: a download returns normally if and only if it is not cut and what came has the registered checksum under the salt; what came is left as a file unless the checksum is wrong |
| ChunkedDownloads.ProcessExactly | backend/substrapp/clients/organization.py:147-174 | whatever the chunk size, the process of a whole content succeeds if and only if the content followed by the salt has the registered checksum, and then the buffer holds the content; a cut stream leaves the buffer as it was |
| ChunkedDownloads.WholeBatchExactly | backend/substrapp/compute_tasks/asset_buffer.py:224-252 | a batch of whole contents returns normally if and only if every model fetched has the checksum of its salted content, and then the buffer holds the contents |
| AssetBuffer.SaveSucceedsExactly | backend/substrapp/compute_tasks/outputs.py:51-75 | new models are saved if and only if every file is there, no file is named twice and both registrations succeed; then each is in the buffer with its content, the other models are as they were and the files have left the directory; nothing moves when a file is missing or a registration fails |
| BufferRuns.ProcessesIntactExactly | backend/substrapp/compute_tasks/asset_buffer.py:77-111 | any number of processes in any order leave only models with their registered checksum if and only if none was killed over a file with a wrong one while the model was missing |
| BufferRuns.BatchIntact | backend/substrapp/compute_tasks/asset_buffer.py:224-252 | whatever happens to its processes, a whole batch keeps every buffered model at its registered salted checksum |
| BufferRuns.SaveIntact | backend/substrapp/compute_tasks/outputs.py:51-100 | saving new models, whichever registration or rename fails, keeps it too |
| BufferRuns.AlwaysIntact | backend/substrapp/compute_tasks/asset_buffer.py:62-269 | so does every sequence of batches, deletions, clears and new models |
| BufferRuns.LeftoverTaken | backend/substrapp/compute_tasks/asset_buffer.py:95-96 | a worker killed inside a batch leaves a partial file that the next batch takes for the model, whatever it would have downloaded |
| BufferRuns.SampleBuffer.AddSampleSafe | backend/substrapp/compute_tasks/asset_buffer.py:179-206 | in place: a sample with the right checksum is added, a failed extraction leaves nothing, a wrong checksum removes the whole folder |
| BufferRuns.SampleBuffer.AddDataSamples | backend/substrapp/compute_tasks/asset_buffer.py:114-126 | in place: sample after sample, stopping at the first that cannot be added; on normal return every requested sample is there |
| BufferRuns.SamplesStayIntact | backend/substrapp/compute_tasks/asset_buffer.py:203-206 | every sample in the folder keeps its known checksum, whatever fails |
| BufferRuns.SamplesAddedExactly | backend/substrapp/compute_tasks/asset_buffer.py:114-126 | adding samples returns normally if and only if each is there at its turn or comes whole with the right checksum |
| BufferRuns.SamplesAllThere | backend/substrapp/compute_tasks/asset_buffer.py:179-206 | then the folder holds what it held and, for each new sample, the content that came first |
| BufferRuns.SamplesLostExactly | backend/substrapp/compute_tasks/asset_buffer.py:179-206 | adding a list of samples loses one that was there if and only if the first sample not added has a wrong checksum, and then the whole folder is gone |

## Left out

- LockLocal.MutualExclusion: assumes that no secondary acquisition times out, because with a TTL and time-outs it is
  false (LockLocal.ExclusionSurvivesTimeOutsExactly says when it is not); it says nothing of a holder that outlives
  its TTL, whose file may be removed.
- LockLocal.OnlyTheRightFileIsRemoved: same hypothesis; unique ids are taken to be unique.
- Reactor.CrashResume: schedules with a crash between applying an output asset and saving its position are excluded,
  because there it is false (Reactor.UnsafeCrashNeverRecovers).
- Reactor.UnsafeCrashNeverRecovers: says nothing of an output that has several assets in the stream.
- Interleavings.OrderIndependence: compares the link tables; plan start dates depend on the clock read by the handler.
- TaskRouting.LoadBound: whole transactions and a fixed number of workers; for single queries
  RoutingInterleavings.InterleavedLoadBound gives a sufficient condition, and TaskRouting.ChoiceExistsExactly shows
  what a scale-down does.
- RoutingInterleavings.InterleavedLoadBound: one direction; some runs with a changed table keep the bound by luck.
- RoutingInterleavings.HistoryKept: assumes releases one at a time (see
  RoutingInterleavings.OverlappingReleasesRewrite).
- RoundTrip.RoundTrip: what the registry answers to a mount whose source lacks the blob is not visible in the
  repository and is taken to be an error; what a replay that raises has already written is covered by
  Decoder.ClosedAtEveryStep only.
- IncrementalTransfer.WithoutOverride, IncrementalTransfer.UnderOverride: first payloads in which two images with
  different manifests share an archive path are left to IncrementalTransfer.IncrementalExactly.
- BufferRuns.AlwaysIntact: quiescent states only, between whole operations of one worker.
- The lock functions are a step system rather than methods, since what is proved is about their interleaving: sleeping
  and retry delays are not in it, only the order of file steps and the passing of time.
- Several locks at once: each resource is taken alone. Filling and clearing the asset buffer use two different locks
  (`backend/substrapp/tasks/tasks_compute_task.py:215` and `:268`), so their exclusion is not claimed.
- Django, REST serializers, SQL and gRPC: tables are maps, a transaction is one step, field validation is reduced to
  the checks on references.
- Events for organizations, data managers, data samples, performances and profiling steps; function creation is a
  create-once insert of an opaque row with its declared input kinds.
- JSON and pydantic encoding, SHA-256 and directory hashing: encodings are the identity, hashes are uninterpreted.
- Registry HTTP, authentication, image platforms: a tag answers one manifest, several platforms, or a refusal.
- Kubernetes, Celery queues and queue names, the replica count of the worker set (a parameter), Prometheus, MinIO.
- Openers and the hard links into task directories, and the teardown of directories after a compute task.
- HTTP views, filters, permissions, OIDC, archive path checks, migrations and settings.
- Performance values, log addresses, names, tags, metadata and permissions are opaque or absent.
