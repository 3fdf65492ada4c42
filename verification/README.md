# Verification of the media automation server

A Dafny model of the parts of the automation server that must not go wrong when
processes stop at any moment or run beside each other, with proofs of what they
promise. Each part is a module named after what it models.

**GPU admission and the phase protocol.** `Admission` is one locked
`request_lease` transaction on the lease table; `LeaseTable` is the table as a
class whose loops are proved to compute it. `AdmissionLaws`, `AdmissionMemory`,
`AdmissionQueue` and `AdmissionCapacity` prove exclusion, memory, queue
discipline and capacity over whole histories; `AdmissionAnswers` and
`AdmissionDecision` say row by row, in terms of the table and the world before a
request, what it frees, disputes, measures and grants. `PhaseControl` is the parent's
answer to one phase request, `WorkerPhases` the worker's side, and `GpuPhase`
every interleaving of both with cancellation, time-outs and kills.

**Custody of files.** `Transfer` (classification transfer), `VideoCustody`,
`VideoLoss`, `VideoMission` and `VideoProgress` (video compression: what is never
lost, what each routine does, and that recoveries end), `ImageCustody` and
`ImageMission` (image pipeline) model the disk as names, inodes and contents and
the database row as durable status. Every durable effect is one step and a stop
may follow each. The classes are the routines; their object keeps every state it
went through, and `Valid` says that these states are a run of the protocol, so
the theorems about runs hold at every point where a routine may stop. `Lineage`
is the append-only log these protocols write, `LineageReader` its writers and
readers running concurrently.

**Computations that stand in for simpler ones.** `AudioWindows`, `Batching`,
`BatchedExtraction` and `Pooling` prove the streaming or batched form equal to
the naive one, over reals, and say what that one means.

**Names and archives.** `Naming`, `NameAllocation` and `TreeNaming` allocate names
for files of a batch; `Archives` inspects and expands nested archives from a queue.

**Feedback.** `Feedback` and `FeedbackJournal` are the write-ahead journal with
its replay and the label revisions; `Learning` decides whether a training
snapshot still stands.

## What the code does not keep

Where a promise does not hold of the code, the model keeps the code, a lemma gives
a run that breaks the promise, and another states exactly when it is kept.

- A publication that fails leaves its staging file behind
  (`automation-server/video_compression/schedules/compress_videos.py:615-620`).
  If another video then takes the same name and the program stops right after
  claiming it, recovery publishes the old staging file and removes the new video,
  even with lineage on: `VideoLoss.StaleStagingLosesAVideo`. Exactly which claims
  are dangerous: `VideoLoss.ClaimCanLoseIffStale`, and for the program alone
  `VideoLoss.ClaimCanLoseIffEndangered`.
- With lineage off, a pending cleanup removes whatever is at the source path, also
  a video put back meanwhile: `VideoLoss.ReturnedVideoIsLost`,
  `VideoLoss.ReturnedVideoAtRiskIffLineageOff`.
- A stop while the quarantine is removed, before the marker is written, leaves a
  batch that every retry refuses although it is held whole:
  `ImageMission.StrandedBatchIsReachable`, `ImageMission.HeldBatchRefusedIff`.
- Closing a persistent worker kills its tree and waits ten seconds for its death
  (`automation-server/video_filter/persistent_client.py:72-74`). If either fails, the
  clean-up is skipped and the end of the task gives the lease back while the
  worker may still compute: `GpuPhase.ExpiredWaitIsReachable`,
  `GpuPhase.UsedWithoutLeaseIff`.
- The owner of an active lease may ask again with another workload; the row takes
  the new workload without a capacity check:
  `AdmissionCapacity.ChangedMindExceedsLimit`. Exactly which requests and which
  histories exceed it: `AdmissionCapacity.LimitKeptIff`,
  `AdmissionCapacity.CapacityHoldsIff`.
- A file name whose suffix alone has 240 characters is not cut to 240, and a second
  file of one name may get a longer one: `Naming.LongSuffixIsNotCut`,
  `Naming.SecondNameTooLong`, `Naming.LengthBoundedIff`, `Naming.PrefixedBoundedIff`.

## Assumptions

- Transfer: a check and the effect that relies on it are one step with respect to
  other programs: opening the witness, linking the target, committing the verified
  and the published row, and the last look at target and witness with the removal of
  the source (`automation-server/video_filter/transfer.py:201-204`). Other programs leave the source file alone, the
  delivered target once the source is gone, and do not publish the half-written
  witness.
- Video: a truncated copy never validates; users take a video back only while no
  attempt is under way; a check and the effect that relies on it, and so the checks
  of a tick and the removal after them, are one step with respect to users. One mission stands for all, since missions share no
  file. Equal digests mean equal contents, and changed contents a changed
  snapshot; the same holds for the other protocols.
- Image: users may do anything at the source path, and take or place things at the
  destination; nobody else writes in the mission's own directories.
- Memory: usage attributed to a lease does not exceed what it uses, and free
  memory, the leases' use and the rest made up the device when the sample was
  taken. Memory is counted in whole MiB: the factor 1.1 is 11/10 and 1.5 is 3/2,
  rounded down as the code rounds.
- Phases: a kill reaches the descendants no later than the top process, and at
  once when that is gone; killing a one-shot worker does not raise. Releasing at the
  very end of a task succeeds.
- Lineage: a transaction is atomic, and the lock is held to its end.
- Pooling and extraction: models work item by item, the encoder row by row; the
  exponential is any positive function that is one at zero and turns sums into
  products.
- Naming: the collision key of a name `D<n>_...` determines `n` for a given base
  name, as it does wherever composition and case folding leave its digits and
  underscore in place (`Naming.MarksTellNumbers`). The Unicode tables are otherwise
  arbitrary functions.
- Archives: no more entries are extracted than the listing counts; sizes in a listing
  are not negative.
- Feedback: deciding that a refused record was overtaken and the refusal itself are
  one step. Labels change only through feedback.

## Model

| member | source | states |
|---|---|---|
| `LeaseTable.LeaseTable.RequestLease` | automation-server/media_lineage/resources.py:161-291 | the loops over the rows commit exactly the table and the grant that the transaction is specified to give; a refused request leaves the table as it was, and the invariant over all histories is kept |
| `LeaseTable.LeaseTable.SweepDevice` | automation-server/media_lineage/resources.py:173-183 | the loop leaves exactly the table whose rows `AdmissionAnswers.OtherRowAfter` describes; other devices are untouched |
| `LeaseTable.LeaseTable.EnterRow` | automation-server/media_lineage/resources.py:184-217 | the caller's row is found by owner, revived, or added, its budget only grows, and each of the three refusals is raised for its own reason |
| `LeaseTable.LeaseTable.MeasureActive` | automation-server/media_lineage/resources.py:236-247 | one pass notes observed peaks, raises exceeded budgets and returns the memory the running leases may still claim |
| `LeaseTable.LeaseTable.EarmarkFor` | automation-server/media_lineage/resources.py:248-259 | one pass finds the oldest encoder waiting ahead and whether one is active, and so the room to keep |
| `LeaseTable.LeaseTable.MayRun` | automation-server/media_lineage/resources.py:201-233 | one pass decides eligibility: no conflict, nothing exclusive running or waiting ahead, and the workload below its limit |
| `LeaseTable.LeaseTable.MayRunAlone` | automation-server/media_lineage/resources.py:266-268 | an exclusive request may run exactly when nothing competes and nobody is ahead |
| `LeaseTable.LeaseTable.Decide` | automation-server/media_lineage/resources.py:223-268 | the decision is the specified one in both modes, and rows are measured only when memory is looked at |
| `LeaseTable.LeaseTable.Change` | automation-server/media_lineage/resources.py:294-323 | heartbeats, out-of-memory reports and releases change exactly the rows they name and keep the invariant |
| `AdmissionLaws.HistoryKeepsInv` | automation-server/media_lineage/resources.py:161-323 | over every history with fresh row ids: ids and owners stay unique, active rows are held, held rows are active or in conflict, exclusive leases are alone |
| `AdmissionLaws.ExclusiveLeaseIsAlone` | automation-server/media_lineage/resources.py:223-268 | after any history, sweeps, conflicts and revivals included, no lease is held on a device beside a held exclusive one |
| `AdmissionAnswers.OtherRowAfter` | automation-server/media_lineage/resources.py:173-183 | an answered request frees exactly those rows of other owners on its device that waited more than 300 seconds or whose process is gone or another one, and puts in conflict exactly those whose process cannot be queried; nothing else of them changes but memory figures |
| `AdmissionAnswers.LiveHolderKeepsLease` | automation-server/media_lineage/resources.py:176-183 | over every history, no request of anybody takes a held lease from a holder that is not known to be gone: it stays active, or in conflict if its process could not be queried |
| `AdmissionAnswers.DoubtfulHolderBlocksGrants` | automation-server/media_lineage/resources.py:182-227 | over every history, a request on a device with a held lease whose process cannot be queried gives nobody a new lease there |
| `AdmissionAnswers.CallerRowAfter` | automation-server/media_lineage/resources.py:184-222 | what becomes of the row the caller has: kept, in conflict, or started anew at the end of the queue, with budgets that only grow |
| `AdmissionAnswers.NewRowAfter` | automation-server/media_lineage/resources.py:185-196 | a new caller gets one new row, waiting or active, at the end of the queue |
| `AdmissionAnswers.RefusedIff` | automation-server/media_lineage/resources.py:191-204 | each of the three refusals has exactly its own cause, read from the row the caller has |
| `AdmissionAnswers.RowAfterChange` | automation-server/media_lineage/resources.py:294-323 | only a release frees a row, only a lack of memory raises its budget, by half and to 1024 at least; rows that are not named stay |
| `AdmissionDecision.SharedIsGrantedIff` | automation-server/media_lineage/resources.py:223-271 | a waiting shared request is given its lease if and only if no row is in dispute, no exclusive lease runs or waits ahead, its workload is below its limit and, when checked, memory suffices: all in terms of the rows and the world before the request |
| `AdmissionDecision.ExclusiveIsGrantedIff` | automation-server/media_lineage/resources.py:266-271 | an exclusive request is given its lease if and only if nothing runs and nobody came first |
| `AdmissionDecision.OthersAreMeasuredIff` | automation-server/media_lineage/resources.py:236-247 | exactly when memory is looked at, rows that run note their peak and an exceeded budget is raised to eleven tenths of the use and one |
| `AdmissionDecision.RoomIsEarmark` | automation-server/media_lineage/resources.py:248-256 | the memory kept free is the budget of the encoder that waits longest ahead, while none runs |
| `AdmissionMemory.NeverPromisedTwice` | automation-server/media_lineage/resources.py:234-263 | right after a checked shared admission in any history, budgets of all held leases plus the reserve fit in total memory minus other use; for any sample, new or reused |
| `AdmissionMemory.PromisedIsBounded` | automation-server/media_lineage/resources.py:236-263 | the promised budgets never exceed what is pending plus what is really used plus the new budget, raised budgets included |
| `AdmissionMemory.EncoderStillFits` | automation-server/media_lineage/resources.py:248-263 | when an extract or predict request behind the oldest waiting encoder is admitted with no encoder active, the encoder itself would be admitted next by the same sample, unless the caller is already seen to use so much that its raised budget leaves more to claim than the budget it came with |
| `AdmissionMemory.EncoderAdmittedIff` | automation-server/media_lineage/resources.py:236-263 | after such an admission the same sample admits the encoder if and only if free memory, less what all running leases and the new one may still claim, covers its budget and reserve |
| `AdmissionMemory.EncoderIsEligible` | automation-server/media_lineage/resources.py:223-233 | after such an admission nothing but memory stands between the oldest encoder and its lease |
| `AdmissionQueue.HeadExists` | automation-server/media_lineage/resources.py:200-202 | wherever a request waits on a device, one of them is first in the order of creation and id |
| `AdmissionQueue.GrantRespectsQueue` | automation-server/media_lineage/resources.py:223-268 | a new shared grant leaves no exclusive request waiting ahead of it; a new exclusive grant had nothing running and nobody ahead |
| `AdmissionQueue.HeadOfIdleDeviceIsGrantedIff` | automation-server/media_lineage/resources.py:223-268 | on an idle device the first waiter gets its lease if and only if it is exclusive or its limit is positive and, when checked, free memory covers budget plus reserve |
| `AdmissionCapacity.CapacityHoldsIff` | automation-server/media_lineage/resources.py:215-227 | over a whole history held leases stay within 1 compression, 2 predictions and the extract capacity on every device if and only if no request asks for a lease its owner still holds after the sweep, for work that is full without it |
| `AdmissionCapacity.CapacityHolds` | automation-server/media_lineage/resources.py:225-227 | after any history without such a request, whatever owners change between, no device holds more than the capacity |
| `AdmissionCapacity.SteadyOwnersStayWithin` | automation-server/media_lineage/resources.py:225-227 | in particular the capacity is kept where owners never change their kind of work |
| `AdmissionCapacity.LimitKeptIff` | automation-server/media_lineage/resources.py:215-227 | one request keeps its workload within the limit if and only if, on the table it meets, its owner does not already hold a lease while the others fill that limit; the condition is read before the request |
| `AdmissionCapacity.CapKeptIff` | automation-server/media_lineage/resources.py:215-227 | the same for any larger limit, as when requests name different capacities |
| `AdmissionCapacity.NewGrantWithinLimit` | automation-server/media_lineage/resources.py:225-227 | at a new grant the other held leases of the workload are below the limit |
| `AdmissionCapacity.ChangedMindExceedsLimit` | automation-server/media_lineage/resources.py:215-218 | a three-request history in which two compression leases are held at once, because an owner changed its workload while active |
| `PhaseControl.PhaseController.GpuControl` | automation-server/video_filter/supervisor.py:185-245 | every branch of the parent's answer: what it returns and what becomes of lease, phase, owners and database leases |
| `PhaseControl.PhaseController.Cleanup` | automation-server/video_filter/supervisor.py:194-201 | every lease asked for by this task is released |
| `PhaseControl.PhaseController.EndTask` | automation-server/video_filter/supervisor.py:295-299 | no lease of the task is left in the database |
| `PhaseControl.ControlKeepsAccount` | automation-server/video_filter/supervisor.py:185-245 | every lease the database holds was asked for under an owner the task remembers, whatever fails in between |
| `PhaseControl.OnlyReleaseGivesUp` | automation-server/video_filter/supervisor.py:204-215 | a lease in use is given up by no answer except to a release |
| `PhaseControl.ReleaseGivesBack` | automation-server/video_filter/supervisor.py:204-216 | a release is answered without error exactly for the current phase of a known task when nothing raises, and then lease and phase are cleared and the database has lost just that lease |
| `PhaseControl.FailureKeepsLease` | automation-server/video_filter/supervisor.py:204-209 | a failure report changes no lease |
| `PhaseControl.GrantIsBooked` | automation-server/video_filter/supervisor.py:217-245 | a lease is granted exactly to a running, known task without one that is not being stopped, and then task and database both have it |
| `PhaseControl.PhasesFollowEachOther` | automation-server/video_filter/supervisor.py:204-245 | one phase after another gets its lease and none is left between them |
| `PhaseControl.NothingLeft` | automation-server/video_filter/supervisor.py:194-201 | clean-up or the end of the task, alone or together, leave no lease |
| `WorkerPhases.GpuPhases.Exchange` | automation-server/video_filter/gpu_phase.py:16-28 | one numbered request, one reply; a closed stream, a wrong number or an error end the protocol |
| `WorkerPhases.GpuPhases.Await` | automation-server/video_filter/gpu_phase.py:34-35 | the loop ends at the first grant after nothing but refusals in turn, and otherwise only with an error |
| `WorkerPhases.GpuPhases.Run` | automation-server/video_filter/gpu_phase.py:30-51 | a computation runs if and only if such a grant was read, and is followed by exactly one release or failure as the last message |
| `GpuPhase.RunKeepsInv` | automation-server/video_filter/supervisor.py:185-300 | what every interleaving of worker, parent, kills and time-outs keeps: who may hold the GPU, which message is under way, and that the lease outlives its need |
| `GpuPhase.UsedWithoutLeaseIff` | automation-server/video_filter/persistent_client.py:67-85 | in every reachable state the GPU is used without a lease if and only if the task ended after closing its worker failed, while the tree still used it |
| `GpuPhase.ConfirmedDeathIsSafe` | automation-server/video_filter/worker_client.py:127-146 | one-shot workers always, and persistent ones whose closing never fails, use the GPU only under the task's lease |
| `GpuPhase.InUseIsNotReleased` | automation-server/video_filter/persistent_client.py:217-238 | the only step that takes away a lease in use is the end of a task after closing its worker failed |
| `GpuPhase.NoLeaseIsLeft` | automation-server/video_filter/supervisor.py:295-300 | however a task ends, it leaves no lease |
| `GpuPhase.ReleaseIsReal` | automation-server/video_filter/supervisor.py:204-216 | in every reachable state in which a worker was told, or is being told, that its release went through, and until a later grant, the task knows of no lease and the database holds none of it |
| `GpuPhase.PhaseIsServed` | automation-server/video_filter/supervisor.py:185-245 | from every reachable idle worker any next phase can be served, with its lease held while it computes and none before and after |
| `GpuPhase.TwoPhasesAreServed` | automation-server/video_filter/persistent_client.py:217-238 | a task of any two phases ends with its worker kept and no lease left |
| `GpuPhase.GivenUpTaskEnds` | automation-server/video_filter/worker_client.py:127-146 | wherever a task stands, giving it up and killing its tree leads to an end with every process dead and no lease left |
| `GpuPhase.RefusalClosesKeptWorker` | automation-server/video_filter/persistent_client.py:108-113 | a refused message closes exactly a worker that would have been kept |
| `GpuPhase.ExpiredWaitIsReachable` | automation-server/video_filter/persistent_client.py:74 | a run in which the wait of ten seconds expires, no clean-up follows, and the final release gives back a lease in use |
| `Lineage.Log.AppendEvent` | automation-server/media_lineage/service.py:19-73 | an event is refused, found again or appended, each for the stated reason; the log stays well chained |
| `Lineage.AppendKeepsChains` | automation-server/media_lineage/service.py:46-63 | an accepted event keeps every operation's events of one identity, one per phase, each with its predecessor |
| `Lineage.ReachedIsPrefix` | automation-server/media_lineage/service.py:12-16 | the phases an operation has are exactly the first ones of the four |
| `Lineage.OperationIsPrefix` | automation-server/media_lineage/service.py:52-62 | all its events name one producer, generation, source and destination, and from the second on one output digest |
| `Lineage.ReplayIsIdempotent` | automation-server/media_lineage/service.py:46-51 | writing an event again changes nothing; nothing is ever removed from the log |
| `Lineage.NewEventIsAcceptedIff` | automation-server/media_lineage/service.py:46-73 | an event new to its operation is written if and only if it is the next phase and agrees with all earlier ones in producer, generation, source, paths and, from the second phase on, output |
| `Lineage.KnownEventIsCompared` | automation-server/media_lineage/service.py:46-51 | an event for a recorded phase is accepted exactly as the same event again |
| `Lineage.PublicationIsRecordedIff` | automation-server/media_lineage/service.py:118-140 | publication is recorded or found recorded exactly under these conditions on files and phases |
| `Lineage.WholeOperationIsAccepted` | automation-server/media_lineage/service.py:12-73 | every well-formed operation can be taken through its four phases |
| `Lineage.Log.RecordPublished` | automation-server/media_lineage/service.py:118-140 | exactly when publication is recorded, was already recorded or is refused, and that afterwards the log holds the digest the destination was found with |
| `Lineage.Log.RecordSourceRemoved` | automation-server/media_lineage/service.py:143-161 | cleaning is recorded once, if and only if publication is on record, the source is gone and the output is the recorded one |
| `LineageReader.ReaderNeverSkips` | automation-server/media_lineage/service.py:41-81 | in every interleaving of writers, commits, rollbacks and skipped ids, the reader has seen exactly the first committed events in order; a read below its limit leaves none behind |
| `LineageReader.CommittedChains` | automation-server/media_lineage/service.py:41-73 | at every moment the committed events of any operation are a prefix of the four phases |
| `LineageReader.StepKeepsInv` | automation-server/media_lineage/service.py:41-81 | commit order is id order, because only the holder of the lock allocates |
| `LineageReader.UnlockedReaderSkips` | automation-server/media_lineage/service.py:41-45 | without the lock a run exists in which a committed event is never read |
| `Transfer.Operation.constructor` | automation-server/video_filter/transfer.py:106-112 | the plan that is committed is a valid start |
| `Transfer.Operation.VerifyStage` | automation-server/video_filter/transfer.py:135-164 | the copy is verified exactly when source, names and bytes allow; every refusal leaves the stated state |
| `Transfer.Operation.PublishStage` | automation-server/video_filter/transfer.py:165-188 | the witness becomes the target and the row advances exactly when all checks pass |
| `Transfer.Operation.CleanSource` | automation-server/video_filter/transfer.py:189-211 | the source goes and the row is closed exactly when all checks pass; a changed target puts the row in conflict |
| `Transfer.Operation.Advance` | automation-server/video_filter/transfer.py:119-212 | one call takes the operation to its end if and only if the stated checks hold; it never moves the status backwards, through effects that all are allowed steps |
| `Transfer.Operation.Resume` | automation-server/video_filter/supervisor.py:513-532 | a resumed operation completes exactly when its checks hold, waits exactly when a pending journal is met first, and else is in conflict |
| `Transfer.RunKeepsInv` | automation-server/video_filter/transfer.py:119-212 | what every run of effects, stops and other programs keeps |
| `Transfer.BytesNeverLost` | automation-server/video_filter/transfer.py:119-212 | in every reachable state the recorded bytes are at source or target; a missing source means phases 0-2 are recorded and the target is there |
| `Transfer.SourceRemovedOnlyWhenDelivered` | automation-server/video_filter/transfer.py:191-204 | the one step that removes the source finds target and witness one verified inode and three events |
| `Transfer.TargetNeverOverwritten` | automation-server/video_filter/transfer.py:172-176 | no effect changes a file found at the target |
| `Transfer.StatusOnlyAdvances` | automation-server/video_filter/transfer.py:120-123 | over any run the status only moves forward or to conflict, and both ends are final |
| `Transfer.StoppedTransferCompletesIff` | automation-server/video_filter/transfer.py:119-212 | wherever the program alone was stopped, one more call under open gates completes the operation unless it is up for review or was stopped with an unverified witness |
| `Transfer.ObstaclesStop` | automation-server/video_filter/transfer.py:124-211 | no call completes past a closed gate, a foreign or changed file, or a wrong copy |
| `Transfer.OnlyTheJournalMakesItWait` | automation-server/video_filter/transfer.py:124-134 | a call waits only for a pending journal, and at the entry always |
| `VideoMission.Mission.RefreshMission` | automation-server/video_compression/schedules/compress_videos.py:84-150 | the row follows the file found under its name, in exactly the stated transitions |
| `VideoMission.Mission.ClaimMission` | automation-server/video_compression/schedules/compress_videos.py:153-193 | only a ready mission is claimed, with a new attempt number |
| `VideoMission.Mission.Prepare` | automation-server/video_compression/service.py:138-240 | a staging file with the whole source video exists afterwards if and only if every tool succeeded and no name was taken; the source is untouched |
| `VideoMission.Mission.DeliverPrepared` | automation-server/video_compression/schedules/compress_videos.py:604-650 | output is the prepared file, source and own files are gone, four lineage events; or the mission failed with all names as they were |
| `VideoMission.Mission.ProcessClaimed` | automation-server/video_compression/schedules/compress_videos.py:557-652 | a claimed mission completes exactly when preparation and validation succeed; a failed one keeps its source and leaves nothing of its own but a staging file that did not validate |
| `VideoMission.Mission.RecoverMissingSource` | automation-server/video_compression/schedules/compress_videos.py:431-454 | a mission whose source is gone completes exactly when a valid output of the recorded lineage is there; the fourth event comes before its own files go |
| `VideoMission.Mission.PublishRecovered` | automation-server/video_compression/schedules/compress_videos.py:456-474 | a recovered output becomes pending cleanup exactly when lineage accepts it, and then the own files are discarded |
| `VideoMission.Mission.RemoveAndComplete` | automation-server/video_compression/schedules/compress_videos.py:295-313 | own files, then the source, then the row: nothing else changes, and the fourth event is written once |
| `VideoMission.Mission.RecoverProcessing` | automation-server/video_compression/schedules/compress_videos.py:408-525 | the status every combination of leftover files leads to; source and output are not touched |
| `VideoMission.Mission.RecoverValidating` | automation-server/video_compression/schedules/compress_videos.py:317-405 | likewise for a mission stopped while validating; an existing output is never replaced |
| `VideoMission.Mission.FinishCleanup` | automation-server/video_compression/schedules/compress_videos.py:270-314 | the source is removed if and only if output, staging and lineage pass their checks (`VideoProgress.CleanupRunsIff` says which) |
| `VideoMission.Mission.Tick` | automation-server/video_compression/schedules/compress_videos.py:528-652 | from each status, what one tick comes to, what it leaves under every name and, with lineage on, that a mission it completes has all four events on record |
| `VideoProgress.CleanupRunsIff` | automation-server/video_compression/schedules/compress_videos.py:284-301 | when the output validates, a cleanup goes through if and only if the output is complete, staging is gone or the same file, and, with lineage on, the attempt recorded this source and output |
| `VideoProgress.RecoveredIsResumable` | automation-server/video_compression/schedules/compress_videos.py:456-525 | whatever a recovery leaves as a pending cleanup meets that condition |
| `VideoProgress.RecoverAndFinish` | automation-server/video_compression/schedules/compress_videos.py:528-554 | two ticks in a row: what the first recovered the second completes, the source gone and the output as it was |
| `VideoProgress.TickOnce` | automation-server/video_compression/schedules/compress_videos.py:528-652 | with working tools one tick of a resumable mission completes it or brings it closer with its source in place, and no other tick completes anything |
| `VideoProgress.Settle` | automation-server/video_compression/schedules/compress_videos.py:528-652 | the schedule completes every resumable mission in at most three ticks |
| `VideoProgress.RefusalsCount` | automation-server/video_compression/schedules/compress_videos.py:284-525 | a tool that refuses never lets a mission through |
| `VideoCustody.VideoNeverLost` | automation-server/video_compression/schedules/compress_videos.py:270-652 | in every run of normal steps, stops and recoveries, a video handed over is at the source or complete in the output, unless a claim met a stale staging file or, with lineage off, a video returned during cleanup |
| `VideoCustody.RunKeepsInv` | automation-server/video_compression/schedules/compress_videos.py:270-652 | the invariant behind it |
| `VideoCustody.RunKeepsFiles` | automation-server/video_compression/service.py:125-138 | files opened for writing are never the source or the output, in any run |
| `VideoLoss.ClaimCanLoseIffStale` | automation-server/video_compression/schedules/compress_videos.py:382-511 | whatever program and users do afterwards, a claimed video can be lost while it is theirs if and only if the claim met a complete staging file of another video and the output does not hold the same video already |
| `VideoLoss.SafeForever` | automation-server/video_compression/schedules/compress_videos.py:270-652 | what keeps a single video through every step of program and users: delivered, waiting without a stale staging file, or returned during cleanup under lineage |
| `VideoLoss.ClaimCanLoseIffEndangered` | automation-server/video_compression/schedules/compress_videos.py:476-511 | with no user step after the claim, the video can be lost if and only if moreover the output name is free or already the stale file |
| `VideoLoss.HarmlessClaim` | automation-server/video_compression/schedules/compress_videos.py:382-511 | from any other claim no run of the program alone loses anything |
| `VideoLoss.EndangeredClaim` | automation-server/video_compression/schedules/compress_videos.py:382-395 | from such a claim, the run that publishes the stale file and removes the new source, lineage on or off |
| `VideoLoss.StaleStagingLosesAVideo` | automation-server/video_compression/schedules/compress_videos.py:615-620 | the whole run from an empty mission: failed publication, swapped video, stop after the claim, loss, with lineage on |
| `VideoLoss.ReturnedVideoAtRiskIffLineageOff` | automation-server/video_compression/schedules/compress_videos.py:270-301 | in every reachable state with a pending cleanup, a video put back then can be lost in some continuation of program and users if and only if lineage is off |
| `VideoLoss.CleanupAloneLosesIffLineageOff` | automation-server/video_compression/schedules/compress_videos.py:284-301 | with the delivered output in place the program alone can lose it, again if and only if lineage is off |
| `VideoLoss.ReturnedVideoIsLost` | automation-server/video_compression/schedules/compress_videos.py:295-301 | the whole run from an empty mission: delivery, stop, second video, recovery, loss, with lineage off |
| `ImageMission.Mission.EnsureIngested` | automation-server/image_compression/service.py:252-321 | ingestion succeeds exactly when stated; afterwards the pending source and its marker agree and the quarantine is gone |
| `ImageMission.Mission.ConfirmIngested` | automation-server/image_compression/service.py:263-287 | recovery of an ingested batch: accepted exactly when marker and quarantine allow, and otherwise nothing changes |
| `ImageMission.Mission.IngestSource` | automation-server/image_compression/service.py:289-321 | rename, partial copy, promotion, marker and removal of the quarantine, in that order, each an allowed step |
| `ImageMission.Mission.ClearQuarantine` | automation-server/image_compression/service.py:276 | the quarantine is removed piece by piece, only while its content is held elsewhere |
| `ImageMission.Mission.RemoveMission` | automation-server/image_compression/service.py:759-767 | the mission directory goes in stages, possibly only in part |
| `ImageMission.Mission.PrepareAndStage` | automation-server/image_compression/service.py:669-707 | publishing begins exactly when a copy equal to the results is staged and the destination is free |
| `ImageMission.Mission.Publish` | automation-server/image_compression/service.py:715-747 | the destination becomes the staged tree exactly when it is the recorded one or free; otherwise nothing changes |
| `ImageMission.Mission.CompleteCleanup` | automation-server/image_compression/schedules/process_images.py:524-545 | the mission directory goes only while the destination matches; an unremovable file leaves the cleanup pending |
| `ImageMission.Mission.ProcessMission` | automation-server/image_compression/schedules/process_images.py:573-719 | the status one call ends with, from every status, and that a completed mission delivered its batch |
| `ImageMission.EndsIff` | automation-server/image_compression/schedules/process_images.py:573-719 | a call completes exactly the missions that can end and be removed, leaves those waiting that cannot be removed, and fails the rest |
| `ImageMission.StoppedMissionCompletesIff` | automation-server/image_compression/schedules/process_images.py:573-719 | wherever the program alone was stopped, one more call with faithful copies and a free name completes the mission unless it is stranded |
| `ImageCustody.OriginalNeverLost` | automation-server/image_compression/service.py:252-321 | from the rename on, in every run with partial copies and removals, the batch is whole in quarantine or pending, or the destination matches the recorded manifest and cleanup was reached |
| `ImageCustody.SourceTakenOnce` | automation-server/image_compression/service.py:291-294 | the program touches the source path once, by moving the whole tree to quarantine |
| `ImageCustody.NewcomerUntouched` | automation-server/image_compression/service.py:263-294 | after that, whatever is put at the old source path stays untouched by every step |
| `ImageCustody.PendingSourceOutlivesDelivery` | automation-server/image_compression/service.py:759-767 | the pending source shrinks only in cleanup, while the destination matches |
| `ImageMission.HeldBatchRefusedIff` | automation-server/image_compression/service.py:271-278 | a batch held whole is refused if and only if its quarantine was left half removed before the marker was written |
| `ImageMission.StrandedBatchIsReachable` | automation-server/image_compression/service.py:273-278 | a run of two stops that leads there; no retry leads out |
| `AudioWindows.Stream.NextFrame` | automation-server/video_filter/media.py:268-294 | the next frame is returned exactly when it is sane and overlaps its predecessor by one sample at most |
| `AudioWindows.ReadWindow` | automation-server/video_filter/media.py:295-312 | with at most one frame kept, a window is the clip of all readable frames to its bounds |
| `AudioWindows.AudioWindows` | automation-server/video_filter/media.py:194-322 | windows in seconds are refused exactly when they do not start at zero, touch and last ten seconds at most; otherwise they come in order, each the naive clip, and the whole succeeds if and only if every frame is good, no window has too many samples and the decoder ends well |
| `AudioWindows.Split` | automation-server/video_filter/media.py:288-317 | the loop over windows in samples, with one frame kept between them |
| `AudioWindows.WindowsJoin` | automation-server/video_filter/media.py:295-316 | all windows joined are all frames clipped to the covered range |
| `AudioWindows.ClipsJoin` | automation-server/video_filter/media.py:285-286 | adjacent clips join, because the overlap rule lets only one frame lie across a border |
| `AudioWindows.ClipIsFilter` | automation-server/video_filter/media.py:300-311 | a clip has exactly the samples whose place on the time line lies in it, in order |
| `AudioWindows.RefusedIff` | automation-server/video_filter/media.py:202-205 | windows are refused exactly for a late start, an empty or too long one, or a gap |
| `AudioWindows.LimitTolerates` | automation-server/video_filter/media.py:299-314 | the sample limit is a tenth of a second over the window, within rounding, and rounding alone never exceeds it |
| `AudioWindows.AlignedCovers` | automation-server/video_filter/features/contract.py:70-78 | aligned windows start at zero, touch, are positive and no wider than asked, and end with the media |
| `AudioWindows.SampledWindowsAreAdjacent` | automation-server/video_filter/features/contract.py:70-78 | rounded to samples in any order-keeping way they are what the splitter demands |
| `AudioWindows.SampledAreAdjacent` | automation-server/video_filter/media.py:202-205 | windows the decoder accepts are adjacent in samples, with its rounding to even |
| `AudioWindows.AlignedWindowsJoin` | automation-server/video_filter/features/contract.py:70-78 | aligned windows are never refused, and joined they are every sample from zero to the rounded end of the media |
| `Batching.Adapter.InferBatches` | automation-server/video_filter/features/batching.py:7-35 | one value per item in input order, whichever attempts run out of memory; the limit never grows and halves with every failure; each error has its own cause; termination by items left and limit |
| `Batching.FewFailures` | automation-server/video_filter/features/batching.py:17-27 | fewer attempts can fail than the limit allows items |
| `BatchedExtraction.PerWindow` | automation-server/video_filter/extraction.py:92-149 | the simple loop, piece by piece: each window's row is the weighted mean of its items, its acoustic row comes from the same audio, empty windows are reported and untouched |
| `BatchedExtraction.InPieces` | automation-server/video_filter/extraction.py:95-101 | accumulating pieces of any size gives the mean of the window |
| `BatchedExtraction.Batched` | automation-server/video_filter/batched_extraction.py:39-113 | for every batch size and out-of-memory pattern that completes, rows, acoustic rows and missing windows are those of the simple loop |
| `BatchedExtraction.Gather` | automation-server/video_filter/batched_extraction.py:43-63 | one group's items with their owners, its acoustic rows, and its windows without audio |
| `BatchedExtraction.Spread` | automation-server/video_filter/batched_extraction.py:109-113 | regrouped by owner, each window of a group gets the mean of its own items and no other row changes |
| `BatchedExtraction.Average` | automation-server/video_filter/batched_extraction.py:110-112 | the values whose owner is a window are averaged by weight; a window without any has no mean |
| `BatchedExtraction.Regrouped` | automation-server/video_filter/batched_extraction.py:43-63 | grouping by owner gives every window its own items back, in order |
| `BatchedExtraction.FormsAgree` | automation-server/video_filter/batched_extraction.py:39-113 | two runs of either form leave equal rows |
| `BatchedExtraction.RowsMean` | automation-server/video_filter/extraction.py:92-149 | a written row times its window's weight is the weighted sum and is marked valid; a window without items keeps its row |
| `BatchedExtraction.PiecewiseMean` | automation-server/video_filter/extraction.py:95-101 | averaging frames piece by piece weighted by length is the mean of all, for every piece size |
| `BatchedExtraction.AudioIsCovered` | automation-server/video_filter/batched_extraction.py:59-63 | audio pieces are the audio, in order, of bounded length; only silence has none |
| `Pooling.Probability` | automation-server/video_filter/mil.py:244-275 | for every chunk size the score is that of the network on the whole bag, strictly between zero and one, so the final check never refuses, and its odds are the exponential of the weighted sum of pooled features and bias |
| `Pooling.OddsAreExponential` | automation-server/video_filter/mil.py:268 | the odds of the score are the exponential of the logit, one half at logit zero |
| `Pooling.ScoreGrows` | automation-server/video_filter/mil.py:268 | a larger logit gives a larger score |
| `Pooling.WeightsSumToOne` | automation-server/video_filter/mil.py:63-66 | the attention weights sum to one |
| `Pooling.WeightsCompare` | automation-server/video_filter/mil.py:63-66 | they are positive and in the ratio of the exponentials of their scores |
| `Pooling.PooledFollows` | automation-server/video_filter/mil.py:63-66 | a row contributes to a pooled coordinate its weight times its value |
| `Pooling.DotFollows` | automation-server/video_filter/mil.py:244-275 | the logit follows every feature by its weight |
| `Pooling.BagFeatures` | automation-server/video_filter/mil.py:81-100 | for every non-empty bag and positive chunk size each pooled coordinate is that of whole-bag softmax pooling; the two bad inputs are refused |
| `Pooling.Absorb` | automation-server/video_filter/mil.py:87-99 | one more chunk: maximum, rescaled denominator and numerator represent the longer prefix exactly, the denominator at least one |
| `Pooling.First` | automation-server/video_filter/mil.py:93-94 | the first chunk alone is represented exactly, its denominator at least one |
| `Pooling.QuotientIsPooled` | automation-server/video_filter/mil.py:63-66 | numerator over denominator, measured from any point, is the softmax-weighted sum |
| `Pooling.SumRescaled` | automation-server/video_filter/mil.py:96-98 | rescaling by the exponential of the difference re-bases the weighted sum |
| `Pooling.AtLeastOne` | automation-server/video_filter/mil.py:278-300 | measured from the maximum the weights sum to at least one |
| `Naming.SafeIsComponent` | automation-server/image_compression/naming.py:55-63 | a safe name is not empty, `.` or `..` and has no invalid character, for any Unicode tables |
| `Naming.CleanedIs` | automation-server/image_compression/naming.py:55-62 | a name loses dots and spaces at its end, invalid characters become underscores, nothing left becomes `_unnamed`, a reserved stem gets an underscore in front |
| `Naming.LastPartCounts` | automation-server/image_compression/naming.py:56 | only what follows the last slash of either kind counts |
| `Naming.TruncatedKeepsEnds` | automation-server/image_compression/naming.py:47-52 | a name beyond 240 characters loses the end of its stem, down to one character, and keeps its suffix |
| `Naming.NumberedKeepsEnds` | automation-server/image_compression/naming.py:66-105 | a numbered name is `D`, the number in decimal, `_`, and the name, its stem cut only for lack of room |
| `Naming.LengthBoundedIff` | automation-server/image_compression/naming.py:47-52 | cutting keeps a name within 240 characters if and only if it was short or its suffix is shorter than that |
| `Naming.LongSuffixIsNotCut` | automation-server/image_compression/naming.py:47-63 | a name of 241 characters that stays as long as it is |
| `Naming.PrefixedBoundedIff` | automation-server/image_compression/naming.py:66-70 | a prefixed name keeps the limit if and only if prefix and suffix leave room for one character of stem |
| `Naming.NumberedBoundedIff` | automation-server/image_compression/naming.py:66-105 | the same for a number: its digits, `D`, `_` and the suffix |
| `Naming.SecondNameTooLong` | automation-server/image_compression/naming.py:99-108 | two files of one name of 239 characters, of which the second gets a name beyond 240 |
| `Naming.MarksTellNumbers` | automation-server/image_compression/naming.py:101-106 | numbered names of different numbers have different keys wherever the tables keep the digits up to the underscore |
| `Naming.PlainNamesKeepMarks` | automation-server/image_compression/naming.py:43-44 | so the assumption about the tables can be met |
| `Naming.CleanStays` | automation-server/image_compression/naming.py:55-63 | cleaning leaves a usable name as it is |
| `Naming.SearchEnds` | automation-server/image_compression/naming.py:101-108 | the search for a number finds a free one within one try more than there are taken names |
| `Naming.KeysAreMany` | automation-server/image_compression/naming.py:101-108 | as many numbers as are tried give as many different keys |
| `Naming.NamesDiffer` | automation-server/image_compression/naming.py:95-110 | any two allocated names differ under the collision key |
| `Naming.OneName` | automation-server/image_compression/naming.py:95-110 | the first of a name keeps it; any other name is nobody's original and not given before |
| `Naming.OrderDoesNotMatter` | automation-server/image_compression/naming.py:83-89 | with different provenances the result is the same for every order of the candidates |
| `NameAllocation.FindNumber` | automation-server/image_compression/naming.py:101-108 | the loop returns the least free number's name |
| `NameAllocation.Allocate` | automation-server/image_compression/naming.py:82-111 | the loop over sets and counters computes the specified allocation |
| `NameAllocation.NamesCollideNever` | automation-server/image_compression/naming.py:82-111 | any two candidates of a call get names with different keys |
| `NameAllocation.NoNameIsTaken` | automation-server/image_compression/naming.py:90-108 | a name that is not a candidate's own original is no candidate's original |
| `NameAllocation.FirstKeepsItsName` | automation-server/image_compression/naming.py:99-100 | the candidate served first of a base name keeps it |
| `NameAllocation.NamedAfterItself` | automation-server/image_compression/naming.py:82-111 | every candidate is called by its own safe name, or a numbered form of it, and by the safe name itself if nobody else has that key |
| `TreeNaming.BuiltHas` | automation-server/image_compression/naming.py:119-126 | the tree holds exactly the given leaves, each under its own chain of directory keys |
| `TreeNaming.AllocateTreePaths` | automation-server/image_compression/naming.py:114-144 | every leaf, and nothing else, gets the path its own chain leads to, with a part for each directory and one for the file, each named after itself |
| `TreeNaming.FileIsNamedAfterItself` | automation-server/image_compression/naming.py:134-141 | the last part of a leaf's path is its own safe base name or a numbered form of it, and the safe name itself when no file or directory beside it has its key |
| `TreeNaming.DirectoryIsNamedAfterItself` | automation-server/image_compression/naming.py:130-139 | every other part is the safe or numbered name a leaf gives that directory, and the leaf's own safe name for it when all agree and nothing beside it has its key |
| `TreeNaming.LoneFileKeepsItsName` | automation-server/image_compression/naming.py:114-144 | a single file gets its own safe name as its whole path |
| `TreeNaming.DirectoriesComeFirst` | automation-server/image_compression/naming.py:130-136 | plain directories are served before files, and files before archives |
| `TreeNaming.PlainDirectoryKeepsItsName` | automation-server/image_compression/naming.py:130-139 | so a plain directory that shares its key with files and archives only keeps its safe name |
| `TreeNaming.Walk` | automation-server/image_compression/naming.py:129-143 | the recursive walk over a tree gives every leaf below a node its path |
| `TreeNaming.LeavesArePrefixFree` | automation-server/image_compression/naming.py:114-144 | of any two leaves' paths neither equals nor is an ancestor of the other under the collision key |
| `TreeNaming.DirectoriesArePlacedApart` | automation-server/image_compression/naming.py:130-139 | different chains of directories become different directories |
| `TreeNaming.PathIsInDirectory` | automation-server/image_compression/naming.py:138-141 | equal chains share one directory |
| `TreeNaming.PathIsSafe` | automation-server/image_compression/naming.py:129-141 | no component of a path is empty, `.` or `..` |
| `Archives.CollectLeaves` | automation-server/image_compression/service.py:354-450 | the queue runs empty; every archive inside an archive is opened, every file but desktop metadata becomes one leaf, in the order of provenance, within the member budget; every archive passed inspection |
| `Archives.LeafIff` | automation-server/image_compression/service.py:376-440 | the leaves found in archives are exactly their ordinary files |
| `Archives.ChildIff` | automation-server/image_compression/service.py:434-438 | exactly the archives inside opened archives are opened, one level deeper |
| `Archives.ArchiveNameIff` | automation-server/image_compression/policy.py:90-96 | archives are told by the sixteen suffixes, in any case |
| `Archives.MetadataIff` | automation-server/image_compression/service.py:429-431 | what is skipped has a part `__MACOSX` or one that begins with `._` |
| `Archives.Inspect` | automation-server/image_compression/archive.py:103-129 | the loop accepts exactly listings without unsafe names, encryption, links or bad sizes, counts members and bytes, and otherwise reports the first refusal |
| `Archives.CleanIff` | automation-server/image_compression/archive.py:103-127 | a listing passes exactly when every named member is safe, not encrypted, no link, and of readable size unless it is a folder |
| `Archives.UnsafeIff` | automation-server/image_compression/archive.py:92-101 | an ordinary relative path is refused exactly for a step upwards or a drive letter, an absolute or empty one always |
| `Archives.GoesTooFarIff` | automation-server/image_compression/archive.py:36-44 | an archive stops the collection exactly when it lies deeper than 16, is not clean, has no room, cannot be opened, or takes the totals beyond 100,000 members, 500 GiB or a ratio of 1000 |
| `Archives.SafeStaysInside` | automation-server/image_compression/archive.py:92-101 | a name that passes the check resolves inside the directory it is extracted into |
| `Archives.OpenedStaysInside` | automation-server/image_compression/archive.py:131-136 | so does every member of every archive that was opened |
| `Archives.CollectedNamesDiffer` | automation-server/image_compression/service.py:442-500 | leaves have keys of their own, and the names allocated for them never collide |
| `Archives.Budget.Add` | automation-server/image_compression/archive.py:36-44 | the three cumulative limits, counted before they are checked |
| `Archives.SelfContainingIsRefused` | automation-server/image_compression/archive.py:131-133 | no complete collection can contain an archive that contains itself |
| `Feedback.ExactlyOnce` | automation-server/video_filter/feedback.py:66-168 | in every run with stops and replays, journalled feedback is pending, applied exactly once, or archived and never applied |
| `Feedback.ChainIsGapFree` | automation-server/video_filter/feedback.py:37-51 | every event of an asset starts where the one before it ended, up to the present revision |
| `Feedback.RunKeepsInv` | automation-server/video_filter/feedback.py:25-168 | the invariant behind both |
| `Feedback.AppliedAgain` | automation-server/video_filter/feedback.py:32-36 | applying what was applied changes nothing and is no conflict |
| `Feedback.ApplyKeepsSound` | automation-server/video_filter/feedback.py:37-51 | keys stay unique, chains gap-free, and every asset shows the revision and label of its last event |
| `FeedbackJournal.Journal.Write` | automation-server/video_filter/feedback.py:71-106 | a record is accepted, found again or refused, and publication is all or nothing |
| `FeedbackJournal.Journal.ApplyFeedback` | automation-server/video_filter/feedback.py:25-63 | the transaction: replay, conflict, invalid or one new event and revision |
| `FeedbackJournal.Journal.Submit` | automation-server/video_filter/feedback.py:108-131 | journal, database, then removal: what is left after success and after each refusal |
| `FeedbackJournal.Journal.ReplayOne` | automation-server/video_filter/feedback.py:137-167 | what one file comes to and leaves; overtaken feedback is archived, never lost |
| `FeedbackJournal.Journal.Replay` | automation-server/video_filter/feedback.py:133-168 | every listed file is counted once, and the conflicts are exactly the files still pending |
| `FeedbackJournal.NewFeedbackCountsIff` | automation-server/video_filter/feedback.py:37-51 | new feedback counts exactly when it was given for the label as it stands, and then adds one event and one revision and touches no other asset |
| `FeedbackJournal.KnownFeedbackIsCompared` | automation-server/video_filter/feedback.py:32-36 | feedback under a known key changes nothing and is refused unless it is the same |
| `FeedbackJournal.NewRecordReplayed` | automation-server/video_filter/feedback.py:142-163 | a replayed record is applied, archived or left exactly by how its revision compares with the asset's |
| `FeedbackJournal.AppliedRecordReplayed` | automation-server/video_filter/feedback.py:142-147 | a record applied before a stop is only taken out of the journal |
| `FeedbackJournal.RefusedRecordStays` | automation-server/video_filter/feedback.py:151-167 | what cannot be feedback, or finds other contents in the archive, stays pending |
| `Learning.AcceptsIff` | automation-server/video_filter/learning.py:84-102 | an item taken from the history is accepted if and only if no later event carries another label |
| `Learning.AcceptedHasNoGap` | automation-server/video_filter/learning.py:96-102 | in any database, sound or not, an accepted item is backed by one confirming event for every later revision |
| `Learning.SnapshotStandsIff` | automation-server/video_filter/learning.py:84-102 | the same for an item taken at any moment of a run and checked at its end |
| `Learning.RequireCurrent` | automation-server/video_filter/learning.py:84-102 | the loops accept a snapshot exactly when none of its labels was corrected since |
| `Learning.ChecksAgree` | automation-server/video_filter/learning.py:75-81 | the other check refuses exactly what this one refuses, and what the training data does not list |
| `Learning.ChangedIffCorrectedBefore` | automation-server/video_filter/learning.py:61-81 | with the snapshot, the training data and the log read at three moments of a run, it reports a change if and only if the data lacks the asset or a correction came between the first two |
| `Learning.HistoryIsComplete` | automation-server/video_filter/learning.py:61-72 | the events collected since a revision are every later one, once, in order |

## Left out

- Row history: the largest budget of past leases with one profile is an input of a request, not computed from released rows.
- The process-wide cache of driver samples: any sample, of any age, is allowed instead; decision logs and diagnostics are left out.
- Heartbeat errors for lost leases, and the death of the supervising process itself, after which other processes may reclaim its leases.
- Leases granted before a task starts (`resource_granted`) and their early release in classification; only phase-managed tasks are modelled.
- GpuPhase: the worker's side of the state machine is modelled on values; `WorkerPhases` has its loop and counters in place.
- The time-out of the one-shot worker is the step that gives up; its length and all other durations are not modelled.
- `begin_operation` and the files behind `hash_stable`: digests and their stability are inputs of the lineage operations.
- Savepoints and integrity errors of the lineage insert, which the lock rules out.
- `check_gate` and the location table of the transfer: their answers are inputs.
- Errors of unlinking a file in video compression, and of the database commits themselves.
- The retry of failed image missions, legacy assets, and everything inside `prepare_batch` but collecting leaves: the processed batch is an input.
- Interrupts that are not exceptions: a worker stopped by one inside a phase reports a release.
- AudioWindows.AudioWindows: the scope guard is not modelled; the watchdog appears only as the fault a wait ends with.
- The audio cache and the check of vector shapes in extraction; grouping audio pieces by length inside one model call.
- TreeNaming.AllocateTreePaths: the tree is a value built by insertion, so updating nodes in place and aliasing are not captured.
- Archives.CollectLeaves: that a single source file is copied, the directory segments of a leaf and names planned from the image format are not modelled.
- Feedback: flags on active models and outcome records of an event; the temporary file of a journal write, which replay never reads.
- Scans and deletion inference, dashboards, routes, configuration, migrations, model caches, attempt counters, interval statistics and bitrate policy: plumbing, or easier than what is here.
