# Verified model of the studio's job and record engine

The studio keeps its state in JSON files: connections, derivatives, approvals, publish and metric jobs, content
items with their revisions and channel variants, metric observations with their corrections. Every change goes
through one read-mutate-write section under a file lock, and several processes (a dashboard and workers) run such
sections against each other, with leases, retries and crashes. This project models that engine in Dafny and proves
what the sections, and whole runs of them, keep.

How the model is laid out:

- `LockedStore.dfy` is the file protocol of `channel_storage.py` as a state machine: processes interleave lock,
  read, backup, temporary write, flush, rename and unlock, and any of them may time out, raise or die anywhere. It
  refines "apply the mutators one after another", which is what every other module builds on (`Mutators.dfy`).
- `PublishQueue.dfy`, `MetricQueue.dfy`, `ConnectHandshake.dfy`, `Approvals.dfy`, `Variants.dfy`, `Content.dfy`,
  `ObservationLedger.dfy` and `Attributions.dfy` each hold a list of records, an operation type, the function
  `Apply` that says what one operation does to the list, lemmas over runs (`Replay`), and a class whose methods do
  the work the way the source does it, with loops and field updates, proved equal to `Apply`.
- `ReadModel.dfy` is the reading side of analytics, `FrontMatter.dfy` the Markdown front matter printer and parser.
- `Text.dfy`, `Metadata.dfy`, `Records.dfy`, `Instants.dfy`, `Choice.dfy`, `Sorting.dfy`, `Jobs.dfy` and
  `Prelude.dfy` are what the others share.

Besides what runs keep, each operation has a lemma that says what it leaves, field by field and in terms of the records
as they were found: names such as `ClaimGrants`, `UpdateLeaves`, `IngestedSayTheirInputs` or `CreationStores`.

Conventions. Clock readings, generated ids, lock attempts and everything a function learns from another component
are arguments of the operations, so a statement about all runs is a statement about all clocks and all answers;
where ids must be new, a `Permitted` predicate says so. Time is a count of microseconds, and a stored text that
cannot be parsed as a date is a value of its own. Hashes are injective, so a checksum is the tuple it hashes. An
exception out of a mutator is the outcome `Raised`, which writes nothing.

What turned out not to hold is stated with its exact condition, over whole runs wherever the property is about
runs (`Throughout` a run `<==>` every operation is `Legal` for the state it meets):

| property | holds exactly when | an input on which it fails |
|---|---|---|
| a channel has one active publish job | each active job is written where no other is active; a creation, when the guard's look still finds none at the append (`OneActiveExactly`, `CreationFitsIff`) | `TwoRequestsPassTheGuard` |
| a channel has one running publish job | each running job is written where no other runs (`ExclusionExactly`) | `StaleCopyBreaksExclusion` |
| a lost lease stays lost | no claim starts the job for its old worker and no write hands it back (`FencedExactly`) | `StaleCopyRevivesTheLease` |
| queued jobs have attempts left | every write is within budget (`BudgetExactly`) | `BusyProfileOverspends` |
| each step takes an attempt for a start and gives none | each write leaves the job at most the attempts it has on file (`AttemptsExactly`) | `StaleCopyRefundsAnAttempt` |
| a slot has one metric job | each append, and each save of an active or successful job, finds its slot free (`OnePerSlotExactly`, `AppendFitsIff`) | `SplitEnqueueCanDouble` |
| an approved derivative has an active approval and reads as it was last approved | each copy that is saved as approved does (`InvExactly`) | `PlannerNeedsNoApproval`, `OutdatedCopyPassesTheGuard` |
| a publish job is for approved text | the jobs appended without a guard are (`BackedExactly`) | `PlannerNeedsNoApproval` |
| a queued job publishes the approved text | every later operation keeps the wording (`QueuedTextExactly`) | `EditAfterQueueing` |
| an active approval certifies the text | every operation that finds it active keeps the wording (`RecordCertifiesExactly`) | `EditAfterQueueing` |
| a resolved variant fits the revision | no variant is named, or the named one fits (`AnswerFitsIff`) | `ExplicitVariantIsNotChecked` |
| there is no choice between ready variants | candidates carry one workspace id (`CandidatesCoincideIff`) | `ChoiceIsReachable` |
| a ready variant's text suits its channel | no update edits a suitable text into an unsuitable one (`ReadyTextSuitsExactly`) | `UncheckedTextIsReady` |
| an item's current revision is its last | each copy of an item that is saved names the last (`CurrentsExactly`) | `OutdatedItemGoesBack` |
| a restore gives the wording back | the body has no CR LF (`RestoreGivesItBack`) | a body with CR CR LF when it was stored (`ReplaceLeavesCrLfIff`) |
| a restore gives the checksum back | normalising the body leaves no CR LF and the item's source is still the revision's (`RestoreGivesItBack`) | `NewSourceChangesTheChecksum`, bodies with CR CR LF |
| a correction keeps the number of active observations | the new key is unused just if the original was active (`CorrectionBalance`) | `SameValueIsLost`, `CorrectedTwiceCountsTwice`; cut short by a death, `CorrectionCutShort` |
| a correction replaces its original as the latest | ids, which decide on equal times, agree (`CorrectionTakesEffectIff`) | a new id smaller than a tied one's |
| revisions add up to the content | the deciding channels agree (`ContentAddsUpIff`) | `FirstChannelDecides` |
| a Markdown file gives back metadata and body | neither has a CR, the marker comes first and the body does not start with a line feed (`MetadataFileRoundTrip`, `BodyFileRoundTrip`) | a body with CR LF in it |

## Model

| member | source | states |
|---|---|---|
| LockedStore.Linearizable | channel_storage.py:109-178 | under any interleaving, timeouts, exceptions and deaths, the file holds a whole payload, or is untouched, and equals the finished mutators applied one by one in lock order, each having seen exactly what its predecessors left |
| LockedStore.NoUpdateLost | channel_store.py:111-118 | a caller whose section was decided finds its operation and outcome in the history for good; everything later is applied on top |
| LockedStore.ResetOnlyFromCorrupt | channel_storage.py:154-178 | the corrupt-file reset is reached only if the file was corrupt to begin with, and never after a section has finished |
| LockedStore.NoGarbageAfterASection | channel_storage.py:154-178 | once any section has finished the file is JSON of the right type, whatever it was before |
| LockedStore.MutualExclusion | channel_storage.py:40-77 | no two processes are inside the section together, however locks are granted, timed out or dropped by a death |
| LockedStore.FileKeeps | channel_store.py:111-118 | a property that every allowed mutator keeps is kept by the file under any interleaving and failures |
| LockedStore.Solo | channel_storage.py:123-152 | the protocol steps of one undisturbed process leave exactly the file that the class method below leaves |
| LockedStore.AcquireLoop | channel_storage.py:40-68 | the retry loop grants at the first attempt that finds the lock free, unless an earlier one found it taken at or past the deadline; at least one attempt is made |
| LockedStore.TimeoutsAreIdle | channel_storage.py:40-68 | a wait times out only while somebody holds the lock, and changes nothing else |
| LockedStore.JsonStore.Write | channel_storage.py:123-152 | temporary file, flush, rename: the file is the new payload in full |
| LockedStore.JsonStore.ReadUnlocked | channel_storage.py:161-178 | missing and blank files read as the default, corrupt ones are backed up and replaced by it, others are read as they are |
| LockedStore.JsonStore.Enter | channel_storage.py:109-112 | nothing is read or written unless the lock is granted |
| LockedStore.JsonStore.Mutate | channel_store.py:111-118 | on a timeout nothing changes; otherwise the outcome is the mutator's on the payload found, written back only when it reports a change |
| Mutators.LiftRefines | channel_store.py:80-95 | list elements that build no record change nothing for the records, and the first change drops them |
| Mutators.DeserializeSerialize | channel_store.py:80-95 | records survive being written and read |
| Mutators.KeptExactly | channel_store.py:111-118 | where each mutation keeps a property exactly if it fits the list it finds, a run keeps it throughout exactly if each mutation fits the list it meets |
| Records.UpsertInPlace | channel_store.py:122-128 | the loop replaces the first record with the key, or appends |
| Instants.LeaseLasts | channel_store.py:145-153 | a granted lease is live at once and ends at a whole second, later than s-1 and at most s seconds after that for s = max(seconds, 1), for all clocks |
| Choice.SortByKey | channel_store.py:157-163 | the sorted list is a permutation of the candidates, by key, ties by position |
| Choice.FirstAllowed | channel_store.py:455-470 | the loop over sorted candidates finds the first one in (key, position) order that is not passed over |
| Choice.BestIsUnique | channel_store.py:455-470 | the first allowed position in (key, position) order is unique, so loop and specification agree |
| PublishQueue.RecoveredShape | channel_store.py:402-429 | recovery keeps ids, channels, live leases and sort keys, and a job is eligible afterwards exactly when it was wanted in the list as found |
| PublishQueue.ClaimMeetsSpec | channel_store.py:433-475 | the claim returns the wanted job that is first by (requested time, position), started from the record that recovery left, none exactly when none is wanted; only expired jobs in scope and the winner change; ids keep their order |
| PublishQueue.ClaimGrants | channel_store.py:455-471 | the job a claim hands out is on file, runs, is held by its worker under a lease of the length asked for, has one attempt more than it had and no error, says now in its stamps, and is otherwise as it was found |
| PublishQueue.OldestIsClaimed | channel_store.py:157-163 | no wanted job was requested, or created where the request cannot be read, before the one that is claimed, nor stands before it with the same time |
| PublishQueue.LostLeaseOutcome | channel_store.py:402-429 | a job whose lease is over waits for manual verification if it may have been submitted live, has failed if no attempt is left, and otherwise is in the queue again or started by this claim; each with its error, stamps and holder, and the rest as it was |
| PublishQueue.ClaimIgnoresKeyClocks | channel_store.py:157-163 | with readable time stamps the claim does not depend on when a sort key looked at the clock |
| PublishQueue.ClaimKeepsExclusion | channel_store.py:433-475 | a claim, filtered or not, at any clock, never gives a channel a second running job |
| PublishQueue.SaveKeepsExclusionIff | channel_store.py:372-391 | writing a whole record back keeps exclusion exactly when it is not running, or no other job of its channel runs |
| PublishQueue.ExclusionForever | channel_store.py:433-495 | in every run of claims, heartbeats on expired leases too, guards and writes, at any clocks, a channel has at most one running job |
| PublishQueue.ExclusionExactly | channel_store.py:372-495 | a run keeps exclusion throughout exactly if every running job is written where no other of its channel runs |
| PublishQueue.ExclusiveFile | channel_store.py:111-118 | the same for the job file shared by processes that interleave file steps and die |
| PublishQueue.OneActiveExactly | channel_store.py:372-495 | a run of claims, heartbeats, looks and writes keeps one active job per channel throughout exactly if every active job is written where no other of its channel is active |
| PublishQueue.CreationFitsIff | channel_actions.py:241-287 | a creation keeps one active job per channel exactly if the guard's look, repeated at the append, finds none |
| PublishQueue.TwoRequestsPassTheGuard | channel_actions.py:241-287 | a run in which two requests both find no active job and both append one |
| PublishQueue.StaleCopyBreaksExclusion | channels/linkedin/worker/publish.py:425-441 | a concrete run of two new jobs with two attempts each: the first is started twice, fails at its second lost lease, the second job starts, and the second worker's outdated copy written back makes both run |
| PublishQueue.ClaimSpendsMeasure | channel_store.py:402-475 | a claim lowers the sum of 2*(attempts left) + [running] by the recovered leases plus one if it claims, so every call that writes lowers it |
| PublishQueue.BudgetForever | channel_store.py:402-429 | queued jobs always have attempts left and no job exceeds its limit |
| PublishQueue.BudgetExactly | channel_store.py:372-475 | a run stays within budget throughout exactly if every write is |
| PublishQueue.CrashingFleetSettles | channel_store.py:402-475 | workers that always die after claiming change the store at most as often as the measure allows |
| PublishQueue.RunCountsAttempts | channel_store.py:459-470 | over a run whose writes leave the job its attempts, it loses exactly one for each time it is started |
| PublishQueue.AttemptsAreBounded | channel_store.py:402-475 | no job is started more often than it has attempts left, however often workers write it, as long as no write gives an attempt back |
| PublishQueue.AttemptsExactly | channel_store.py:372-475 | in a run every step takes an attempt for a start of the job and gives none exactly if each write to it leaves it at most the attempts it has on file |
| PublishQueue.StaleCopyRefundsAnAttempt | channels/linkedin/worker/publish.py:312-322 | a run in which an outdated copy put back in the queue has a job with two attempts started three times |
| PublishQueue.BusyProfileOverspends | channels/linkedin/worker/publish.py:312-322 | requeueing a job whose browser profile is busy stays within budget exactly when an attempt is left; on the last one the next claim exceeds the limit |
| PublishQueue.CommittedStep | channel_store.py:402-412 | losing the lease of a submitted live job can only move it to manual verification, with both flags set |
| PublishQueue.NeverRepublished | channel_store.py:402-475 | a running live job with submission evidence is never queued or started again in any run |
| PublishQueue.CommittedExactly | channel_store.py:372-475 | a submitted job stays out of the queue throughout a run exactly if no write queues it or takes its evidence away while it runs |
| PublishQueue.HeartbeatFrame | channel_store.py:479-495 | a heartbeat changes the two lease fields of one running job that its worker holds, nothing else |
| PublishQueue.BeatRenews | channel_store.py:479-495 | an accepted heartbeat renews the lease by the length asked for and the heartbeat stamp, of one running job that is its worker's or nobody's |
| PublishQueue.HeartbeatAcceptedIff | channel_store.py:479-495 | a heartbeat goes through exactly if the job runs and is its worker's or nobody's |
| PublishQueue.FencedExactly | channel_store.py:433-495 | a job in other hands stays out of a worker's throughout a run exactly if no claim starts it for that worker and no write hands it over; the worker may claim other jobs and the holder may write this one |
| PublishQueue.LostLeaseStaysLost | channel_store.py:479-495 | in such a run none of the old worker's heartbeats is accepted, whatever expires and is reclaimed meanwhile |
| PublishQueue.StaleCopyRevivesTheLease | channels/linkedin/worker/publish.py:425-441 | a run in which the old worker's copy, written over the reclaimed job, has its heartbeats accepted again, while exclusion is kept |
| PublishQueue.PublishJobs.RecoverExpired | channel_store.py:436-441 | the loop recovers exactly the expired running jobs in scope and reports whether there were any |
| PublishQueue.PublishJobs.ClaimNextJob | channel_store.py:433-475 | recover, collect busy channels, sort, claim: list and reply are those of `Apply` |
| PublishQueue.PublishJobs.HeartbeatJob | channel_store.py:479-495 | the loop to the job and its checks: list and reply are those of `Apply` |
| PublishQueue.PublishJobs.SaveJob | channel_store.py:372-378 | list and reply are those of `Apply` |
| MetricQueue.OnePerSlotExactly | channel_actions.py:303-334 | look and append being two lock holds, and workers saving whole copies, outdated or not: a run keeps one active or successful metric job per (post, scheduled time) throughout exactly if each append, and each save of such a job, finds its slot free |
| MetricQueue.AppendFitsIff | channel_actions.py:303-334 | an append keeps it exactly if the look, repeated at the append, finds nothing |
| MetricQueue.OnePerSlotForever | channel_actions.py:303-334 | so it holds in every run of whole enqueue operations in which no worker's copy takes a slot that another job has |
| MetricQueue.NeverEarly | channel_store.py:597-632 | in every run, whatever is saved, no claim starts a metric job with a readable schedule before its clock has reached it |
| MetricQueue.NoneEarlyExactly | channel_store.py:597-632 | no job is on file as running with a stamp before its due second throughout a run exactly if no worker saves one |
| MetricQueue.ClaimMeetsSpec | channel_store.py:597-632 | the claim starts the due candidate first by (key, position), none exactly when there is none, and otherwise only recovers |
| MetricQueue.ClaimGrants | channel_store.py:597-632 | a job is handed out exactly if one is wanted: queued or due to be queued again, in scope and not before its schedule; it runs, is held under a lease of the length asked for, with one attempt more, and is otherwise as it was found |
| MetricQueue.EarliestIsClaimed | channel_store.py:614-615 | no wanted job has an earlier time, its schedule, request or creation, than the one that is claimed, nor stands before it with the same time |
| MetricQueue.LostLeaseOutcome | channel_store.py:575-593 | a job whose lease is over has failed if no attempt is left, and otherwise is in the queue again or started by this claim |
| MetricQueue.HeartbeatAnswers | channel_store.py:636-652 | a heartbeat goes through exactly if the job runs and is its worker's or nobody's, and otherwise is told of the job just if no other worker has it |
| MetricQueue.BeatRenews | channel_store.py:636-652 | an accepted heartbeat renews the lease by the length asked for and the heartbeat stamp |
| MetricQueue.LookFindsIff | channel_actions.py:306-310 | the look finds a job exactly if one of the post has that very schedule and is queued, running, waiting for a login or for verification, or successful |
| MetricQueue.AppendStores | channel_actions.py:311-322 | a new job is queued for its post and channel with both attempts left, scheduled as asked or for now, held by nobody |
| MetricQueue.SplitEnqueueCanDouble | channel_actions.py:303-334 | a run of two looks and two appends in which both looks find nothing and both jobs are stored |
| MetricQueue.MetricJobs.FindOccupant | channel_actions.py:306-310 | the loop finds an active or successful job of the slot exactly when there is one |
| MetricQueue.MetricJobs.AppendJob | channel_store.py:553-558 | the new job is stored as `Apply` says |
| MetricQueue.MetricJobs.SaveJob | channel_store.py:553-558 | the list is that of `Apply`: the worker's whole copy replaces the record |
| MetricQueue.MetricJobs.EnqueueJob | channel_actions.py:303-334 | look, then append, with nobody in between: an occupant is returned and nothing stored, otherwise the new job is |
| MetricQueue.MetricJobs.ClaimNextJob | channel_store.py:597-632 | recover, sort, skip what is not due, claim: list and reply are those of `Apply` |
| MetricQueue.MetricJobs.HeartbeatJob | channel_store.py:636-652 | list and reply are those of `Apply` |
| ConnectHandshake.OneWinner | channel_store.py:228-298 | in every run of begins, claims, status reports and finishes with new action ids, all successful claims of an action are by one worker |
| ConnectHandshake.PendingExactly | channel_store.py:238-262 | a pending connect stays the pending one throughout a run exactly if its channel is neither finished nor reported in another status; begins and claims do not end it |
| ConnectHandshake.PendingStays | channels/linkedin/worker/publish.py:29-50 | and all that time it keeps the worker that has claimed it |
| ConnectHandshake.SupersededForGood | channel_store.py:279-298 | an action that is no longer open is never claimable again |
| ConnectHandshake.BeginSupersedes | channel_store.py:238-275 | a begin leaves the action that was there open exactly when it was pending |
| ConnectHandshake.BeginLeaves | channel_store.py:238-275 | a begin answers that its action is new exactly if no connect is pending, and then opens it with no worker; a pending one it leaves as it is but for the time |
| ConnectHandshake.ClaimLeaves | channel_store.py:282-296 | a claim goes through exactly if the channel's connect is pending with that action and nobody else's, and changes who holds it and two times |
| ConnectHandshake.StatusLeaves | channels/linkedin/worker/publish.py:29-50 | a status report stores its status, error and mode and leaves the action, the connect worker's last write clears it |
| ConnectHandshake.ConnectionList.BeginConnect | channel_store.py:228-276 | list and reply are those of `Apply` |
| ConnectHandshake.ConnectionList.ClaimConnect | channel_store.py:279-298 | list and reply are those of `Apply` |
| Approvals.ActiveApproval | channel_store.py:337-341 | none exactly when no approval of the derivative is active, otherwise the newest active one |
| Approvals.DerivativeLeaves | channel_actions.py:129-224 | each operation on a derivative gives it its own status and leaves the rest, but for the time and an edit's stripped body and title, where a blank title keeps the old one |
| Approvals.GeneratedIsDraft | channel_actions.py:91-104 | what is generated is a draft under a new id with its body stripped |
| Approvals.DecisionLeaves | channel_actions.py:159-224 | a decision revokes the approval that was active and records an approval or a rejection by its approver; no other approval changes |
| Approvals.WritersStore | publication_planning.py:697-739 | a derivative or job that other code writes is stored as it is, and no other record changes |
| Approvals.InvExactly | channel_actions.py:129-223 | with saves of whole copies by other code among the operations: every approved derivative has an active approval and reads as at its latest approval, throughout a run, exactly if each copy that is saved as approved does |
| Approvals.InvForever | channel_actions.py:129-223 | so it holds after every run whose approved copies do; and each derivative has at most one active approval |
| Approvals.GuardedByOneRecord | channel_actions.py:227-287 | in every run, whatever is saved, create_publish_job_from_derivative creates a job only for a derivative that is approved by exactly one active record |
| Approvals.CreationGoesThroughIff | channel_actions.py:227-271 | a job is created exactly if derivative, mode, channel, connection, approval, the channel's other jobs, its text and earlier posts all allow it |
| Approvals.CreationStores | channel_actions.py:274-287 | the new job has the mode, channel, derivative and id of the request, is queued with both attempts left, held by nobody, with no evidence and no error; other jobs are as before |
| Approvals.JobsAreForApprovedText | channel_actions.py:227-287 | where the copies saved as approved read as approved, create_publish_job_from_derivative creates a job only for a derivative that reads, word for word, as it was last approved |
| Approvals.BackedExactly | publication_planning.py:711-739 | in such a run every job put on file is for text that was approved exactly if those the planner appends without a guard are |
| Approvals.PlannerNeedsNoApproval | publication_planning.py:697-739 | a run of two steps in which the planner saves a derivative as approved and appends a job for it, with no approval on record |
| Approvals.OutdatedCopyPassesTheGuard | media_runtime.py:194-201 | a run in which a worker's copy from the first approval is saved after an edit and a second approval, and a job is created for the first text |
| Approvals.OneActiveExactly | channel_store.py:345-351 | however the saves of approvals and rejections interleave, a derivative has at most one active approval throughout exactly if each active record is saved where no other is active |
| Approvals.QueuedTextExactly | channels/linkedin/worker/publish.py:343-442 | from a publish job's creation on, its derivative reads as it did then (as approved, in a run that fits) throughout exactly if every later operation, saves of whole copies included, keeps that wording; when the job runs it reads what later operations have made of it |
| Approvals.RecordCertifiesExactly | channel_actions.py:129-223 | from an approval on and until the next one an active record certifies the approved text throughout exactly if every operation that finds it active, saves of whole copies included, keeps the wording |
| Approvals.EditAfterQueueing | channel_actions.py:129-142 | after an edit of the body the job is still queued and the record still active, and the derivative reads otherwise than approved |
| Approvals.EditAfterQueueingHappens | channel_actions.py:129-299 | and that occurs in a run from the empty desk: generate, approve, create the job, edit |
| Approvals.WorkflowDesk.SaveEdit | channel_actions.py:129-142 | the files afterwards are those of `Apply` |
| Approvals.WorkflowDesk.ApproveDerivative | channel_actions.py:159-182 | revoke, record, mark: the files afterwards are those of `Apply` |
| Approvals.WorkflowDesk.RejectDerivative | channel_actions.py:185-208 | the files afterwards are those of `Apply` |
| Approvals.WorkflowDesk.BackToDraft | channel_actions.py:211-224 | the files afterwards are those of `Apply` |
| Approvals.WorkflowDesk.MarkPublished | channel_actions.py:411-413 | the files afterwards are those of `Apply` for the save of the caller's copy as published |
| Approvals.WorkflowDesk.GuardErrors | channel_actions.py:227-251 | the guard finds no error exactly when the derivative may be published |
| Approvals.WorkflowDesk.CreatePublishJob | channel_actions.py:254-299 | a job is stored and returned exactly when the guard passes, otherwise nothing changes |
| Variants.OneReadyForever | content_services.py:324-407 | any interleaving of variant mutations, outdated saves included, keeps at most one ready variant per (workspace, item, channel, capability) |
| Variants.OneReadyFile | content_services.py:155-172 | the same for the variant file, shared by processes that interleave file steps and die |
| Variants.RefusedIff | content_services.py:325-347 | a variant is refused exactly if it is ready while another of its workspace, item, channel and capability is, and on creation if its id is taken |
| Variants.StoredInPlace | content_services.py:336-347 | what is not refused is stored in the place of the variant of that id, or at the end, and nothing else changes |
| Variants.MarkingIsExact | content_services.py:374-393 | exactly the item's ready variants of other revisions become stale, and nothing else changes |
| Variants.SelectActive | content_services.py:361-372 | an answer is a ready variant of the item, channel, capability and revision, and there is none exactly when no variant is |
| Variants.SelectionIsForced | content_services.py:361-372 | where an item's variants share a workspace id there is one candidate, and the tie-break does not matter |
| Variants.SelectedIsNewest | content_services.py:361-372 | no candidate is newer than the answer by (updated time, id) |
| Variants.SelectsReady | content_services.py:361-372 | an answer is a ready variant of the item, channel and capability, of the revision or of any if none is named, and there is one if there is such a variant |
| Variants.CandidatesCoincideIff | content_services.py:361-407 | two candidates are one variant exactly if they carry the same workspace id |
| Variants.VariantList.HasDuplicateReady | content_services.py:395-407 | the loop finds a duplicate exactly when another ready variant is in the slot |
| Variants.VariantList.CreateVariant | content_services.py:325-334 | list and success are those of `Apply` |
| Variants.VariantList.SaveVariant | content_services.py:336-347 | list and success are those of `Apply` |
| Variants.VariantList.MarkStaleFor | content_services.py:374-393 | ready variants of other revisions of the item become stale, and only stored stale variants of the item are reported, none exactly when nothing changed |
| Text.ReplaceLeavesCrLfIff | content_services.py:925 | one pass of replacing CR LF leaves a CR LF exactly on texts with CR CR LF |
| Text.NormaliseFixpointIff | content_services.py:925 | normalising leaves exactly the trimmed texts without CR LF alone |
| Text.StripTrims | content_services.py:924 | stripping trims, and leaves exactly trimmed texts alone |
| Text.StripDropsSpace | content_services.py:924 | stripping takes white space off both ends and nothing else |
| Text.ReplaceSplits | content_services.py:925 | every CR LF becomes one LF, whatever is around it |
| Text.LanguageFixpoint | content_services.py:927 | stripping and lower-casing a language twice is doing it once |
| Text.LowerFixpointIff | content_services.py:927 | lowering leaves exactly the texts without capitals alone and takes capitals to small letters |
| Metadata.SafeFixpoint | content_services.py:175-187 | the metadata filter, at every depth, is idempotent |
| Metadata.SafeIsClean | content_services.py:175-187 | no hidden key is left at any depth |
| Metadata.SafeFixpointIff | content_services.py:175-187 | the filter leaves alone exactly what has no hidden key and only scalars in lists, at every depth |
| Metadata.SafeSplits | content_services.py:175-187 | entries are taken one by one: one with a hidden key is dropped, any other stays in its place |
| Metadata.LocationsAreHidden | content_services.py:50-60 | keys that speak of a path or a reference, in any case, and provider secrets are hidden |
| Content.CanonicalFixpointIff | content_services.py:194-219 | a stored wording is its own canonical form exactly when its body has no CR LF |
| Content.SameChecksumIff | content_services.py:194-219 | two checksums are the same exactly if wording, source and canonical text are, each in canonical form |
| Content.HistoriesForever | content_services.py:909-989 | in every run, saves of whole items by other code included, each item's revisions are numbered exactly 1..n in stored order, and each carries its item's workspace and canonical text, the source the item had when it was made, and its own checksum |
| Content.CurrentsExactly | plugins/sources/youtube/plugin.py:139-149 | each item's current revision is number n throughout a run exactly if each copy of an item that other code saves names the last revision |
| Content.OutdatedItemGoesBack | plugins/sources/youtube/plugin.py:139-149 | a run in which a copy read before an update and saved after it takes the item back to the revision before |
| Content.RevisionsOnlyGrow | content_services.py:294-301 | no stored revision is ever changed or removed |
| Content.UpdateGoesThroughIff | content_services.py:909-932 | an update goes through exactly if the item is visible, at the expected revision if one is named, and the new id is new |
| Content.UpdateLeaves | content_services.py:909-942 | item and revision say, field by field, what they said where the caller gives nothing, and otherwise the caller's text in its stored form; the status follows from the body |
| Content.UpdateAppends | content_services.py:1257-1291 | the revision is the item's next, with its workspace, source and canonical text; no other item and no stored revision changes |
| Content.CreationLeaves | content_services.py:769-834 | a new item and its first revision say what the caller gave, in its stored form, untitled if there is no title |
| Content.CreationCutShort | content_services.py:769-834 | with a revision id that is taken an item without a revision stays |
| Content.ArchivingLeaves | content_services.py:955-963 | archiving sets the status of the named item, where it is visible, and nothing else |
| Content.NumberingExactly | content_services.py:293-321 | however the appends of several updates interleave, revisions are numbered 1..n per item throughout exactly if each number that was read is still the next one at its append |
| Content.RestoreGivesItBack | content_services.py:965-989 | a restore appends revision n+1 with the restored title, summary, language and metadata; the wording comes back whole exactly when the stored body has no CR LF, the checksum exactly when normalising that body leaves none and the item's source, stripped, is still the restored revision's |
| Content.NewSourceChangesTheChecksum | plugins/sources/youtube/plugin.py:139-149 | a run in which an import's source is saved after its first revision, and restoring that revision gives another checksum |
| Content.NoOldReadyAfterUpdate | content_services.py:933-939 | when an update or a restore returns, the item points at the new revision and no ready variant comes from another one |
| Content.ResolutionSays | content_services.py:1124-1175 | the answer is the named revision or the item's current one; no item, no revision and a mismatch are answered exactly where there is none or a named variant is of another item or channel |
| Content.ImplicitResolution | content_services.py:1124-1175 | in every reachable state, resolution without an explicit variant gives a revision of the item, alone or with a ready variant built from exactly it |
| Content.AnswerFitsIff | content_services.py:1124-1175 | in every reachable state an answer's variant is ready, of the capability and built from the answered revision exactly if no stored variant is named or the named one is all that |
| Content.ExplicitVariantIsNotChecked | content_services.py:1143-1156 | any stored variant of the item and channel is taken when it is named, fitting or not |
| Content.ChoiceIsReachable | content_services.py:361-372 | a run from the empty library that leaves two candidates, one under the item's workspace id and one under the empty one |
| Content.SelectionNeverChooses | content_services.py:361-372 | in every run whose variants are created under a workspace id the selection has at most one candidate |
| Content.NewVariantLeaves | content_services.py:991-1066 | a new variant says what the caller gave, its body normalised, the revision's language if none is given, for the named or the current revision, ready or invalid as the verdict is |
| Content.SavedVariantLeaves | content_services.py:1068-1122 | an update leaves each text where the caller gives none, takes the verdict's status, and changes no other variant; a validation changes status and time |
| Content.ContentService.NextRevisionNumber | content_services.py:309-321 | the loop finds one more than the greatest number of the item's revisions, or 1 |
| Content.ContentService.CreateRevision | content_services.py:1257-1291 | exactly the new revision is appended, unless its id is taken |
| Content.ContentService.CreateContent | content_services.py:769-834 | item, revision, item again: the files afterwards are those of `Apply` |
| Content.ContentService.UpdateContent | content_services.py:909-942 | revision, item, stale marks: the files afterwards are those of `ApplyUpdate` |
| Content.ContentService.RestoreRevision | content_services.py:965-989 | the files afterwards are those of `Apply` |
| Content.ContentService.ArchiveContent | content_services.py:955-963 | the files afterwards are those of `Apply` |
| Content.ReadyTextSuitsExactly | content_services.py:1068-1122 | as an update has the stored text checked, not the edited one: every ready variant's text suits throughout a run exactly if no update edits a suitable text into one that is not |
| Content.SameTextIff | content_services.py:1047-1056 | the requirements see channel, capability, title, body, language and hashtags of a variant, and nothing else |
| Content.UncheckedTextIsReady | content_services.py:1068-1095 | a run in which an update's text is never checked and its variant is ready |
| Content.ContentService.CreateChannelVariant | content_services.py:991-1066 | source, fields, verdict, store: list and success are those of `Apply` with the verdict on the new text |
| Content.ContentService.UpdateChannelVariant | content_services.py:1068-1095 | edits on a copy, verdict on the stored text, store: list and success are those of `Apply` with that verdict |
| Content.ContentService.ValidateChannelVariant | content_services.py:1097-1122 | verdict on the stored text, persisted: list and success are those of `Apply` with that verdict |
| ObservationLedger.LatestDefinition | analytics_services.py:202-208 | none exactly when no current definition fits, otherwise one that does |
| ObservationLedger.LatestIsGreatest | analytics_services.py:202-208 | no fitting current definition has a greater version than the one found |
| ObservationLedger.EveryInputCounted | analytics_services.py:541-596 | created + duplicates + failures = min(inputs, 100), and the stored list grows by exactly the created ones |
| ObservationLedger.AcceptedIff | analytics_services.py:701-711 | an input is taken exactly if its metric has a current definition, its value is there and of the type, and its post is the account's; what each refusal is for |
| ObservationLedger.IngestedSayTheirInputs | analytics_services.py:726-748 | every stored observation was stored before or says what one of the first hundred inputs says: metric, value, publication, times and windows, under the current definition, for the batch, valid and nobody's correction |
| ObservationLedger.DuplicateIff | analytics_services.py:713-725 | an input is a duplicate exactly if a stored key has its workspace, plugin, account, remote id, definition, version, times, run and value |
| ObservationLedger.ReportSays | analytics_services.py:560-580 | each failure names the metric and reason of a refused input, each duplicate an observation under the key of an input |
| ObservationLedger.LedgerForever | analytics_services.py:634-689 | in every run of whole operations ids and keys are unique, each correction copies an original that is on record as corrected, and each correction record names an original |
| ObservationLedger.KeysExactly | analytics_services.py:259-279 | however the single writes of ingests and corrections interleave, keys are unique throughout exactly if each copy is saved under its own key |
| ObservationLedger.WritesForever | analytics_services.py:634-689 | in every interleaving of those writes, operations cut short by a death among them, all of that is kept |
| ObservationLedger.CorrectionCutShort | analytics_services.py:650-675 | a correction that dies after its first write leaves one active observation fewer, no replacement and no record |
| ObservationLedger.CutShortIsNotReingested | analytics_services.py:259-268 | and ingesting the same inputs again does not bring the value back |
| ObservationLedger.CyclicIff | analytics_services.py:1115-1119 | a correction counts as a cycle exactly if it corrects what a correction made |
| ObservationLedger.DefinedIff | analytics_services.py:1102-1108 | an observation counts as defined exactly if a definition, deprecated or not, has its plugin, metric and version |
| ObservationLedger.NoCycles | analytics_services.py:1115-1119 | no correction targets a corrected observation |
| ObservationLedger.ScansAreClean | analytics_services.py:1096-1121 | in every reachable state a scan of any workspace reports neither a duplicate key nor a cycle |
| ObservationLedger.ReingestCreatesNothing | analytics_services.py:259-268 | the same inputs under the same run id store nothing again, whatever ingests and corrections came between |
| ObservationLedger.SnapshotsAreIdempotent | analytics_services.py:598-632 | ingesting a snapshot twice is ingesting it once, even after corrections |
| ObservationLedger.SnapshotSays | analytics_services.py:606-624 | a snapshot is read as one input for each of the seven metrics it has, with its number and times |
| ObservationLedger.SnapshotStores | analytics_services.py:598-632 | what ingesting a snapshot stores are its numbers for the post, under its account and plugin, in the named or the snapshot's own run |
| ObservationLedger.CorrectionBalance | analytics_services.py:634-689 | a correction keeps its original, marked; touches no other; the active count moves by [key unused] - [original active], and so stays exactly if these agree |
| ObservationLedger.CorrectionRefusedIff | analytics_services.py:644-651 | a correction is refused without actor or reason, of nothing stored and of a correction, and otherwise is on record |
| ObservationLedger.SameValueIsLost | analytics_services.py:650-675 | correcting to the same value leaves one active observation fewer |
| ObservationLedger.CorrectedTwiceCountsTwice | analytics_services.py:644-675 | two corrections of one original with unused values are both active |
| ObservationLedger.AnalyticsStore.CreateObservation | analytics_services.py:259-268 | nothing is stored under a taken key, and the stored observation is returned |
| ObservationLedger.AnalyticsStore.CollectInputs | analytics_services.py:606-624 | one input per metric the snapshot has, in field order |
| ObservationLedger.AnalyticsStore.IngestOne | analytics_services.py:691-748 | checks, attribution, creation: list, attributions and verdict are those of `Judge` and `ResolvedFor` |
| ObservationLedger.AnalyticsStore.IngestObservations | analytics_services.py:541-596 | the loop over at most 100 inputs: observations and report are those of `Ingest`, attributions those of resolving each accepted input's publication, and the run record counts what happened |
| ObservationLedger.IngestedAreAttributed | analytics_services.py:691-748 | an observation is created only where its publication has an attribution |
| ObservationLedger.AnalyticsStore.CorrectObservation | analytics_services.py:634-689 | files and error are those of `Correct` |
| ObservationLedger.AnalyticsStore.CountKeys | analytics_services.py:1098-1100 | the dictionary loop counts every key exactly |
| ObservationLedger.AnalyticsStore.Scan | analytics_services.py:1096-1119 | reported of observations and corrections is exactly what is there: missing definitions and posts, keys counted more than once, corrections of corrections |
| Attributions.OnePerForever | analytics_services.py:306-318 | in every run a publication has at most one attribution, with its own checksum |
| Attributions.CreatingStores | analytics_services.py:306-318 | a first draft is stored as it is; for a publication that has an attribution that one is handed back, conflicting exactly if the draft says otherwise |
| Attributions.SameChecksumIff | analytics_services.py:1164-1182 | two checksums are the same exactly if publication, remote id, revision and evidence are |
| Attributions.CurrentIsFirst | analytics_services.py:331-340 | the current attribution is the first by time of creation and id |
| Attributions.AttributionsAreHistorical | analytics_services.py:306-318 | later drafts change nothing but the status, to conflicting exactly when one of them had another checksum |
| Attributions.ReconcilingIsCreating | analytics_services.py:495-504 | reconciling never reaches its save |
| Attributions.AttributionScansAreClean | analytics_services.py:1120-1125 | in every run a scan of any workspace finds no attribution whose checksum does not match |
| Attributions.AttributionList.ScanAttributions | analytics_services.py:1120-1125 | reported of attributions is exactly what is there: checksums that do not match and missing posts |
| Attributions.AttributionList.CreateAttribution | analytics_services.py:306-318 | list and stored record are those of `CreateIn` |
| Attributions.AttributionList.ReconcileAttribution | analytics_services.py:495-504 | the list is that of `ReconcileIn` |
| ReadModel.LatestIsMaximum | analytics_services.py:1185-1197 | per metric the latest observation is the maximum by (observed, captured, id) |
| ReadModel.LastObservedWins | analytics_services.py:1185-1197 | latest is what was observed last, among equal times captured last, and then has the greatest id |
| ReadModel.OrderDoesNotMatter | analytics_services.py:1185-1197 | with unique ids the latest does not depend on the order of the list |
| ReadModel.LatestOfSort | analytics_services.py:1187-1188 | sorting first does not change which observation is latest, ties included |
| ReadModel.LatestMetrics | analytics_services.py:1185-1197 | sort and overwrite gives the latest observation of every metric |
| ReadModel.CorrectionTakesEffectIff | analytics_services.py:634-689 | a correction takes its original's place as the latest where that was the latest, and changes nothing where it was not, exactly if the ids, which decide among equal times, agree |
| ReadModel.AggregateSubject | analytics_services.py:1024-1053 | the loops give every metric the total of its latest values over distinct publications, or none |
| ReadModel.CountedIff | analytics_services.py:1017-1022 | exactly the valid and provisional observations of a publication count |
| ReadModel.TotalSaysTheLatest | analytics_services.py:1034-1053 | the total over one publication is its latest number, one or zero for a flag, none if that has no value |
| ReadModel.RaisingOneRaisesTheTotal | analytics_services.py:1036-1049 | raising a summed publication's latest number by k raises the total by exactly k, whatever the others report |
| ReadModel.OnlyCumulativeLatestIsSummed | analytics_services.py:1035-1049 | without a current definition that is cumulative and asks for the latest there is no total |
| ReadModel.RevisionsAddUpIff | analytics_services.py:824-846 | with one attribution per publication, the content total is the sum of the totals of its revisions and of publications without one, whatever was observed, exactly when the channels that decide for the revisions agree with the one that decides for the content |
| ReadModel.FirstChannelDecides | analytics_services.py:1036-1037 | if the first attribution's channel does not sum the metric there is no content total, though another revision has one |
| ReadModel.ContentAddsUpIff | analytics_services.py:816-846 | and in every run of resolving, backfilling and reconciling attributions, what the read model draws from the file meets that hypothesis, so the equivalence holds for it |
| FrontMatter.MarkerIsFirstIff | content_store.py:78-93 | the terminator is the first marker exactly when the metadata contains none and does not end in its first four characters |
| FrontMatter.ParsedIsThere | content_store.py:78-93 | what a parse takes apart stands in the text: metadata that loads as a mapping between opening line and marker, the body behind; any other text is a body as it is |
| FrontMatter.MetadataRoundTrip | content_store.py:78-93 | printing then parsing a text gives the metadata text back exactly when the closing marker comes first |
| FrontMatter.BodyRoundTrip | content_store.py:78-93 | and the right-trimmed body exactly when that does not start with a line feed |
| FrontMatter.MetadataFileRoundTrip | content_store.py:191-209 | through a file, whose reading turns CR LF and CR into LF: the metadata text comes back exactly when it has no CR and the closing marker comes first |
| FrontMatter.BodyFileRoundTrip | content_store.py:191-209 | and the right-trimmed body exactly when that has no CR and does not start with a line feed |

## Left out

- Real hashing, JSON, YAML, fsync and flock: a hash is injective, a payload is whole, partial or corrupt, metadata is a
  YAML text of which only "loads as a mapping" is known.
- PublishQueue.ExclusionForever: assumes that other code writes a job as running only over a job of that channel that is
  running; the publish worker writes outdated whole records, and `SaveKeepsExclusionIff` says exactly when such a
  write keeps exclusion.
- PublishQueue.AttemptsAreBounded: assumes that no write to the job gives it an attempt back or queues it with none
  left; `StaleCopyRefundsAnAttempt` and `BusyProfileOverspends` are writes of the publish worker that do.
- PublishQueue.BudgetForever: assumes that other writes leave a job within budget; `BudgetExactly` says that this is
  exactly what is needed, `BusyProfileOverspends` when the publish worker's requeueing does it.
- PublishQueue.LostLeaseStaysLost: assumes that no write hands the job back to its old worker; `FencedExactly` says that
  this is exactly what is needed, `StaleCopyRevivesTheLease` is a write of an outdated copy that does hand it back.
- PublishQueue.NeverRepublished: assumes that other writes to the job do not themselves queue it or take its submission
  evidence away while it runs; `CommittedExactly` says that this is exactly what is needed.
- MetricQueue.OnePerSlotForever: is about whole enqueue operations and assumes that no worker's copy takes a slot that
  another job has; `OnePerSlotExactly` is about the two lock holds and says that this is exactly what is needed.
- MetricQueue.NeverEarly: is about claims; a worker that saves a record as running is not one, see `NoneEarlyExactly`.
- Approvals.InvForever: assumes that a copy saved as approved has an active approval and reads as last approved;
  `InvExactly` says that this is exactly what is needed, `PlannerNeedsNoApproval` and `OutdatedCopyPassesTheGuard` are
  saves that do not. Operations other than saves are whole, several lock holds in the source; `OneActiveExactly` takes
  the saves of approval records one at a time.
- Approvals.JobsAreForApprovedText: is about the jobs of create_publish_job_from_derivative, under the same assumption;
  `BackedExactly` and `PlannerNeedsNoApproval` are about those of the planner, whose lookup of an earlier job for the
  same plan is left out: an append of any job is an operation.
- Approvals.WorkflowDesk.MarkPublished: the published post that is recorded before is not modelled.
- ConnectHandshake.OneWinner: whole-record saves of outdated connection copies (session checks, the end of a connect, a
  provider change) are not among the operations.
- Content.HistoriesForever: assumes of an item saved by other code that it is a stored one, with its workspace and
  canonical text and a settled wording, as in the video importer's save. It is about whole operations, each of which
  is several lock holds in the source; `NumberingExactly` takes the appends of revisions one at a time,
  `Variants.OneReadyForever` the variant mutations.
- Content.ImplicitResolution: resolution is read in one state, not across its several reads.
- Content.ContentService.UpdateContent: the operation record carries the arguments, and the caller's item is a copy; the
  sharing of a record object between caller and list during one section is not modelled.
- ReadModel.RevisionsAddUpIff: sums over real numbers; floating-point rounding is not modelled.
- ReadModel.AggregateSubject: only the comparable metrics; counts, breakdowns, freshness and completeness would add easy
  members, and derived metrics and deltas are not modelled.
- ObservationLedger.AnalyticsStore.Scan: the stored report and the order of findings are not modelled; the findings on
  attributions are in `Attributions.AttributionList.ScanAttributions`.
- ObservationLedger.LedgerForever: is about whole operations, each of which is several lock holds in the source;
  `KeysExactly` and `WritesForever` take the writes one at a time.
- ObservationLedger.AnalyticsStore.IngestObservations: events, and the run record's times, watermark and error codes,
  are not modelled; what would be attributed to a publication is an argument.
- MetricQueue.EarliestIsClaimed: where no time of a job can be read the clock stands in, and nothing is said of its
  order.
- Attributions.AttributionsAreHistorical: the draft is an argument; how it is put together from job, derivative, plan
  and attempt is not modelled.
- FrontMatter.BodyFileRoundTrip: writing stores line ends as they are, as on POSIX systems; a file that is no UTF-8 and
  the fields put together from the metadata are not modelled.
- Text.LanguageFixpoint: lower-casing is that of ASCII letters.
- Time stamp texts of observations and attributions are ordered as texts, as the source orders them; time stamps of jobs
  are instants or unreadable.
- The legacy adapter that migrates a content item on its first read, listing order of items, and `created_by`,
  `updated_at` and similar display fields of items and revisions.
- Fallbacks between the older and newer source fields of a content item: an item has one source.
- The requirement registry: whether a text suits a channel is an argument, a function of the text.
- Error messages and error codes of failed operations, except where a result names them.
- Generating derivative text, LinkedIn pages, browser automation, media, calendars, dashboards, health payloads, event
  and audit logs.
