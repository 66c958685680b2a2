# ProcureDesk in Dafny

A model of the backend of a procurement workstation, with proofs of what its
worker and API promise. Each file is one module.

* Notifications. `ScheduleClock` computes when a schedule runs next in Indian
  Standard Time and the key of each run. `SchedulerProtocol` is the scheduler as
  transactions over shared tables, with any number of processes that may fail or
  die between any two steps; `SchedulerSafety` and `SchedulerExclusion` prove what
  every interleaving keeps. `Outbox` is the dispatcher with its row locks,
  `DeliveryPipeline` joins scheduler and outbox, and `NotificationJob` is the life
  of one job under any number of sending workers.
* Reporting. `CaseRecords` holds cases, milestones, awards and the facts derived
  from them, `Awards` the award operations with their cached rollup, `Projection`
  the read model and the pipeline that feeds it, and `ProjectionConvergence` the
  proof that at-least-once delivery and recomputation converge.
* Import and export. `Calendar`, `DateOnly` and `ImportCells` give dates their
  meaning; `ImportRows`, `ImportBatch` and `CommitGate` follow a tender file from
  its cells to the commit, `ImportParser` from its text to those cells; `Csv` and
  `Escaping` relate writers to readers; `Pdf` is the PDF writer down to byte offsets.
* Access. `LoginLimiter` bounds failed logins, `AdminUsers` keeps a tenant
  administrable, `Permissions` closes permissions and compares scopes. `Text` and
  `Sets` hold what the other modules share.

Code that changes state in place is a class whose methods are tied to a
specification function of the old state, and predicates whose names end in `Says` or
`Recorded` state, column by column and without those functions, what an operation
leaves; protocols are state machines over those
functions, and the theorems quantify over every sequence of actions. An action
that is not enabled changes nothing, so no run is excluded. Clocks, the outcome of
foreign calls, and rows read by code that is not modelled are parameters.

`dafny verify dfyconfig.toml` checks the whole project.

## Findings

Where the code does something other than one might expect of it, the exact
behaviour is proved.

* A platform super administrator exports nothing outside the home tenant, although
  the API shows every row there (`Permissions.HomelessAdminExportsNothing`; when
  export and API agree: `Permissions.ExportMatchesApi`).
* A deactivated user's waiting export still runs with the user's full scope
  (`Permissions.InactiveUsersStillExport`).
* The login bound is twice the maximum less two, and it is reached
  (`LoginLimiter.BoundIsTight`); a maximum of one locks only at the second failure
  (`LoginLimiter.LocksExactly`).
* A mail can go out once per attempt although it was sent
  (`NotificationJob.SendsUpToMax`).
* A failure handler that itself fails leaves its job in flight for good
  (`NotificationJob.TriesSettle`), and a worker that dies before the dead-letter row
  leaves none (`NotificationJob.LostForever`).
* A claim transaction that fails resets a job in flight
  (`NotificationJob.FailedClaimExact`).
* A daily or monthly schedule moved to before its slot passes over a run
  (`ScheduleClock.KeyKeptExactly`).
* A run whose build fails is lost (`SchedulerSafety.RunLostExactly`).
* Scopes of unknown entities empty a user's scope
  (`AdminUsers.UnknownEntitiesExact`).
* Spreadsheet rows can be accepted and then refused at commit, exactly when a typed
  cell holds blanks (`CommitGate.AcceptedRowCommits`); CSV rows cannot
  (`ImportParser.FileToCommit`).

## Model

| member | source | states |
|---|---|---|
| SchedulerSafety.EveryRunIsSafe | apps/worker/src/notifications/notification-scheduler.ts:37-286 | For every interleaving of claims, builds, failures, deaths, 15-minute takeovers, late finalisers and administrator edits, over any number of processes: at most one event per schedule key and Indian day, at most one job per event and recipient, at most one outbox row per job, and an event is completed exactly when it has jobs and all of them have their row; no job of any other event has one |
| SchedulerSafety.ApplyKeeps | apps/worker/src/notifications/notification-scheduler.ts:37-286 | One transaction, failure, death or edit keeps the whole invariant: keys unique, each event in progress held by one process that knows exactly its jobs, or left behind by a dead one |
| SchedulerSafety.FinalForever | apps/worker/src/notifications/notification-scheduler.ts:206-286 | Once an event is completed, skipped or failed, no later action of any process changes it, gives it a job, or writes an outbox row for one of its jobs |
| SchedulerSafety.QuietMeansSettled | apps/worker/src/notifications/notification-scheduler.ts:101-144 | In every run without deaths, no event is left in progress once all processes are between runs |
| SchedulerSafety.SkippedIffSameDay | apps/worker/src/notifications/notification-scheduler.ts:146-174 | The insert that does nothing on conflict does nothing exactly when the schedule already has an event for the same Indian calendar day |
| SchedulerSafety.EveryRecipientGetsAJob | apps/worker/src/notifications/notification-scheduler.ts:662-735 | After a committed build the recipients that have a job of the new event are exactly the eligible recipients |
| SchedulerSafety.AddJobsFacts | apps/worker/src/notifications/notification-scheduler.ts:662-735 | The insert loop only adds jobs, with fresh ids, all for its event, no idempotency key twice, and a job key for every recipient, whatever repetitions the list has |
| SchedulerSafety.RunLostExactly | apps/worker/src/notifications/notification-scheduler.ts:114-143 | A claimed run gets an event for its day, new or already there, when its build commits; when the build fails, the recorded failure moves the schedule on to its next slot all the same, and the run has an event only if it had one before |
| SchedulerProtocol.EveryEndAdvances | apps/worker/src/notifications/notification-scheduler.ts:37-286 | However a claimed run ends, its schedule moves on to the earliest slot after the claimed run, with the run it had stored as its last one and the outcome recorded, its event is completed, skipped or failed as the outcome says, and every other row, event, job and outbox row stays; a claim marks the due rows that have a run, gives the others their first one, and snapshots exactly the former |
| SchedulerSafety.SampleRun | apps/worker/src/notifications/notification-scheduler.ts:101-128 | A concrete run of one due schedule and one recipient that ends with a completed event and its job's outbox row |
| SchedulerSafety.NoneAbandoned | apps/worker/src/notifications/notification-scheduler.ts:101-144 | Without deaths no run leaves an event behind |
| SchedulerProtocol.Tables.ClaimDueNotificationSchedules | apps/worker/src/notifications/notification-scheduler.ts:37-99 | The two claiming loops give every due row without a next run its first one, mark the others running since now, touch no other row and no other column, and return one snapshot of each row marked |
| SchedulerProtocol.Tables.InsertScheduleEvent | apps/worker/src/notifications/notification-scheduler.ts:146-174 | Adds a running event of the claimed run under the next id, or nothing when the key is taken, so that afterwards some event has the key either way |
| SchedulerProtocol.Tables.BuildJobsForSchedule | apps/worker/src/notifications/notification-scheduler.ts:288-308 | The loop over recipients does to the tables what the insert specification says, and returns the ids of the jobs it inserted |
| SchedulerProtocol.Tables.FinalizeScheduleRun | apps/worker/src/notifications/notification-scheduler.ts:206-254 | Appends one outbox row per job, settles the event as completed when there are jobs and else as skipped, and moves the schedule to the earliest slot after the claimed run; nothing else changes |
| SchedulerProtocol.Tables.MarkScheduleRunFailed | apps/worker/src/notifications/notification-scheduler.ts:256-286 | Settles the event as failed when it exists and moves the schedule to the earliest slot after the claimed run, leaving jobs, outbox and all else untouched |
| SchedulerProtocol.Tables.AdvanceSchedule | apps/worker/src/notifications/notification-scheduler.ts:808-833 | Of the claimed row only: the next run becomes the earliest slot after the claimed one, the stored run the last one, and the outcome is recorded |
| SchedulerProtocol.ClaimIds | apps/worker/src/notifications/notification-scheduler.ts:61-82 | The claimed schedules are exactly the due rows that had a next run, each with the claim instant |
| SchedulerExclusion.PromptRunsExclude | apps/worker/src/notifications/notification-scheduler.ts:37-99 | As long as every claim still held is at most 15 minutes old whenever another process claims, no schedule is held twice and each held one is marked running since its claim |
| SchedulerExclusion.ClaimExclusive | apps/worker/src/notifications/notification-scheduler.ts:51-58 | A claim at a moment when all earlier claims are young takes no schedule that another process holds |
| ScheduleClock.DailyNextIsLeast | apps/worker/src/notifications/notification-scheduler.ts:1064-1065 | The next daily run is the earliest instant strictly after the given one at which some Indian day reaches its run time (24:00 included) |
| ScheduleClock.MonthlyNextIsLeast | apps/worker/src/notifications/notification-scheduler.ts:1041-1049 | The next monthly run is the earliest instant strictly after the given one at which the chosen date (at most the 28th) of some month reaches its run time, across month and year ends |
| ScheduleClock.StepNextIsLeast | apps/worker/src/notifications/notification-scheduler.ts:1050-1063 | For the two interval cadences the advanced run is the earliest whole step after the stored one |
| ScheduleClock.NextIsFirstRun | apps/worker/src/notifications/notification-scheduler.ts:1034-1066 | A schedule without a next run gets the earliest slot to come when daily or monthly; with an interval cadence the slot of the day if it is still ahead, else the slot a day later, or a week later when weekly |
| ScheduleClock.NoSlotSkipped | apps/worker/src/notifications/notification-scheduler.ts:808-833 | Advancing from the stored run again and again visits every later slot of the schedule, whatever the cadence |
| ScheduleClock.RunsGrow | apps/worker/src/notifications/notification-scheduler.ts:808-833 | Successive runs strictly increase and each of them is a slot |
| ScheduleClock.CatchesUp | apps/worker/src/notifications/notification-scheduler.ts:808-833 | Advancing passes any given instant after finitely many runs |
| ScheduleClock.IstDateExact | apps/worker/src/notifications/notification-scheduler.ts:1088-1094 | Two instants print the same date exactly when they fall on the same Indian calendar day, for all years |
| ScheduleClock.EventKeyExact | apps/worker/src/notifications/notification-scheduler.ts:112 | Event keys are equal exactly for equal schedule keys and the same Indian day, even when schedule keys contain colons |
| ScheduleClock.SplitAtLastColon | apps/worker/src/notifications/notification-scheduler.ts:703 | A key built with a colon determines both of its parts when the second has no colon |
| ScheduleClock.RunsHaveOwnKeys | apps/worker/src/notifications/notification-scheduler.ts:112 | Different runs of one schedule fall on different Indian days and have different event keys |
| ScheduleClock.KeyKeptExactly | apps/worker/src/notifications/notification-scheduler.ts:1036-1066 | Advancing keeps the event key, so that the next run is passed over as already processed, exactly when the stored run lies before the slot of its own day: any day for daily schedules, the chosen date for monthly ones, never for the interval cadences or a run time of 24:00 |
| ScheduleClock.MonthAround | apps/worker/src/notifications/notification-scheduler.ts:1041-1049 | A local day lies between the first of its month and the first of the next, in the running numbering of months |
| DeliveryPipeline.QueuedIffCompleted | apps/worker/src/notifications/notification-scheduler.ts:206-254 | With schedulers and dispatchers interleaved in any way: a job is queued for sending only if its event completed; it has an outbox row exactly then; and that row is still to be dispatched, or was queued, or has its dead-letter row |
| DeliveryPipeline.RunKeeps | apps/worker/src/notifications/notification-scheduler.ts:791-806 | Every run of both components keeps the outbox rows equal to the rows the finalising transactions wrote |
| Outbox.EveryRunIsSafe | apps/worker/src/outbox/outbox-dispatcher.ts:7-155 | For every interleaving of dispatchers with commits and rollbacks: open batches are disjoint, a processed event reached its queue, retryable events are below the attempt limit, exactly the given-up ones are at it, and each of those has exactly one dead-letter row and no other event has any |
| Outbox.OnlyCommitsChange | apps/worker/src/outbox/outbox-dispatcher.ts:56-80 | An event's row appears pending with no attempts, changes only when a dispatcher that had it locked and pending or failed commits, and then becomes processed with its attempts kept, or gets one more attempt and is given up exactly when that reaches the maximum |
| Outbox.CommitKeeps | apps/worker/src/outbox/outbox-dispatcher.ts:80 | Committing one batch keeps the invariant and every other open batch valid |
| Outbox.Dispatcher.DispatchPendingOutbox | apps/worker/src/outbox/outbox-dispatcher.ts:54-80 | An event the queue took is processed with its attempts kept; any other gets one more attempt and is given up exactly when that reaches the maximum, or else is failed and due again after 30, 60, 120, 240 or 480 seconds, then always 15 minutes; rows outside the batch stay, the queue gets the events handed over in order, and each event given up gets one dead-letter row |
| Outbox.Dispatcher.MarkDispatchFailure | apps/worker/src/outbox/outbox-dispatcher.ts:89-155 | One more attempt; given up with one dead letter exactly when that reaches the maximum, else failed and due again after the wait of its attempts |
| Outbox.SoloRun | apps/worker/src/outbox/outbox-dispatcher.ts:7-87 | The protocol run of one dispatcher from begin to commit has the same effect on the tables as the dispatching loop, and leaves each event of the batch processed, failed or given up as its own hand-over went |
| Outbox.CommittedRecorded | apps/worker/src/outbox/outbox-dispatcher.ts:54-155 | For any batch and outcomes the committed tables hold for each event what its own outcome calls for, and nothing else has changed |
| Outbox.RetryDelayExact | apps/worker/src/outbox/outbox-dispatcher.ts:157-159 | The wait starts at 30 seconds, doubles with each failure, and is 15 minutes exactly from the sixth failure on |
| NotificationJob.EveryRunIsSafe | apps/worker/src/notifications/notification-worker.ts:34-298 | For any number of workers with failures and deaths at every step: at most one worker is past the claim, attempts are numbered from one without gaps, provider calls never exceed attempts nor attempts the maximum, a failed job has attempts left, a given-up job has none, a given-up job has exactly one dead-letter row unless a worker is about to write it or died there, and a job recorded as sent had the provider called and its latest attempt delivered, or marked failed after that |
| NotificationJob.ApplyKeeps | apps/worker/src/notifications/notification-worker.ts:34-298 | Each statement of the worker and of its failure handler keeps the job invariant |
| NotificationJob.StatusMoves | apps/worker/src/notifications/notification-worker.ts:34-298 | A job becomes cancelled exactly by a claim that finds its rule off, which changes nothing else; it becomes sent only by a worker that recorded its attempt as delivered, failed or given up only by the failure handler according to its attempts, and in flight only by a claim |
| NotificationJob.DeliveryExact | apps/worker/src/notifications/notification-worker.ts:34-298 | For every outcome of a delivery and of its handler, the status, the new attempt and its result, the provider calls and the dead letters it leaves |
| NotificationJob.LostForever | apps/worker/src/notifications/notification-worker.ts:244-284 | A worker that dies between giving up and writing the dead-letter row leaves a dead job without one, and no later action adds it |
| NotificationJob.SendsUpToMax | apps/worker/src/notifications/notification-worker.ts:165-213 | The possible numbers of provider calls for one job are exactly those up to its maximum of attempts: a mail that was sent goes out again when recording it fails |
| NotificationJob.FailedClaimExact | apps/worker/src/notifications/notification-worker.ts:214-230 | A claim transaction that fails runs the unguarded failure update; this keeps the invariant exactly when no worker is past its claim, the job is not given up, and the job's own count agrees with the verdict |
| NotificationJob.FailedClaimLetsTwoIn | apps/worker/src/notifications/notification-worker.ts:244-284 | A concrete run in which such a failing claim lets two workers past the claim |
| NotificationJob.FiveTriesSettle | apps/worker/src/outbox/outbox-dispatcher.ts:59-64 | The queue's five tries end every fresh job as sent, given up or cancelled, wherever the deliveries or their handlers' dead-letter inserts fail and as long as no handler's row update throws, exactly when the job allows at most five attempts |
| NotificationJob.DeliveryMeasure | apps/worker/src/notifications/notification-worker.ts:34-230 | Each delivery that throws and whose handler updates the rows uses up one attempt, the one that uses the last gives the job up; one whose handler fails before that leaves the job in flight unless it was recorded as sent; one that does not throw ends as cancelled when the rule is off and as sent otherwise |
| NotificationJob.TriesSettle | apps/worker/src/notifications/notification-worker.ts:34-230 | As many tries as attempts remain settle the job exactly when no failure of a row update in the failure handler comes first, for a mail not recorded as sent; such a try leaves the job in flight for good |
| NotificationJob.TooFewTries | apps/worker/src/notifications/notification-worker.ts:34-230 | With fewer tries than attempts, failing sends leave the job waiting |
| NotificationJob.DeliveryIsRun | apps/worker/src/notifications/notification-worker.ts:34-230 | For every outcome and every point at which the handler may throw, what the worker's method does to the rows is the protocol run of one worker, a throwing handler counting as its death |
| NotificationJob.Worker.ProcessNotificationJob | apps/worker/src/notifications/notification-worker.ts:34-230 | Cancels a job whose rule is off and changes nothing else; after success the job is sent with one more provider call and a delivered attempt; after a failure the attempt is marked and the job failed or, at its last attempt, given up, as far as the handler gets; a job not waiting is left alone |
| NotificationJob.Worker.HandleNotificationDeliveryFailure | apps/worker/src/notifications/notification-worker.ts:231-298 | Marks the attempt, then the job as failed or given up by comparing the attempt number with the maximum, with a dead letter exactly when given up, and stops at the statement that throws |
| ProjectionConvergence.StaleMeansOutstanding | apps/worker/src/reporting/reporting-projection-worker.ts:9-25 | Over every run of case, award and plan writes, dispatches, rollbacks after queueing, duplicate and reordered deliveries, deaths and exhausted retries: each case's fact and expiry facts equal the projection of its current source rows, or an event for it is undispatched or given up, or a message for it has not yet been worked off |
| ProjectionConvergence.Converges | apps/worker/src/reporting/reporting-projection-worker.ts:9-25 | From every reachable state without dead letters there is a continuation that drains the pipeline, changes no source row, and makes every case's facts say, column by column, what its source rows say |
| ProjectionConvergence.DrainedAgrees | apps/worker/src/reporting/reporting-projection-worker.ts:9-25 | When every event was handed over and every message worked off, all cases agree and their facts say what the source rows say |
| ProjectionConvergence.ApplyKeeps | apps/worker/src/reporting/reporting-projection-worker.ts:9-25 | Each write, hand-over, delivery step and failure keeps: stale implies outstanding |
| ProjectionConvergence.WriteAwardKeeps | apps/api/src/modules/awards/infrastructure/case-award.repository.ts:308-387 | An award write that refreshes only part of the fact row is covered by the event of the same transaction |
| ProjectionConvergence.ProcessedTwice | apps/worker/src/reporting/reporting-projection-worker.ts:9-25 | Processing the same event twice leaves the same facts as once |
| Projection.RefreshCaseExact | apps/worker/src/reporting/reporting-projection-worker.ts:169-221 | Refreshing a case replaces exactly its award-derived expiry facts by the projection of its awards; other cases' facts and all plan-derived rows stay |
| Projection.RefreshPlanExact | apps/worker/src/reporting/reporting-projection-worker.ts:223-276 | Refreshing a plan replaces exactly its own row by the one it should have, none without a plan or a validity date; no other plan's row and no case's award-derived fact is touched |
| Projection.ReadModel.ProcessReportingProjection | apps/worker/src/reporting/reporting-projection-worker.ts:9-25 | After an event the facts of its case say what the source rows say: receipt plus running age is today, receipt plus completed age the award date, the stage is aged from the highest milestone recorded, the completion year contains the award day, each slab bounds its own amount, and all other columns are the source's; its expiry facts are those of its awards with a validity date; a plan event leaves the plan's own row; nothing else changes |
| Projection.ProcessedExact | apps/worker/src/reporting/reporting-projection-worker.ts:9-276 | The same of the projection specification, for every event, source and earlier facts |
| Projection.ReadModel.RefreshContractExpiryForCase | apps/worker/src/reporting/reporting-projection-worker.ts:169-221 | Deletes and reinserts the award-derived rows of the case |
| CaseRecords.StageExact | apps/api/src/modules/procurement-cases/domain/case-stage.policy.ts:8-18 | The derived stage is the highest one whose milestone is recorded, stage 5 needing both evaluations; the same ladder stands in the award rollup and the import commit |
| CaseRecords.LaddersAgree | apps/worker/src/reporting/reporting-projection-worker.ts:99-117 | The ageing ladder of the projection measures a running case from the very milestone that set its stage, the later evaluation for stage 5 and the receipt date for stage 0 |
| CaseRecords.ProjectedSays | apps/worker/src/reporting/reporting-projection-worker.ts:27-159 | Column by column what a case's fact says of its source rows: ages as differences of dates, the delay flag, the year, the slabs of their own amounts, and copies of the rest |
| CaseRecords.AgeingExact | apps/worker/src/reporting/reporting-projection-worker.ts:99-117 | Whatever stage a running case is in, it is aged from the highest stage up to its own that has a day recorded, one evaluation being enough for stage 5, and from its receipt when none has |
| CaseRecords.ProjectedExpiriesSay | apps/worker/src/reporting/reporting-projection-worker.ts:169-221 | The expiry facts are those of exactly the awards with a validity date, in order, each with its own vendor, amount and dates, tendering 120 days before the end unless a day is set, and deleted with the award or else with the case |
| CaseRecords.FactAges | apps/worker/src/reporting/reporting-projection-worker.ts:61-117 | For a case whose status and stage follow its milestones: exactly running cases with a receipt date have a running age, counted to today; exactly completed ones a completed age, counted to the award, and a completion year; and the stage age counts from the milestone that set the stage |
| CaseRecords.SlabFilterExact | apps/worker/src/exports/export-worker.ts:1229-1252 | The export's range conditions select a value exactly when its stored slab is among the chosen codes, or when no chosen code is known |
| CaseRecords.TracksPartition | apps/worker/src/exports/export-worker.ts:1145-1175 | The three track conditions partition the running cases along the projected delay flag and select no completed case |
| CaseRecords.FinancialYearExact | apps/worker/src/reporting/reporting-projection-worker.ts:61-66 | The completion year printed for a day is the financial year from 1 April to 31 March that contains it |
| Awards.RunKeeps | apps/api/src/modules/awards/infrastructure/case-award.repository.ts:62-292 | After every run of award creates, updates and deletes on any cases: stored total equals the sum and stored validity the earliest date of the live awards, stage and status follow the milestones, completed exactly at stage 8 |
| Awards.StepKeeps | apps/api/src/modules/awards/infrastructure/case-award.repository.ts:62-292 | Each operation, failing ones included, keeps every case's agreement, not only that of the case it names |
| Awards.RefreshAgrees | apps/api/src/modules/awards/infrastructure/case-award.repository.ts:192-292 | A refresh makes its case agree from any state |
| Awards.EarliestExact | apps/api/src/modules/awards/infrastructure/case-award.repository.ts:200-214 | The aggregate date is held by a live award and no live award has an earlier one; it is null exactly when no live award has any |
| Awards.TotalsMove | apps/api/src/modules/awards/infrastructure/case-award.repository.ts:99-190 | Deleting an award lowers the stored total by exactly its value, an update changes it by exactly the difference |
| Awards.CreateAdds | apps/api/src/modules/awards/infrastructure/case-award.repository.ts:62-97 | Creating an award raises the stored total by exactly its value |
| Awards.CountsMove | apps/api/src/modules/awards/infrastructure/case-award.repository.ts:192-214 | The count returned goes up by one with a create, down by one with a delete and stays with an update |
| Awards.CreateThenDelete | apps/api/src/modules/awards/infrastructure/case-award.repository.ts:62-190 | Creating an award and deleting it again restores every aggregate |
| Awards.OthersDoNotMatter | apps/api/src/modules/awards/infrastructure/case-award.repository.ts:200-214 | Awards of other cases play no part in a case's aggregates |
| Awards.AgedFromOwnStage | apps/worker/src/reporting/reporting-projection-worker.ts:99-117 | A running case in agreement is aged from the milestone that set its stored stage |
| Awards.Repository.CreateAward | apps/api/src/modules/awards/infrastructure/case-award.repository.ts:62-97 | Appends the award exactly when its case exists, its dates are in order and its value is not negative, and refreshes the case; else leaves every table unchanged |
| Awards.Repository.UpdateAward | apps/api/src/modules/awards/infrastructure/case-award.repository.ts:99-154 | Unknown, deleted or foreign awards, negative values and dates out of order leave every table unchanged with the right error; otherwise the columns the patch names get its values, the other columns and awards stay, and the case is refreshed |
| Awards.Repository.DeleteAward | apps/api/src/modules/awards/infrastructure/case-award.repository.ts:156-190 | Sets the deletion time of a live award of that case and nothing else of any award, and refreshes the case, or changes nothing |
| Awards.Repository.RefreshCaseAwardRollup | apps/api/src/modules/awards/infrastructure/case-award.repository.ts:192-292 | Returns how many live awards the case has, their worth and earliest dates; leaves total, savings, validity, status, stage and the copied fact columns as these and the milestones say, and every other case's rows alone |
| Awards.UpdateExact | apps/api/src/modules/awards/infrastructure/case-award.repository.ts:99-154 | For every patch: when it is refused and why, and which columns of which rows it leaves with which values |
| Awards.CreateExact | apps/api/src/modules/awards/infrastructure/case-award.repository.ts:62-97 | The same for creating an award |
| Awards.DeleteExact | apps/api/src/modules/awards/infrastructure/case-award.repository.ts:156-190 | The same for deleting one |
| Awards.RefreshExact | apps/api/src/modules/awards/infrastructure/case-award.repository.ts:192-387 | Every cached column after a refresh: savings are budget less approved amount, desired stage and delay are cleared by the award date, and the fact keeps its year, slabs and ages |
| Awards.RollupExact | apps/api/src/modules/awards/infrastructure/case-award.repository.ts:192-214 | The count is the number of live awards of the case, and the two dates are the earliest award and validity dates among them |
| LoginLimiter.AtMostTwiceMaxLessTwo | apps/api/src/modules/identity-access/infrastructure/login-rate-limit.repository.ts:29-50 | With a lockout of at least one window, a maximum of at least two, an ordered clock, attempts one after the other and no success in between: no half-open interval one window long sees more than twice the maximum, less two, recorded failures |
| LoginLimiter.BoundIsTight | apps/api/src/modules/identity-access/infrastructure/login-rate-limit.repository.ts:29-50 | For every such configuration with a window of at least two ticks there is a run that reaches that bound |
| LoginLimiter.TallyStep | apps/api/src/modules/identity-access/infrastructure/login-rate-limit.repository.ts:29-50 | One login keeps the count of failures in the interval within what the row's window start and attempts allow |
| LoginLimiter.LocksExactly | apps/api/src/modules/identity-access/infrastructure/login-rate-limit.repository.ts:29-50 | The k-th failure on a fresh key locks it exactly when k reaches the maximum and is not the first, because inserting the row never sets a lock |
| LoginLimiter.Limiter.Login | apps/api/src/modules/identity-access/application/auth.service.ts:53-122 | Exactly when a login has which outcome: only a key not locked, of a user with a password who is neither locked out at that moment nor inactive, gets to try the password, and only a right, unexpired one of a user whose tenant resolves logs in; wrong passwords and unknown users count one failure, a success clears the key, every other outcome leaves it alone |
| LoginLimiter.Limiter.RecordFailure | apps/api/src/modules/identity-access/infrastructure/login-rate-limit.repository.ts:29-50 | The count goes on, or starts again at one once more than a window has passed; from the maximum on the key is locked for the lockout, but never by the first failure of a new key; no other key changes |
| Pdf.XrefExact | apps/worker/src/notifications/notification-attachments.ts:1095-1109 | Every cross-reference entry is 20 bytes and its ten digits read back as the byte offset at which "n 0 obj" and that object stand (sections 7.5.4 and 7.3.10 of ISO 32000-1; bodies of at most ten billion bytes) |
| Pdf.StartXrefExact | apps/worker/src/notifications/notification-attachments.ts:1102-1108 | The number after startxref is the byte offset of the table, which is followed by exactly its entries and the trailer, where the file ends |
| Pdf.EntryBytes | apps/worker/src/notifications/notification-attachments.ts:1104-1106 | An entry takes 20 bytes exactly when its offset has at most ten digits |
| Pdf.StreamExact | apps/worker/src/notifications/notification-attachments.ts:1003-1011 | In the finished file the offset of a page's content object leads to a dictionary whose Length is the byte count of what stands between stream and endstream, and those bytes are the page's commands in UTF-8 (section 7.3.8 of ISO 32000-1) |
| Pdf.PagesResolve | apps/worker/src/notifications/notification-attachments.ts:994-1013 | The catalog names the page tree, whose Count is the number of pages; each Kids entry names the object that is that page and its Contents names the object that holds that page's stream |
| Pdf.BuildPdf | apps/worker/src/notifications/notification-attachments.ts:1095-1109 | The two loops over body and offsets produce exactly the bytes of the specified file |
| Pdf.Report.DrawBlock | apps/worker/src/notifications/notification-attachments.ts:976-992 | Drawing a block loses, repeats and reorders no command however the page breaks fall, adds at most one page, and a block that fits a page ends above the footer |
| Pdf.Report.AddFooters | apps/worker/src/notifications/notification-attachments.ts:1020-1029 | Every page keeps its commands and gets its footer after them, with its own number and the number of pages |
| Pdf.Report.ToBuffer | apps/worker/src/notifications/notification-attachments.ts:994-1013 | Writes the file of the pages with their footers |
| Pdf.Utf8Ascii | apps/worker/src/notifications/notification-attachments.ts:1100 | Byte length equals text length for ASCII text, byte by byte |
| Escaping.ChainIsOnePass | apps/worker/src/exports/export-worker.ts:1279-1281 | Three chained replacements, the backslash first, escape each special character exactly once: no pass escapes what an earlier one inserted |
| Escaping.SearchFindsSubstring | apps/worker/src/exports/export-worker.ts:1271-1286 | The pattern built from a non-blank query matches a text, under the LIKE rules of section 8.5 of ISO/IEC 9075-2 with letters folded, exactly when the text contains the trimmed query, backslashes, percent signs and underscores included |
| Escaping.SelectedExactly | apps/worker/src/exports/export-worker.ts:1271-1286 | A row is selected exactly when the query is blank or some column that is not null contains it |
| Escaping.LikeEscaped | apps/worker/src/exports/export-worker.ts:1279-1281 | An escaped text matches exactly itself, then the rest of the pattern follows |
| Escaping.PdfTextRoundTrip | apps/worker/src/notifications/notification-attachments.ts:1382-1384 | A reader of PDF literal strings (section 7.3.4.2 of ISO 32000-1) gets the escaped text back, stopping at the parenthesis written after it, exactly when it has no carriage return |
| Escaping.ReadEscaped | apps/worker/src/notifications/notification-attachments.ts:1382-1384 | In general it gets the text with its line ends normalised |
| Csv.SplitCsvLine | apps/worker/src/import-export/import-parser-registry.ts:180-201 | The scanning loop returns the fields of the specification for every line |
| Csv.LineRoundTrip | apps/worker/src/exports/export-worker.ts:1382-1387 | For every non-empty list of fields, scanning the line either writer makes gives back each field trimmed |
| Csv.DocumentRoundTrip | apps/worker/src/exports/export-worker.ts:1362-1370 | A whole document with two or more plain headers and fields without line breaks parses back to its rows, for both writers, with or without the final line feed |
| Csv.CellReadsBack | apps/worker/src/import-export/import-parser-registry.ts:171-178 | With distinct headers, row r and header h of the parsed document hold the trimmed field written there |
| Csv.OneColumnExact | apps/worker/src/import-export/import-parser-registry.ts:171-178 | A one-column document loses exactly the rows whose cell is blank in the export form and none in the quoted form, so it round-trips exactly when none is lost |
| ImportParser.ParsedCellsTrimmed | apps/worker/src/import-export/import-parser-registry.ts:171-201 | Whatever a CSV tender file holds, every cell that reaches validation is null or trimmed text |
| ImportParser.First | apps/worker/src/import-export/import-parser-registry.ts:303-308 | The loop over the accepted column names returns the first present, non-empty cell, or null |
| Csv.ScanCell | apps/api/src/modules/import-export/application/import-export.service.ts:517-520 | Scanning a cell of either writer up to the next comma yields the field |
| Permissions.ExpandIsLeastClosed | apps/api/src/common/auth/permission-utils.ts:38-56 | The expansion is the least superset of the given permissions that is closed under the implication table |
| Permissions.ExpandPermissions | apps/api/src/common/auth/permission-utils.ts:38-56 | The worklist loop terminates and returns the expansion |
| Permissions.ExpandMonotone | apps/api/src/common/auth/permission-utils.ts:38-56 | Permissions already implied by another list expand to nothing beyond it |
| Permissions.ExpandSameSet | apps/worker/src/exports/export-worker.ts:982-998 | The expansion does not depend on order or repetition |
| Permissions.ExpandIdempotent | apps/api/src/common/auth/permission-utils.ts:38-56 | Expanding an expansion adds nothing |
| Permissions.ExportMatchesApi | apps/worker/src/exports/export-worker.ts:867-980 | For every user the API authenticates, report, row and tenant of a job: the export selects the row exactly when the API does, if and only if the user's home is the job's tenant or the API does not select the row |
| Permissions.OrdinaryUsersAgree | apps/api/src/modules/identity-access/application/auth.service.ts:514-530 | Users who are no platform super administrators always act in their home tenant, and export and API agree on every row for them |
| Permissions.SuperAdminsExactly | apps/worker/src/exports/export-worker.ts:893-925 | A platform super administrator's export selects every row in the home tenant and none in any other, while the API selects every row in both |
| Permissions.HomelessAdminExportsNothing | db/migrations/0001_foundation.sql:51-53 | The failing input: an administrator without a home tenant, logged in under a tenant's code, sees every row and exports none |
| Permissions.InactiveUsersStillExport | apps/api/src/modules/identity-access/infrastructure/session.repository.ts:84-88 | A user deactivated after asking for an export selects nothing through the API any more, and still exports exactly the rows of the user's scope; a deleted user exports nothing |
| Permissions.ApplyScope | apps/worker/src/exports/export-worker.ts:1254-1269 | The condition added to a query lets through exactly the rows the scope selects |
| Permissions.ScopesExact | apps/worker/src/exports/export-worker.ts:893-980 | Which rows API and export select for a user: expiry reports by access level alone, others by the strongest reading permission, expanded, that fits the level; all rows, those of the user's entities, or the user's own |
| Permissions.UpdatersRead | apps/api/src/common/auth/permission-utils.ts:66-82 | A group user who may update all cases may read every row |
| AdminUsers.RunKeeps | apps/api/src/modules/identity-access/application/admin-users.service.ts:391-627 | After every sequence of create, status, level, role, assignment and scope operations that name existing entities: an active administrator remains, and every user has a role, the level all its roles require, and an entity whenever the level or a role needs one |
| AdminUsers.ApplyKeeps | apps/api/src/modules/identity-access/application/admin-users.service.ts:391-627 | Each operation keeps these invariants, whether or not it is refused |
| AdminUsers.RoleGuardExact | apps/api/src/modules/identity-access/application/admin-users.service.ts:649-702 | The two guards pass exactly for assignments that keep a user in order |
| AdminUsers.RoleErrorExact | apps/api/src/modules/identity-access/application/admin-users.service.ts:649-702 | The role guard passes exactly for existing roles that ask for no other level and lack no entity, and each of its refusals has its own cause |
| AdminUsers.OpExact | apps/api/src/modules/identity-access/application/admin-users.service.ts:115-627 | For each operation: exactly when it is refused, and what it leaves in the users, column by column |
| AdminUsers.UnknownEntitiesExact | apps/api/src/modules/identity-access/infrastructure/user.repository.ts:780-813 | Replacing scopes by ids that pass the guard keeps the invariants exactly when one of them exists or none is needed: the guard counts ids, the insert drops unknown ones |
| AdminUsers.LastAdminExact | apps/api/src/modules/identity-access/application/admin-users.service.ts:704-724 | A status change is refused for the last administrator exactly when it would deactivate the only active one |
| AdminUsers.AdminRemains | apps/api/src/modules/identity-access/infrastructure/user.repository.ts:347-363 | Changing one user leaves an active administrator if there was another or the user stays one |
| AdminUsers.Service.CreatePendingUser | apps/api/src/modules/identity-access/application/admin-users.service.ts:115-238 | Refuses exactly when level, roles and entities do not fit or the password is missing or weak; else stores the user with the requested status and exactly the existing roles and entities listed |
| AdminUsers.Service.ChangeStatus | apps/api/src/modules/identity-access/application/admin-users.service.ts:391-419 | Refuses exactly to deactivate the only active administrator; else sets the status of that user and nothing else |
| AdminUsers.Service.ChangeAccessLevel | apps/api/src/modules/identity-access/application/admin-users.service.ts:421-455 | Sets the level exactly when the user's present roles and entities fit it, and nothing else |
| AdminUsers.Service.ReplaceUserRoles | apps/api/src/modules/identity-access/application/admin-users.service.ts:457-502 | Replaces the roles by the existing ones listed exactly when permitted, the user exists, they fit and an administrator remains; nothing else changes |
| AdminUsers.Service.ReplaceAccessAssignment | apps/api/src/modules/identity-access/application/admin-users.service.ts:504-583 | Replaces level, roles and entities together, with no entities for group access, exactly when permitted, fitting and leaving an administrator; nothing else changes |
| AdminUsers.Service.ReplaceScopes | apps/api/src/modules/identity-access/application/admin-users.service.ts:585-627 | Replaces the entity scopes by the existing ones listed exactly when they fit the user's level and roles; nothing else changes |
| AdminUsers.Service.WriteRoles | apps/api/src/modules/identity-access/infrastructure/role.repository.ts:319-353 | Deleting and inserting one by one leaves exactly the assignable roles of the list |
| AdminUsers.Service.WriteEntityScopes | apps/api/src/modules/identity-access/infrastructure/user.repository.ts:780-813 | Deleting and inserting one by one leaves exactly the existing entities of the list |
| DateOnly.AcceptsExactlyRealDates | apps/api/src/common/utils/date-only.ts:18-27 | The validator accepts exactly the real Gregorian dates of the years 100 to 9999 in the form YYYY-MM-DD |
| DateOnly.ShortYearMoves | apps/api/src/common/utils/date-only.ts:22 | Years below 100 never read back, which is why they are refused |
| DateOnly.AddThenDiff | apps/api/src/common/utils/date-only.ts:29-50 | Adding n days and taking the difference gives n exactly when the result has a four-digit year |
| DateOnly.AddAdd | apps/api/src/common/utils/date-only.ts:29-39 | Adding a then b equals adding a + b whenever the date in between has a four-digit year, and otherwise the second addition changes nothing |
| DateOnly.AddZero | apps/api/src/common/utils/date-only.ts:29-39 | Adding nothing returns the date itself exactly for years from 1000 |
| DateOnly.FormatDayReads | apps/api/src/common/utils/date-only.ts:68-70 | A printed day reads back as that day exactly when its year has four digits |
| DateOnly.StringOrderIsDayOrder | apps/worker/src/import-export/import-worker.ts:1327-1366 | Valid dates compare as strings as they do as days |
| Calendar.DayFromYearFormula | apps/api/src/common/utils/date-only.ts:22 | The counted lengths of years equal the closed form of section 21.4.1.3 of ECMA-262 |
| Calendar.FieldsOfDay | apps/api/src/common/utils/date-only.ts:29-39 | Making a day from a day's fields gives the day back, and the fields are a real date |
| Calendar.DayOfFields | apps/api/src/common/utils/date-only.ts:18-27 | A real date is read back field by field |
| Calendar.RoundTripIffReal | apps/api/src/common/utils/date-only.ts:22-26 | Fields read back unchanged exactly for real dates, the test the validators use |
| Calendar.DayOrder | apps/worker/src/import-export/import-worker.ts:1327-1366 | Real dates are ordered as their day numbers |
| Calendar.NextMonthDay | apps/worker/src/notifications/notification-scheduler.ts:1045-1047 | The same date a month on lies 28 to 31 days later, December carrying into the next year |
| ImportCells.ExcelSerialIsDayCount | apps/worker/src/import-export/import-worker.ts:1717-1727 | A spreadsheet serial is the date that many days after 30 December 1899 |
| ImportCells.DayFirstMeaning | apps/worker/src/import-export/import-worker.ts:1696-1715 | Text with separators is read day first: it parses exactly when those numbers are a real date from year 100 on, to that very day |
| ImportCells.ParsedTextIsDate | apps/worker/src/import-export/import-worker.ts:1696-1715 | Whatever text parses to is a valid date that parses to itself |
| ImportCells.FormattedDayParses | apps/worker/src/import-export/import-worker.ts:1767-1802 | A formatted day parses to itself when it is a valid date and to nothing otherwise |
| ImportCells.AnswerRead | apps/worker/src/import-export/import-worker.ts:1746-1756 | Which answer a yes/no cell gives: the words in any case and with blanks around them, ones, zeros and typed answers; any other cell is kept |
| ImportCells.AmountRead | apps/worker/src/import-export/import-worker.ts:1740-1744 | Which number an amount cell gives: that of its trimmed text without commas; a cell that is no number is kept |
| ImportCells.CommasRemoved | apps/worker/src/import-export/import-worker.ts:1742 | Commas make no difference wherever they stand, and nothing else is removed |
| ImportCells.DateRead | apps/worker/src/import-export/import-worker.ts:1696-1727 | Which day a date cell gives: text with separators read day first, dates as they are, serials counted from 30 December 1899, date objects their day; any other cell is kept |
| ImportRows.ChronologyExact | apps/worker/src/import-export/import-worker.ts:1327-1366 | The chronology check is silent exactly when all present milestone dates are pairwise in order, across any gaps, and both evaluations lie between bid receipt and NFA submission, compared as days |
| ImportRows.ChainExact | apps/worker/src/import-export/import-worker.ts:1327-1350 | One pass down the chain finds no fault exactly when the rest is pairwise in order and not before the last date met |
| ImportRows.ValidateChronology | apps/worker/src/import-export/import-worker.ts:1327-1366 | The loops append exactly the messages of the specification |
| ImportRows.NormalizeValidatedPayload | apps/worker/src/import-export/import-worker.ts:1651-1694 | The loops leave a yes/no cell true exactly for true, one and the four yes words and false exactly for false, zero and the four no words; amounts lose their commas; dates mean the day their cell means; priority is set by its four words; the description is the first there is; any other cell is kept |
| ImportRows.NormalizedExact | apps/worker/src/import-export/import-worker.ts:1651-1694 | Field by field what normalising leaves, for every payload: dates, amounts and answers read from their own cells, a priority flag and a description always written, all else kept |
| ImportBatch.TextOfExact | apps/worker/src/import-export/import-worker.ts:1645-1649 | Which text an identifier cell of any kind counts as: its text without the blanks around it, a number as it prints, a date's day; empty cells as none |
| ImportBatch.SanitizedExact | apps/worker/src/import-export/import-worker.ts:1318-1325 | A sanitised entity code has capital letters, digits and single inner underscores only, and exactly the letters and digits of the code |
| ImportBatch.BulkIdInjective | apps/worker/src/import-export/import-worker.ts:1278-1305 | Distinct sequence numbers give distinct generated ids, even case-folded |
| ImportBatch.NextFreeIsFirst | apps/worker/src/import-export/import-worker.ts:1278-1305 | The search ends, at the first sequence number from the start on whose folded id is not taken |
| ImportBatch.RunChecksClean | apps/worker/src/import-export/import-worker.ts:369-423 | The typed checks leave no message exactly when there was none before and no cell is present with the wrong kind |
| ImportBatch.RunChecksExact | apps/worker/src/import-export/import-worker.ts:369-423 | The messages after the typed checks are those there were, in front, and exactly one text for each check that fails |
| ImportBatch.Batch.AssignTenderBulkPrId | apps/worker/src/import-export/import-worker.ts:1278-1305 | A row's own id stays and fills a missing scheme number; a row without one gets in both fields the id of the first free number after the last; the search terminates and no other field changes |
| ImportBatch.CompletionExact | apps/worker/src/import-export/import-worker.ts:652-668 | A missing completion date becomes the receipt date plus the tender type's days when both are known; a date the row has, and every other field, stays |
| ImportBatch.Batch.ValidateTenderIdentifiers | apps/worker/src/import-export/import-worker.ts:1252-1276 | Appends the identifier messages against the seen-sets as they were and adds the row's folded identifiers to them |
| ImportBatch.Batch.ValidateImportRow | apps/worker/src/import-export/import-worker.ts:220-367 | Validates one row against the shared state as the row specification says and leaves the state for the next row |
| ImportBatch.Batch.ValidateRows | apps/worker/src/import-export/import-worker.ts:151-218 | The loop over the file threads the seen-sets and the sequence through all rows |
| ImportBatch.ValidateTenderCaseDbSafePayload | apps/worker/src/import-export/import-worker.ts:369-423 | The loop of typed checks returns the messages of the specification |
| CommitGate.AcceptedRowsDistinct | apps/worker/src/import-export/import-worker.ts:184-217 | Over the whole row loop, accepted rows have pairwise distinct folded PR ids and, where present, pairwise distinct tender numbers |
| CommitGate.GeneratedIdsFresh | apps/worker/src/import-export/import-worker.ts:1278-1305 | Every generated id differs from all existing ones, from those seen before and from those of all earlier rows, accepted or not |
| CommitGate.AcceptedRowInOrder | apps/worker/src/import-export/import-worker.ts:220-367 | An accepted row's stored milestones are in order and its evaluations in range |
| CommitGate.RowAcceptedExactly | apps/worker/src/import-export/import-worker.ts:220-367 | Exactly when a row is accepted: nothing found before or by the lookups, identifiers new in the file, a tender number free for it, milestones in order, and every typed cell blank or of its kind; a row with nothing but unknown references is staged |
| CommitGate.StoredSays | apps/worker/src/import-export/import-worker.ts:220-367 | Every row is stored with the values its own cells mean, but for its identifiers and a derived completion date |
| CommitGate.AcceptedRowCommits | apps/api/src/modules/import-export/infrastructure/import-export.repository.ts:411-506 | An accepted row, whatever mixture of text, numbers, serial dates, date objects and booleans it came from, passes the typed check of the commit transaction exactly when none of its typed cells holds blank, non-empty text |
| CommitGate.CsvRowCommits | apps/api/src/modules/import-export/infrastructure/import-export.repository.ts:411-506 | For trimmed text cells, as the CSV reader leaves them, no accepted row fails the commit-time check |
| CommitGate.GateIffAllAccepted | apps/api/src/modules/import-export/infrastructure/import-export.repository.ts:359-374 | With the worker's counters the commit gate opens for a parsed job exactly when every row is accepted |
| CommitGate.DryRunGateIffAllAccepted | apps/api/src/modules/import-export/infrastructure/import-export.repository.ts:294-350 | With the dry-run counters the gate opens on the same condition |
| CommitGate.OpenGateCommits | apps/api/src/modules/import-export/infrastructure/import-export.repository.ts:359-374 | For a CSV tender file of newly parsed rows the gate opens exactly when all rows were accepted, and then no row fails the typed check |
| ImportParser.FileToCommit | apps/api/src/modules/import-export/infrastructure/import-export.repository.ts:359-374 | From the text of any CSV tender file: the commit gate opens exactly when the worker accepted every row, and then no row fails the typed check of the commit |
| Text.TrimIdempotent | apps/worker/src/import-export/import-parser-registry.ts:180-201 | Trimming trimmed text changes nothing |
| Text.TrimExact | apps/worker/src/import-export/import-parser-registry.ts:180-201 | Trimming takes white space off both ends, all of it and nothing else |
| Text.LexDigits | apps/worker/src/import-export/import-worker.ts:1327-1366 | Digit strings of one length compare as the numbers they denote |
| Text.DecimalInjective | apps/worker/src/import-export/import-worker.ts:1278-1305 | Different numbers have different numerals |
| Text.PaddedWidth | apps/worker/src/notifications/notification-attachments.ts:1105 | A zero-padded number has the padded width exactly when it is small enough |

## Left out

- Tenants: one tenant is modelled; every key and table is per tenant in the source.
- Commits whose outcome the client never learns: a transaction either commits, or fails and is seen to fail, or its process dies.
- Scheduler attachments, audit rows, templates, preferences and `event_window_end`: the recipients a build finds eligible are a parameter, and an attachment failure is one of the failures before finalising.
- The order by and the limit of the claiming queries beyond the batch size: any admissible subset of due rows may be picked.
- ScheduleClock.DailyNextIsLeast: for local years from 100 on, since `Date.UTC` reads years 0 to 99 as 1900 to 1999; instants outside the platform's time range are not modelled. MonthlyNextIsLeast and the theorems on runs are stated for the same years.
- Outbox events of types no dispatcher selects stay pending forever; all modelled events have a selected type.
- An outbox maximum that is not a number: the maximum is an integer, and one below 1 counts as 1. Queue names and message payloads per event type are not modelled.
- NotificationJob.EveryRunIsSafe: claims commit or their worker dies; the claim that fails is a separate action with its own exact lemma. Retry times (`next_retry_at`), which the claim does not read, and manual retries are not modelled.
- Projection: `current_date` is fixed, each projection statement is one atomic step, and imports, which write facts themselves and emit no event, are no action of the model. The plan row keeps only what tells the two kinds of expiry facts apart; how plan facts follow their source case is not stated.
- ProjectionConvergence.WriteAwardKeeps: award ids and case ids never coincide, as fresh random ids do not.
- Awards: case versions, user stamps, award columns no rollup reads, and the service's permission checks. Milestone edits outside the award operations are no action of this model.
- LoginLimiter.AtMostTwiceMaxLessTwo: logins of one key do not interleave and no success clears the key; sessions, hashing and account lockout are not modelled.
- Pdf.XrefExact: texts are sequences of Unicode scalar values, so unpaired surrogates, which the platform replaces on encoding, do not occur; page layout, wrapping and colours are parameters of the commands pushed.
- Escaping.SearchFindsSubstring: letter case is a function on single characters; collations that fold across characters are not modelled.
- Csv.DocumentRoundTrip: fields without line breaks and headers that need no quoting, the inputs the reader handles.
- ImportBatch: lookups, catalog, owner, money, count and LOI validators push messages that are inputs of the row; only tender imports are followed. How a number prints (`String`) is any function, and `toLowerCase` any function that lowers ASCII text letter by letter and maps only the empty text to the empty text.
- ImportBatch.Batch.ValidateImportRow: those inputs stand for the messages pushed before, between and after the modelled checks.
- ImportBatch.Batch.ValidateRows: the same inputs, one set for each row.
- SchedulerProtocol.Tables.BuildJobsForSchedule: which recipients are eligible is a parameter.
- A spreadsheet date object is the local calendar day it falls on; which day that is depends on the server's time zone.
- The spreadsheet reader and header detection; of the column names, those of tender fields that the typed checks, the identifiers or the normalisation read.
- Numbers in cells: `Number(text)` is a parameter returning a real; not-a-number and infinities count as no number. Case folding and trimming cover the characters listed in `Text`.
- AdminUsers.RunKeeps: operations follow one another, role definitions do not change, user ids belong to the tenant, and entity ids exist; profile updates, mails and bulk user import are not modelled.
- Permissions: names that every JavaScript object inherits, such as `constructor`, are no keys of the implication table here.
- React screens, HTTP controllers, storage, the mail provider, Redis, the queue's internals, caching and idempotency interceptors.
