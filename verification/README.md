# A verified model of the job engine, the scheduler, the SKU imports and two refinements

The project models the part of the back office whose correctness depends on several functions working together,
and proves what that part promises.

* **Job engine** (`JobModel`, `JobProtocol`, `JobInvariant`, `JobTheorems`, `JobOutcomes`, `JobCancellation`,
  `JobDraining`, `JobResumption`, `JobCounters`, `JobScenarios`, `JobBlocks`, `JobWorkers`, `JobCreation`). A job is a
  row with batches of items; workers, dispatch calls and API requests share these rows and a bag of broker messages.
  `JobProtocol` is a step system: one label for every commit of every actor to these rows, including the two commits
  of a failing dispatch call, the loss of a worker with redelivery of its message, a publication that fails although
  the broker kept the message, revocation, and `mark_failed` from every exception, for any message in the hands of a
  worker. `JobInvariant` proves one inductive invariant over all labels; the theorems are about every run. The three
  batch processors are one protocol; the field `early` says whether cancellation is checked before the claim
  (ingestion, silver) or after it (e-mail). `JobBlocks` proves the loops that change rows in place equal to the block
  functions of the protocol, and `JobWorkers` proves that `process` and `dispatch_job`, written as loops with
  arbitrary interference before every read, take only steps of the protocol, that every item ends as its payload did,
  and that exactly the batches the broker takes are published.
* **Scheduler** (`Schedule`, `Scheduler`, `TickOrder`, `ScheduledJobs`). Instants are integers in microseconds. The
  next run is specified as the least element of a set of instants; the day and step loops are proved to find it on
  every stored configuration. A tick is `run_due` over the list of values its clock shows and the list of what happens
  to each execution. `TickOrder` reads off the rows and the clock before a tick which schedules it handles;
  `ScheduledJobs` composes firings, their idempotency keys and `create_job`.
* **SKU catalogue and imports** (`Text`, `SkuCatalogue`, `SkuSnapshot`, `ExcelReader`, `SkuImport`, `Promotions`). The
  synchronization loops, with the dictionary they update, are proved equal to a description of the catalogue row by
  row, and that description to a set specification. The workbook reader is proved to establish what the request
  schemas and `bulk_sync` rely on.
* **Batched loading** (`DataLoader`) and **payments** (`Payments`, `PaymentEmails`). Column-wise queries with
  regrouping equal one query a key; grouping payments and attaching their files conserves money and files; the
  renaming loops end.

## What the proofs found

Some promises hold only under a condition. Each is stated here with the lemma that gives the exact one.

* A cancellation is irrevocable exactly when no dispatch call is under way at its commit: none that scans, none
  between its store and its publication, and none whose caller still has to write DISPATCH_FAILED. That write comes in
  a commit of its own and looks at no status, so it can replace CANCELLED, also when nothing is left to publish
  (`CancelIsIrrevocableExactly`, `LateFailureUndoesCancel`, `OwedFailureUndoesCancel`). Only a stored batch can become
  dispatchable again (`CancelStopsDispatchExactly`). A payload can start after the cancellation exactly when, besides
  a dispatch call, some running batch has its message and a PENDING item (`CancelStopsWorkExactly`,
  `PayloadStartsAfterCancel`).
* A settled status is final exactly when no dispatch call is under way and, unless the job is cancelled or has no
  message left, the comparison `JobOutcomes.Steady` holds. It compares the rows with the status, the interrupted items
  with the failed ones and the executing workers with both. An exception after the last refresh, or one for an old
  message, can otherwise replace COMPLETED by FAILED or FAILED by COMPLETED (`SettledIsFrozenExactly`,
  `LateMarkUndoesOutcome`, `StaleMarkOverwritten`). No dispatch call, nothing RUNNING, nobody executing and no refresh
  outstanding is enough (`CalmIsFinal`).
* A terminal item is final exactly when no worker is executing it (`TerminalItemIsFinalExactly`). A message that is
  not current changes rows exactly when its handling raises and its batch is not FAILED yet (`StaleMessageExactly`).
* With no refresh outstanding a job whose batches have all ended is terminal exactly when no DISPATCH_FAILED was
  written since the last recount; between the two commits of a failed publication a terminal job can have a PENDING
  batch (`CompletionExact`). Without crashes an outstanding refresh is always owed by somebody (`DirtyIsOwed`).
* `processed_items` can exceed `total_items` when an item ends twice. `FastCountersRefineRecount` says when it does
  after a run, and `ProcessedStaysExactly` when it cannot any more in a job whose batches have ended.
* A cancelled job can still end exactly when every running batch has some message left. A worker lost after the
  cancellation, whose message the broker then drops as revoked, leaves its batch RUNNING and the job open
  (`CancelCanFinishExactly`, `RevokedMessageStrandsBatch`). It must end, on every run without lost workers, exactly
  when every running batch has its message in the hands of a worker (`CancelEndsExactly`).
* DISPATCH_FAILED comes with a batch to resume, until somebody resumes or cancels, exactly when no dispatch call
  publishes and some PENDING batch has no message from an earlier publication (`FailedDispatchResumableExactly`). On
  whole runs four conditions are enough, and none can be dropped (`SerialRunsStayResumable`, `EachConditionIsNeeded`,
  `DeliveredFailureStrandsJob`).
* A worker lost between ending the last batch and the refresh leaves a job that only a cancellation or an exception of
  the redelivered message settles, and only a cancellation once that message is gone (`SettlesByItselfExactly`,
  `LostRefreshReachable`).
* An item interrupted by the loss of its worker stays RUNNING, and the job can still settle as COMPLETED
  (`CompletedWithInterruptedItem`). A batch that ended has exactly as many RUNNING items as workers were lost on it
  since its last `mark_failed` (`CrashDamageExactly`). All items are accounted for, and COMPLETED means that every
  item succeeded, exactly when no batch has such a loss (`AllAccountedExactly`, `OutcomeMeaningExactly`).
* An empty idempotency key is stored but not looked up: the second call with it is refused (`EmptyKeyIsRefused`).
* A tick handles exactly the schedules due at its start when the clock of the next iteration is before every next run,
  and none twice exactly when nobody who is due again jumps the queue; both conditions are about the rows and the
  clock before the tick (`NothingElseExactly`, `NobodyTwiceExactly`, `SlowExecutionFiresAgain`).
* A row whose key a later row repeats is invisible to `bulk_sync` and to `sync_snapshot`; the set specifications hold
  exactly when no such row matters (`ActiveSetExactly`, `SnapshotExactly` of both modules).
* `unchanged` of a promotion snapshot is the size of an intersection exactly when no key is asked twice
  (`UnchangedExactly`); an imported sheet always satisfies this (`ImportedUnchanged`).
* Two uploads with one name share one stored path, so one file is attached to both payments and the other to none
  (`EachFileOnceExactly`). A reference exceeds its column exactly when all candidates that fit are taken, which 98
  references can bring about (`OverflowsExactly`, `NinetyEightOverflow`).
* The message of the size check in `excel_reader.py:68` says 5 MB while the limit is 50 MB (line 20); the size check
  is not modelled.

## Assumptions

* Every block between two commits is atomic and works on fresh rows; the dispatch loop re-reads each batch, so a stale
  list of dispatchable batches does not overwrite a cancelled one. Sessions are created with `expire_on_commit=False`
  (`app/core/db/session.py:22`), and before an item the worker re-reads only `status` of the job. A refresh by a
  session that read the job row before a cancellation, which is every worker past its claim, therefore does not see
  `cancel_requested_at`: if it ends the last batch, the job settles as COMPLETED or FAILED. With fresh rows it settles
  as CANCELLED; `CachedRowExactly` says when the two differ and `CachedRowOverlooksCancel` shows such a run. For the
  same reason a worker starts an item that `mark_failed`, called for another message, has failed meanwhile, and a
  session does not write a column whose new value equals its cached one.
* A publication that raises may still have been delivered, but its message is handed out only after the batch was put
  back. The commits that put a batch back and write DISPATCH_FAILED do not fail, and the process that dispatches does
  not die during a call.
* Task ids are fresh, and a message is held by at most one worker at a time. Modules are enabled.
* `mark_failed` and the refresh that follows it do not raise themselves; losing the worker between the two is
  modelled.
* Rows with equal creation times come in batch order, and a database query returns the matching rows in one fixed
  order.
* The time zone has a fixed whole-minute offset. `strftime` of a slot is represented by the second it shows; its texts
  tell seconds apart. The text of a schedule id has no colon.
* White space and digits are ASCII. Casefold is an arbitrary function on texts.
* The uploads of an e-mail request are stored under different, non-empty paths.
* Active providers have different ids.

## Model

| member | source | states |
|---|---|---|
| JobModel.TallyPartition | app/api/jobs/service.py:304-321 | every item is in exactly one of the five status columns of the group-by |
| JobModel.TotalPartition | app/api/jobs/service.py:304-321 | the group-by over all batches counts every item of the job exactly once |
| JobModel.FinishedCountAll | app/api/jobs/service.py:322-339 | `finished_batches == total_batches` holds exactly when every batch has ended |
| JobModel.CancelItems | app/services/analytics_silver/processor.py:196-200 | cancelling changes exactly the pending items, to CANCELLED, and keeps length, order and everything else |
| JobModel.FailItems | app/services/analytics_silver/processor.py:97-102 | failing changes exactly the pending and running items, to FAILED, and keeps length, order and everything else |
| JobModel.CancelItemsTally | app/services/analytics_silver/processor.py:195-204 | cancelling moves the pending column into the cancelled one and leaves the other three |
| JobModel.FailItemsTally | app/services/analytics_silver/processor.py:97-105 | failing moves the pending and running columns into the failed one and leaves the other two |
| JobModel.CancelIdleTotals | app/api/jobs/service.py:223-246 | cancelling a job moves exactly the pending items of its idle batches from the pending column to the cancelled one, and leaves the other three columns and every batch that is not idle |
| JobInvariant.CreatedInv | app/api/jobs/service.py:78-121 | what `create_job` commits satisfies the invariant |
| JobInvariant.StoreInv | app/workers/dispatcher.py:99-105 | storing a fresh task id and QUEUED keeps the invariant |
| JobInvariant.PublishOkInv | app/workers/dispatcher.py:106-111 | a publication that returns keeps the invariant |
| JobInvariant.PublishFailInv | app/workers/dispatcher.py:112-118 | the commit that puts a batch back to PENDING keeps the invariant, whether or not the broker kept the message and whatever the job says by then |
| JobInvariant.DispatchEndInv | app/api/jobs/service.py:351-361 | the end of a dispatch call, with or without an exception, and the later commit of its caller that writes DISPATCH_FAILED over any status keep the invariant |
| JobInvariant.ResumeInv | app/api/jobs/service.py:266-275 | the resume branch of `retry_job` keeps the invariant |
| JobInvariant.CancelInv | app/api/jobs/service.py:217-248 | the commit of `cancel_job` keeps the invariant |
| JobInvariant.RecountSettles | app/api/jobs/service.py:310-348 | a recount makes the counters exact, never reopens a settled job and settles it when every batch has ended |
| JobInvariant.RefreshNowInv | app/api/jobs/service.py:248-249 | the refresh of `cancel_job` keeps the invariant |
| JobInvariant.RefreshInv | app/services/analytics_silver/processor.py:192-193 | the refresh of a worker keeps the invariant |
| JobInvariant.BatchStructure | app/services/analytics_silver/processor.py:40-64 | a worker block leaves the other batches, messages and dispatch calls consistent |
| JobInvariant.ClaimInv | app/services/analytics_silver/processor.py:40-70 | the claim keeps the invariant |
| JobInvariant.StartItemInv | app/services/analytics_silver/processor.py:109-116 | the first commit of an item keeps the invariant |
| JobInvariant.EndItemInv | app/services/analytics_silver/processor.py:118-135 | the second commit of an item, with its in-transaction counter increments, keeps the invariant |
| JobInvariant.CancelRestInv | app/services/analytics_silver/processor.py:195-204 | `_cancel_pending`, before or after the claim, keeps the invariant |
| JobInvariant.EndBatchInv | app/services/analytics_silver/processor.py:182-192 | the commit of `_finish_batch` keeps the invariant |
| JobInvariant.MarkFailedInv | app/services/analytics_silver/processor.py:88-107 | the commit of `mark_failed` keeps the invariant, for every message in the hands of a worker, current or not, and whatever its batch is doing |
| JobInvariant.CrashInv | app/services/analytics_silver/processor.py:109-135 | losing a worker at any point and redelivering its message keeps the invariant |
| JobInvariant.StepInv | app/services/analytics_silver/processor.py:15-107 | every commit of every actor keeps the invariant |
| JobInvariant.RunInv | app/services/analytics_silver/processor.py:15-107 | every state of every run keeps the invariant |
| JobTheorems.StepItem | app/services/analytics_silver/processor.py:109-135 | one commit moves an item at most one step along its life, of which only FAILED to SUCCEEDED leaves a final status, and only the first commit of `_process_item` raises `attempts` |
| JobTheorems.RunItem | app/services/analytics_silver/processor.py:109-135 | over a run an item only advances, and `attempts` grows by the number of times its payload was executed |
| JobTheorems.AtMostOnce | app/api/finance/payment_provider/email_job_processor.py:107-148 | on every run, with crashes, redeliveries, cancellations and failed publications, a payload is executed at most once and `attempts` says how often |
| JobTheorems.ItemsOnlyAdvance | app/api/finance/payment_provider/email_job_processor.py:107-148 | from any reached state on an item never returns to PENDING, a success and a cancellation are final, and a failure is final or becomes a success |
| JobTheorems.TerminalItemIsFinalExactly | app/api/finance/payment_provider/email_job_processor.py:107-148 | a terminal item never changes on any later run if and only if no worker is executing it at that moment |
| JobTheorems.PayloadKept | app/services/analytics_silver/processor.py:118-129 | an item that did not succeed still has the reference and payload it was created with |
| JobTheorems.StaleMessageExactly | app/services/analytics_silver/processor.py:26-27 | a step for a message whose id is not the id of its batch changes batch rows if and only if it is the `mark_failed` of an exception and the batch is not FAILED yet; only the refresh after it touches the job row |
| JobTheorems.FailedAlready | app/services/analytics_silver/processor.py:97-105 | `mark_failed` changes nothing exactly when the batch is FAILED already |
| JobTheorems.AheadExactly | app/api/jobs/service.py:297-321 | the processed counter is ahead of the rows by the items that ended twice since the last refresh, less the items that `mark_failed` and cancellations have closed since |
| JobTheorems.OneCarrier | app/workers/dispatcher.py:99-118 | a PENDING batch has no id; a QUEUED batch has exactly one live message or publication under way, with its id; a RUNNING batch has exactly one message unless that message was revoked after a cancellation |
| JobTheorems.OneWorkerPerBatch | app/services/analytics_silver/processor.py:41-67 | two workers never work on one batch at the same time |
| JobTheorems.FastCountersRefineRecount | app/api/jobs/service.py:297-349 | whenever no refresh is outstanding the counters kept by increments equal the group-by; `succeeded_items` always does, `processed_items` is always the sum of the three, and it stays within `total_items` if and only if it is not further ahead of the rows than there are items without a final status |
| JobTheorems.LateExactly | app/api/jobs/service.py:356-361 | in a job whose batches have all ended and that owes no recount the status is DISPATCH_FAILED if and only if it was written after the last recount |
| JobTheorems.CompletionExact | app/api/jobs/service.py:339-348 | with no refresh outstanding the counters are exact, and a job whose batches have all ended is terminal if and only if no DISPATCH_FAILED was written since the last recount; a terminal job has only ended batches, unless a failed publication put one back and its caller still owes DISPATCH_FAILED |
| JobTheorems.RunClosed | app/api/jobs/service.py:339-348 | a terminal job, also one with a batch that was put back, has no PENDING item and no RUNNING item that a worker executes |
| JobTheorems.StepInterruptions | app/services/analytics_silver/processor.py:109-135 | only the loss of a worker on an item of a running batch raises the interruption count of the batch, by one, and only `mark_failed` resets it |
| JobTheorems.InterruptionsCounted | app/services/analytics_silver/processor.py:109-135 | the interruption count of a batch is the number of workers lost on its items along the run since its last `mark_failed` |
| JobTheorems.CrashDamageExactly | app/services/analytics_silver/processor.py:74-107 | a batch that ended has no PENDING item, and exactly as many RUNNING items as workers were lost on it since its last `mark_failed`, which is at most its `attempts` |
| JobTheorems.AllAccountedExactly | app/api/jobs/service.py:310-321 | when all batches have ended or the job is terminal, succeeded + failed + cancelled = total if and only if no batch has an interruption left; without an outstanding refresh the counter of the job says so |
| JobTheorems.CrashFreeRunsAccountForAll | app/api/jobs/service.py:310-321 | in particular, a job that is terminal on a run without crashes has succeeded + failed + cancelled = total in its rows and, with no refresh outstanding, in its counters |
| JobTheorems.OutcomeMeaningExactly | app/api/jobs/service.py:341-348 | for a job whose batches have all ended, without a cancellation and an outstanding refresh, COMPLETED says that none failed, FAILED that some failed and none succeeded, COMPLETED_WITH_ERRORS both; COMPLETED means that every item succeeded if and only if no batch has an interruption left |
| JobTheorems.OutcomeMeaning | app/api/jobs/service.py:341-348 | in particular, without crashes and cancellations, COMPLETED says that all items succeeded |
| JobTheorems.BatchReportExact | app/services/analytics_silver/processor.py:182-192 | a batch that ended by itself reports its own items exactly and COMPLETED_WITH_ERRORS exactly when one failed |
| JobTheorems.CancelReportExact | app/services/analytics_silver/processor.py:195-204 | along every run a CANCELLED batch that nobody had claimed, or whose processor looks before the claim, reports its own items exactly |
| JobTheorems.StatusMoves | app/services/analytics_silver/processor.py:158-180 | what one commit does to the status of the job: a claim makes it RUNNING unless it is CANCEL_REQUESTED, CANCELLED or DISPATCH_FAILED; a refresh settles it by the request and by which item statuses occur, exactly when all batches have ended; a resume, a cancellation and a recorded failure write their own; nothing else changes it |
| JobOutcomes.ReachMark | app/services/analytics_silver/processor.py:88-107 | every message of the broker can bring about a call of `mark_failed` for its batch: it is delivered, again if need be, and its handling raises |
| JobOutcomes.ReachRefresh | app/services/analytics_silver/processor.py:88-107 | in a job whose batches have all ended any message can bring about a refresh, which counts the interrupted items of its batch as failed |
| JobOutcomes.EndAll | app/services/analytics_silver/processor.py:118-135 | when the items that are being executed are the only failures the job can still become COMPLETED |
| JobOutcomes.DispatchCanOverwrite | app/api/jobs/service.py:351-361 | whatever the status of the job, a dispatch call under way can fail and its caller writes DISPATCH_FAILED, leaving messages and running batches alone |
| JobOutcomes.SettledIsFrozenExactly | app/api/jobs/service.py:339-361 | a terminal status is frozen in every later state if and only if no dispatch call is under way or owes its DISPATCH_FAILED and, unless the job is cancelled or has no message left, no refresh, `mark_failed` or end of an execution that is still possible leads to another outcome |
| JobOutcomes.CalmIsFinal | app/api/jobs/service.py:339-361 | in particular it is frozen when no dispatch call is under way or owes a write, no refresh is outstanding, no item is RUNNING and no worker is executing |
| JobCounters.ProcessedStaysExactly | app/api/jobs/service.py:297-349 | once all batches have ended and no dispatch call is under way, `processed_items` stays within `total_items` on every later run if and only if it would stay there when every execution ends now, and there are no more executions than RUNNING items that no message leads to, one more if every refresh has to wait for an execution |
| JobCounters.FitsWhenSettled | app/api/jobs/service.py:297-349 | with exact counters and no RUNNING item this says that no worker executes an item any more |
| JobCancellation.StoppedExactly | app/api/jobs/service.py:214-248 | after the commit of a cancellation the status stays in {CANCEL_REQUESTED, CANCELLED} on every run if and only if no dispatch call is scanning, between its store and its publication, or still owing its DISPATCH_FAILED |
| JobCancellation.CancelIsIrrevocableExactly | app/api/jobs/service.py:214-251 | the same for every reachable state, for both claim orders and with or without revocation |
| JobCancellation.CancelStopsDispatchExactly | app/api/jobs/service.py:223-246 | after a cancellation no batch is ever dispatchable again if and only if none is stored and unpublished at its commit, and the job can never be resumed if and only if the same holds |
| JobCancellation.CancelStopsWorkExactly | app/api/jobs/service.py:214-251 | after a cancellation no payload ever starts if and only if no dispatch call is under way at its commit, or no running batch has both its message and a PENDING item |
| JobCancellation.RequestIsRemembered | app/api/jobs/service.py:341-342 | `cancel_requested_at` is never lost, and a job with it can only settle as CANCELLED (on fresh rows, see the assumptions) |
| JobCancellation.LostForever | app/api/jobs/service.py:368-382 | a running batch that no message leads to any more stays running, and its job, if it is open, never ends |
| JobCancellation.DriveBatch | app/services/analytics_silver/processor.py:36-86 | the worker of a running batch of a cancelled job can be driven to the end of the batch, which leaves fewer running ones |
| JobCancellation.FailBatch | app/services/analytics_silver/processor.py:88-107 | a running batch that has lost its own message can still be ended through the exception of an older one |
| JobCancellation.CancelCanFinishExactly | app/api/jobs/service.py:201-251 | an unfinished job can be brought to CANCELLED if and only if every running batch has some message left, its own or an older one |
| JobDraining.DirtyIsOwed | app/api/jobs/service.py:297-303 | on runs without crashes rows that no increment and no recount cover are owed a refresh: a cancellation still has to refresh, or a worker is between its claim, or its `mark_failed`, and its refresh |
| JobDraining.QuietJobIsExact | app/api/jobs/service.py:297-349 | so on such runs a job without messages and cancellations under way has exact counters, and is terminal or DISPATCH_FAILED once all its batches have ended |
| JobDraining.CalmRunsAreBounded | app/api/jobs/service.py:201-251 | every run of a cancelled job without a dispatch call, on which no worker is lost and nobody cancels again, is bounded by a sum over its messages |
| JobDraining.StuckExactly | app/api/jobs/service.py:201-251 | nothing is left to happen to such a job if and only if it has no message and no cancellation owes its refresh |
| JobDraining.CancelEndsExactly | app/api/jobs/service.py:201-251 | if no dispatch call is under way at the commit of a cancellation, all later runs without lost workers are bounded, and all of them end CANCELLED if and only if every running batch has its message in the hands of a worker at that commit |
| JobResumption.FailuresAreRecorded | app/api/jobs/service.py:351-361 | along every run each failed dispatch call is recorded by one DISPATCH_FAILED or still owed one |
| JobResumption.NewlyFailed | app/api/jobs/service.py:351-361 | only the caller of a failed dispatch call puts a job into DISPATCH_FAILED |
| JobResumption.FailedDispatchResumableExactly | app/api/jobs/service.py:266-275 | until somebody resumes or cancels, DISPATCH_FAILED comes with a batch that `retry_job` can publish if and only if no dispatch call publishes and some PENDING batch has no message from an earlier publication, or there is no DISPATCH_FAILED and nobody who could write it |
| JobResumption.PublishFailResumable | app/workers/dispatcher.py:112-118 | a failed publication puts its batch back at once; from then on a batch to resume remains if and only if the call was the only one and some PENDING batch has no message; with nothing in between, the write of DISPATCH_FAILED leaves a job that can be resumed, and resuming publishes only PENDING batches |
| JobResumption.SerialRunsStayResumable | app/api/jobs/service.py:266-275 | on runs on which dispatch calls do not overlap, no publication that raised was delivered, nobody cancels during a call and no call raises with nothing left to publish, DISPATCH_FAILED implies a PENDING batch |
| JobResumption.SerialStart | app/api/jobs/service.py:78-121 | a new job starts such a run |
| JobScenarios.OneItemJobCreated | app/api/jobs/service.py:78-121 | the job of the concrete runs is one that `create_job` can commit |
| JobScenarios.CompletedWithInterruptedItem | app/api/jobs/service.py:343-348 | a run on which a worker is lost ends COMPLETED although its only item is still RUNNING and nothing was processed |
| JobScenarios.LateFailureUndoesCancel | app/api/jobs/service.py:356-361 | a run to a CANCELLED job whose publication fails then: the batch is PENDING while the job says CANCELLED, and the DISPATCH_FAILED of the caller makes it resumable |
| JobScenarios.OwedFailureUndoesCancel | app/api/jobs/service.py:356-361 | a run to a CANCELLED job with nothing stored, scanned or waiting for a refresh, over which an owed DISPATCH_FAILED is written: all batches have ended, the job is open and cannot be resumed |
| JobScenarios.PayloadStartsAfterCancel | app/api/jobs/service.py:356-361 | a run on which a payload starts after the commit of a cancellation, because a failing dispatch call writes DISPATCH_FAILED over CANCEL_REQUESTED |
| JobScenarios.RevokedMessageStrandsBatch | app/api/jobs/service.py:368-382 | a run on which a lost worker and a revocation that works leave the batch RUNNING for ever |
| JobScenarios.SettlesByItselfExactly | app/services/analytics_silver/processor.py:192-193 | a job whose batches have all ended can settle without a cancellation if and only if it has settled, a cancellation owes it a refresh, or some message is left, or still to be published, whose handling can raise |
| JobScenarios.LostRefreshReachable | app/services/analytics_silver/processor.py:106-107 | an unsettled job with nothing left is reachable: the worker is lost between ending the last batch and the refresh |
| JobScenarios.LateMarkUndoesOutcome | app/services/ingestion/processor.py:84-98 | a run on which an exception after the last refresh fails an interrupted item: the counters of the COMPLETED job become wrong and then FAILED replaces COMPLETED |
| JobScenarios.DeliveredFailureStrandsJob | app/workers/dispatcher.py:112-118 | a run on which the message of a publication that raised fails its batch: DISPATCH_FAILED with nothing to resume |
| JobScenarios.StaleMarkOverwritten | app/services/analytics_silver/processor.py:88-107 | a run on which the exception of an old message fails item, batch and job under the hands of the current worker, which then ends the item as a success, counts it twice and settles the job as COMPLETED |
| JobScenarios.EachConditionIsNeeded | app/workers/dispatcher.py:99-118 | for each of the four conditions of `SerialRunsStayResumable` a run that breaks only this one ends in DISPATCH_FAILED with nothing to resume |
| JobScenarios.CachedRowExactly | app/api/jobs/service.py:339-348 | a refresh with a copy of the job row from before a cancellation gives the status of a refresh with the fresh row if and only if the copy has the right `cancel_requested_at` or some batch has not ended |
| JobScenarios.CachedRowOverlooksCancel | app/services/analytics_silver/processor.py:71-86 | a run to a cancelled job whose worker ends the last batch: the fresh row settles it as CANCELLED, the copy read before the cancellation as COMPLETED |
| JobBlocks.JobRows.CancelItemsOf | app/api/jobs/service.py:233-236 | the item loop changes the batch to its cancelled items and nothing else |
| JobBlocks.JobRows.CancelPending | app/services/analytics_silver/processor.py:195-203 | `_cancel_pending` leaves exactly the cancelled batch, with the batch counters only where the processor recounts them |
| JobBlocks.JobRows.CancelBatchIfIdle | app/api/jobs/service.py:224-246 | one turn of the batch loop of `cancel_job`: only an idle batch changes, and a running one is left alone |
| JobBlocks.JobRows.CancelJob | app/api/jobs/service.py:214-248 | refuses a finished job and otherwise leaves exactly the cancelled rows and hands over the task ids of its batches |
| JobBlocks.JobRows.FailItemsOf | app/api/finance/payment_provider/email_job_processor.py:131-135 | the item loop changes the batch to its failed items and nothing else |
| JobBlocks.JobRows.MarkFailed | app/api/finance/payment_provider/email_job_processor.py:121-139 | `mark_failed` leaves exactly the failed batch |
| JobBlocks.JobRows.FinishBatch | app/services/analytics_silver/processor.py:182-192 | `_finish_batch` leaves exactly the ended batch with its three counts and its status |
| JobBlocks.JobRows.RefreshProgress | app/api/jobs/service.py:297-349 | `refresh_progress` leaves exactly the recounted job row |
| JobWorkers.ForeignStep | app/services/analytics_silver/processor.py:26-67 | no other actor changes the message of a worker, and the only thing another actor can make of a batch that is being processed is to fail it |
| JobWorkers.OtherWorkerStep | app/services/analytics_silver/processor.py:26-107 | a block of another worker leaves the message alone and leaves the batch as it is or failed |
| JobWorkers.ForeignStored | app/workers/dispatcher.py:99-118 | no other actor touches a stored, unpublished id |
| JobWorkers.JobDesk.Commit | app/services/analytics_silver/processor.py:70 | one commit is one enabled step of the protocol |
| JobWorkers.JobDesk.Others | app/services/analytics_silver/processor.py:71-78 | whatever other actors commit before the rows are read again leaves the caller its batch and message; the batch can only have been failed |
| JobWorkers.JobDesk.Process | app/services/analytics_silver/processor.py:16-86 | `process` under arbitrary interference takes only steps of the protocol; a stale message and an ended batch change nothing; otherwise its batch ends with the returned status unless it was failed meanwhile, each item that was pending ends as its payload did, SUCCEEDED with the result or FAILED with its payload kept, or was failed or cancelled by somebody else, and the job is refreshed; left alone, exactly the outcomes decide, no other item changes, and the status is COMPLETED_WITH_ERRORS exactly when an item is FAILED |
| JobWorkers.JobDesk.Fail | app/workers/silver_tasks.py:28-35 | the `except` branches of a task, at any point and for any message: `mark_failed` and its refresh take only protocol steps, leave nothing PENDING or RUNNING in the batch and no refresh outstanding |
| JobWorkers.JobDesk.WorkAndEnd | app/services/ingestion/processor.py:46-98 | `process` from the first cancel check on: the batch ends, its items as their payloads did, and the job is refreshed |
| JobWorkers.JobDesk.ClaimAndWork | app/services/ingestion/processor.py:46-96 | the first cancel check, before the claim, and the claim: takes only protocol steps and ends the batch and its items by their outcomes |
| JobWorkers.JobDesk.WorkOff | app/api/finance/payment_provider/email_job_processor.py:99-119 | from the claim on, with the cancel check after it or not: takes only protocol steps and ends the batch and its items by their outcomes |
| JobWorkers.JobDesk.Items | app/services/analytics_silver/processor.py:74-80 | the item loop leaves no pending item unless it saw a cancellation, and each item that had its turn is as the outcome of its payload says |
| JobWorkers.JobDesk.DoItem | app/services/analytics_silver/processor.py:109-135 | `_process_item` ends its item SUCCEEDED with the result of the payload, or FAILED with its payload kept if the payload raised; the other items of the batch are as before or failed by somebody else |
| JobWorkers.JobDesk.Dispatch | app/api/jobs/service.py:351-361 | the publication loop and the caller that records its failure take only protocol steps, with interference between the two commits of a failure; a failed call ends with DISPATCH_FAILED; left alone, the PENDING batches before the first one the broker does not take are QUEUED, each with one waiting message under its new id, the other batches and messages are as before, and the call succeeds exactly when there is no such batch |
| JobWorkers.JobDesk.PublishBatches | app/workers/dispatcher.py:99-118 | the loop ends with a failure that is owed or with nothing left to publish; left alone, it publishes exactly the PENDING batches before the first one that is not taken |
| JobWorkers.JobDesk.PublishOne | app/workers/dispatcher.py:100-118 | one turn of the loop: it succeeds exactly when the broker takes the message, which then waits under a fresh id; otherwise the batch is PENDING again, a failure is owed, and a message exists exactly if the refused publication was delivered; left alone, the whole state |
| JobWorkers.JobDesk.Other | app/services/analytics_silver/processor.py:71-78 | one step of somebody else is taken exactly when it is possible and not one of the caller |
| JobWorkers.JobDesk.Leave | app/services/analytics_silver/processor.py:182-193 | the refresh after the batch was closed keeps what its items ended as |
| JobCreation.Chunked | app/api/jobs/service.py:27-29 | the generator yields the chunks that partition the list |
| JobCreation.ChunksPartition | app/api/jobs/service.py:27-29 | the chunks partition the list in order, all but the last are full, and there are ceil(n / size) of them |
| JobCreation.Find | app/api/jobs/repository.py:30-45 | returns a row with the creator, type and key, and None only if there is none |
| JobCreation.JobTable.CreateJob | app/api/jobs/service.py:57-139 | `create_job` against rows that other sessions commit meanwhile: error, existing job or exactly one new row |
| JobCreation.JobTable.RetryJob | app/api/jobs/service.py:253-295 | resumes exactly an unfinished job with a batch to publish, changing only its status; otherwise creates the child or fails, changing no row |
| JobCreation.ResumeIsTheLabel | app/api/jobs/service.py:266-275 | the resume branch is the protocol label of that name: same guard, same effect on the job and its batches |
| JobCreation.JobTable.BuildBatches | app/api/jobs/service.py:92-114 | the two loops build exactly the batches of the chunks with the payloads of their references |
| JobCreation.CreationPartitions | app/api/jobs/service.py:57-114 | flattening the batches gives the order-preserving dedupe of the references; sizes, their number and the payload of every item |
| JobCreation.CreationStarts | app/api/jobs/service.py:78-121 | the created rows are a first state of the protocol |
| JobCreation.CreateKeepsUnique | app/models/jobs/job_model.py:51-56 | the unique constraint on creator, type and key holds after every call |
| JobCreation.CreateIsIdempotent | app/api/jobs/service.py:63-76 | a valid call with a key and any later or racing call with the same creator, type and key leave one job and return it |
| JobCreation.CreateExactly | app/api/jobs/service.py:57-139 | a valid call adds one job, with the creator, type, key and parent of the request, exactly when it has no key or no row has the same three values; otherwise it returns such a row, and fails if the key is empty |
| JobCreation.EmptyKeyIsRefused | app/api/jobs/service.py:65 | an empty key is stored but not looked up, so the second call with it fails |
| JobCreation.PayloadMapLookup | app/api/jobs/repository.py:111-122 | the payload map gives every failed item its own payload |
| JobCreation.PayloadMapKeys | app/api/jobs/repository.py:111-122 | a reference that no failed item has is not a key of the payload map |
| JobCreation.ChildCarriesFailures | app/api/jobs/service.py:277-295 | the child holds exactly the failed references of the parent, in order, each with the payload of the parent |
| JobCreation.ChildHoldsFailed | app/api/jobs/service.py:277-295 | item by item: the child is a job of the caller with the type of the parent and no key; its items are pending and carry reference and payload of exactly the items of the parent whose status is FAILED, in order |
| JobCreation.RetryAddsOneChild | app/api/jobs/service.py:277-295 | retrying fails exactly when nothing failed or the batch size is wrong; otherwise it adds one job and changes no row |
| JobCreation.RunKeepsPairs | app/services/analytics_silver/processor.py:118-129 | along every run the list of references stays and an item that did not succeed keeps its payload |
| JobCreation.ItemsAfterRun | app/api/jobs/service.py:92-114 | after any run the items still have the references of the request and, unless they succeeded, its payloads |
| JobCreation.RetryLineage | app/api/jobs/service.py:277-295 | after any run of a created job a reference is in the child of a retry if and only if its item is FAILED, and each carries the payload given at creation |
| Schedule.MinutesOfDay | app/api/scheduled_jobs/schemas.py:21-23 | a valid time of day lies below 1440 minutes |
| Schedule.ValidTimeExactly | app/api/scheduled_jobs/schemas.py:11-23 | the validation accepts exactly two numerals h <= 23 and n <= 59 around a colon, leading zeros included, and the time they say is 60 h + n minutes |
| Schedule.ValidatedExactly | app/api/scheduled_jobs/schemas.py:26-62 | create and update accept exactly positive intervals, non-empty lists of readable times, and windows on non-empty lists of weekdays whose start is before their end |
| Schedule.WeekdayCalendar | app/api/scheduled_jobs/schedule.py:64 | day 0 of the epoch was a Thursday, and the weekdays follow each other |
| Schedule.DailyPointExactly | app/api/scheduled_jobs/schedule.py:28-40 | a daily point is an instant whose local time of day is what one of the times says |
| Schedule.WindowPointExactly | app/api/scheduled_jobs/schedule.py:58-81 | a window point lies a whole number of intervals after what the start says, not after what the end says, on an allowed weekday |
| Schedule.ClockUnits | app/api/scheduled_jobs/schedule.py:22-26 | a minute has 60 seconds, a day 24 hours, and a slot is a second |
| Schedule.NextRunUnique | app/api/scheduled_jobs/schedule.py:8-42 | a configuration has at most one next run after an instant |
| Schedule.MakePoint | app/api/scheduled_jobs/schedule.py:67-81 | the k-th step of a window on an allowed day is a point of the schedule |
| Schedule.LaterPoints | app/api/scheduled_jobs/schedule.py:77-81 | once the first k points of a day are past, every later point of that day is at or after the k-th candidate |
| Schedule.FirstOfDay | app/api/scheduled_jobs/schedule.py:67-81 | the inner loop finds the least point of the day after the instant, or none exists |
| Schedule.EightDaysSuffice | app/api/scheduled_jobs/schedule.py:62-83 | after every instant there is a point at most seven days ahead |
| Schedule.SevenDaysDoNotSuffice | app/api/scheduled_jobs/schedule.py:62 | with one allowed weekday, after its last point nothing comes before the eighth day |
| Schedule.NextWindow | app/api/scheduled_jobs/schedule.py:52-83 | on every stored configuration the search ends with the least point strictly after the instant; the error is never reached |
| Schedule.NextDaily | app/api/scheduled_jobs/schedule.py:28-40 | the least daily time strictly after the instant, at most 24 hours ahead |
| Schedule.DailyCandidate | app/api/scheduled_jobs/schedule.py:32-38 | the next occurrence of one time of day |
| Schedule.NextRunExists | app/api/scheduled_jobs/schedule.py:8-42 | every stored configuration has a next run after every instant |
| Schedule.NextRun | app/api/scheduled_jobs/schedule.py:8-42 | the next run is the least element of its specification and later than the instant |
| Schedule.CalculateNextRun | app/api/scheduled_jobs/schedule.py:8-42 | `calculate_next_run` returns that least element for every validated configuration and raises only for the others |
| Schedule.NextRunLater | app/api/scheduled_jobs/schedule.py:8-42 | every next run is strictly later than the instant it is computed from |
| Schedule.NextSlotLater | app/api/scheduled_jobs/service.py:346 | the next run falls in a later second than the one the schedule was due at |
| Scheduler.FirstDue | app/api/scheduled_jobs/repository.py:26-37 | the due schedule that comes first in (next_run_at, id), and None only if none is due |
| Scheduler.ScheduledJobService.AdvanceAndExecute | app/api/scheduled_jobs/service.py:153-240 | the row after handling one due schedule, for a configuration that raises, a module that is off, a missing creator, an execution that raises and one that succeeds |
| Scheduler.ScheduledJobService.RunDue | app/api/scheduled_jobs/service.py:142-151 | the loop is the tick: final rows, the list of firings, and the number of executions |
| Scheduler.FireAdvances | app/api/scheduled_jobs/service.py:164-181 | a handled schedule is disabled, exactly when its configuration raises, or due after its `now` |
| Scheduler.ConsecutiveFailures | app/api/scheduled_jobs/service.py:153-240 | after any tick `consecutive_failures` is the number of failures since the last created job of the schedule, on top of the old value if there was none; an execution that raises and a configuration that raises count, a module that is off and a missing creator do not |
| Scheduler.LastStatus | app/api/scheduled_jobs/service.py:164-240 | after any tick `last_status` is FAILED, SKIPPED or that of the job, by what the last iteration did that says anything about the schedule |
| Scheduler.LastRunRecorded | app/api/scheduled_jobs/service.py:164-181 | the last iteration that handles a schedule sets when it ran and its next run, or disables it |
| Scheduler.TickIsFair | app/api/scheduled_jobs/service.py:142-151 | if at most `limit` schedules are due when the tick starts, its first iterations handle exactly those, each once, in due order, whatever raises |
| Scheduler.TickSplits | app/api/scheduled_jobs/service.py:144-150 | a tick goes on from what its first iterations leave |
| TickOrder.RegularTick | app/api/scheduled_jobs/service.py:142-151 | as long as nobody jumps the queue, iteration k handles the k-th schedule in (next_run_at, id), and the rows are those of firing each at its turn |
| TickOrder.DueRegular | app/api/scheduled_jobs/service.py:142-151 | the schedules due at the start fill the first places of the queue, and nobody jumps it before they are done |
| TickOrder.NothingElseExactly | app/api/scheduled_jobs/service.py:142-151 | with iterations to spare nothing but the schedules due at the start is handled if and only if the clock of the next iteration is before the next run of every schedule: the stored one of those not due, the one computed at its turn of those due |
| TickOrder.NobodyTwiceExactly | app/api/scheduled_jobs/service.py:142-151 | no schedule is handled twice in a tick if and only if, as long as the queue is handled in its order, whoever is due again comes after the one whose turn it is; a condition on the rows and the clock before the tick |
| Scheduler.StillClockHandlesOnce | app/api/scheduled_jobs/service.py:142-151 | under a still clock the tick handles each due schedule exactly once and nothing else |
| Scheduler.SlowExecutionFiresAgain | app/api/scheduled_jobs/service.py:142-151 | a clock that moves by the interval during an execution makes the tick handle the same schedule twice |
| Scheduler.TickStaysPast | app/api/scheduled_jobs/service.py:164-181 | a schedule past an instant stays past it |
| Scheduler.TickEndsPast | app/api/scheduled_jobs/service.py:164-181 | after the tick every handled schedule is disabled or due after each `now` it was handled at |
| Scheduler.TickFrame | app/api/scheduled_jobs/service.py:142-151 | a schedule that is not handled is not changed |
| Scheduler.FiringsAfter | app/api/scheduled_jobs/service.py:339-347 | all firings of a schedule after a given slot fall in later slots |
| Scheduler.SlotsIncrease | app/api/scheduled_jobs/service.py:339-347 | between edits successive firings of a schedule have strictly increasing slots, and no two firings share an idempotency key |
| ScheduledJobs.KeyTextInjective | app/api/scheduled_jobs/service.py:339-347 | two idempotency keys have the same text exactly when kind, schedule and slot agree |
| ScheduledJobs.FiringsGetTheirJobs | app/api/scheduled_jobs/service.py:183-240 | over any ticks between two edits, whatever other sessions commit, every firing that executes gets a job of its own, the only row with its creator, type and key |
| ScheduledJobs.SameSlotSameJob | app/api/scheduled_jobs/service.py:203-240 | any later execution, automatic or manual, is answered with the job of a firing if and only if it has its key, and then adds no row |
| ScheduledJobs.FiringCreates | app/api/scheduled_jobs/service.py:203-240 | every firing that executes adds exactly one job, unless another session used the key of its slot; the key is `scheduled:`, the id of the schedule and the second it was due at |
| SkuCatalogue.LastIndex | app/api/sales_channel/sku/service.py:95-98 | the row the dictionary keeps for a key is the last one with it |
| SkuCatalogue.Wanted | app/api/sales_channel/sku/service.py:114-115 | an item about a key exists exactly when one is found |
| SkuCatalogue.WantedAt | app/api/sales_channel/sku/service.py:114-115 | with distinct keys every item is the one found for its key |
| SkuCatalogue.ItemStep | app/api/sales_channel/sku/service.py:114-148 | one item changes exactly the kept row of its key, or adds one row, or nothing |
| SkuCatalogue.SweepStep | app/api/sales_channel/sku/service.py:150-157 | one key of the last loop changes exactly its kept row, if it is active and was not received |
| SkuCatalogue.AnswerStep | app/api/sales_channel/sku/service.py:114-148 | one item moves exactly the counter and list of what happened to it |
| SkuCatalogue.CreatedKeysStay | app/api/sales_channel/sku/service.py:151-153 | rows created by the request are never swept |
| SkuCatalogue.ManagedSkuService.IndexBySku | app/api/sales_channel/sku/service.py:95-98 | the dictionary holds the kept row of every key |
| SkuCatalogue.ManagedSkuService.BulkSync | app/api/sales_channel/sku/service.py:88-170 | the table becomes the specified catalogue exactly when it is not a dry run and the commit succeeds; the answer is the specified one, also for a dry run |
| SkuCatalogue.ManagedSkuService.Synchronize | app/api/sales_channel/sku/service.py:94-157 | the loops compute the specified catalogue and answer |
| SkuCatalogue.ManagedSkuService.SyncItem | app/api/sales_channel/sku/service.py:114-148 | the body of the item loop keeps the loop invariant |
| SkuCatalogue.ManagedSkuService.SweepAll | app/api/sales_channel/sku/service.py:150-157 | the last loop reaches the specified catalogue |
| SkuSnapshot.NewRowsAreUnknownItems | app/api/sales_channel/sku/service.py:116-133 | the added rows are exactly those of the unknown items, one row a key |
| SkuSnapshot.SyncedShape | app/api/sales_channel/sku/service.py:114-157 | existing rows stay in place with their SKU and follow the row rule; added rows come after them |
| SkuSnapshot.TargetReached | app/api/sales_channel/sku/service.py:114-157 | every key the request means to be active is active afterwards |
| SkuSnapshot.ActiveSetExactly | app/api/sales_channel/sku/service.py:88-170 | for any request the active keys afterwards are exactly the specified set if and only if no active row is hidden by a later row with its key although the key should be off |
| SkuSnapshot.OneRowPerKey | app/api/sales_channel/sku/service.py:88-170 | with one row a key the specified set is always reached, and there is one row a key afterwards |
| SkuSnapshot.OthersStay | app/api/sales_channel/sku/service.py:150-157 | a row that no item names is written exactly when it is swept |
| SkuSnapshot.KindsAreMoves | app/api/sales_channel/sku/service.py:135-148 | an item is listed as activated or deactivated exactly when the flag of its row is switched on or off; a null flag counts as off |
| SkuSnapshot.WritesAreStamped | app/api/sales_channel/sku/service.py:198-232 | every written row carries the time of the write, and tied external ids equal the stripped SKU on all requested and added rows |
| SkuSnapshot.KindsPartition | app/api/sales_channel/sku/service.py:114-148 | every item is counted in exactly one list; items that ask for active deactivate nothing |
| SkuSnapshot.SnapshotBalance | app/api/sales_channel/sku/service.py:102-112 | received = created + activated + unchanged + missing for items that all ask for active |
| SkuSnapshot.CountersConserveRows | app/api/sales_channel/sku/service.py:102-157 | the table grows by `created`, and the number of active rows changes by exactly what the counters report |
| SkuSnapshot.SecondTimeChangesNothing | app/api/sales_channel/sku/service.py:88-170 | repeating any request at any later time writes no row |
| SkuSnapshot.SecondAnswer | app/api/sales_channel/sku/service.py:88-170 | the second answer reports no move and the same missing SKUs |
| SkuSnapshot.SetSizeDecides | app/api/sales_channel/sku/schemas.py:84-86 | the length comparison of the validators decides whether a key is repeated |
| SkuSnapshot.BulkItemsAreDistinct | app/api/sales_channel/sku/schemas.py:77-87 | an accepted bulk request has distinct keys and 1 to 20000 items |
| SkuSnapshot.SnapshotAcceptsExactly | app/api/sales_channel/sku/schemas.py:103-119 | the snapshot schema accepts 1 to 20000 SKUs whose texts between the blanks are 1 to 255 long and differ, and gives these texts |
| SkuSnapshot.BulkAcceptsExactly | app/api/sales_channel/sku/schemas.py:55-87 | the bulk schema accepts 1 to 20000 items with SKUs 1 to 255 long that differ without their blanks, and gives them without blanks, with their flags |
| SkuSnapshot.SnapshotIsBulk | app/api/sales_channel/sku/service.py:178-186 | the items of an accepted snapshot always pass the bulk schema unchanged |
| SkuSnapshot.SnapshotPasses | app/api/sales_channel/sku/schemas.py:107-119 | stripped SKUs of length 1 to 255 with different keys pass the snapshot schema unchanged |
| SkuSnapshot.BulkPasses | app/api/sales_channel/sku/schemas.py:77-87 | and the bulk schema |
| SkuSnapshot.ApplyActiveSnapshot | app/api/sales_channel/sku/service.py:172-188 | schema errors change nothing; an accepted snapshot is the specified synchronization |
| SkuSnapshot.SnapshotTarget | app/api/sales_channel/sku/service.py:178-186 | for a snapshot the specified set is the requested keys, only the known ones if nothing is created |
| SkuSnapshot.SnapshotExactly | app/api/sales_channel/sku/service.py:172-188 | the final active set is exactly the requested keys (the known ones if nothing is created) if and only if every hidden active row has a requested key |
| ExcelReader.NormalizeSku | app/api/sales_channel/imports/excel_reader.py:40-46 | a SKU that is read is stripped and not empty |
| ExcelReader.ColumnIn | app/api/sales_channel/imports/excel_reader.py:99-110 | the first column with the title |
| ExcelReader.SkuOf | app/api/sales_channel/imports/excel_reader.py:153-155 | an accepted SKU is stripped and 1 to 255 characters long |
| ExcelReader.FirstWith | app/api/sales_channel/imports/excel_reader.py:165-178 | the first line with a key |
| ExcelReader.ActiveReads | app/api/sales_channel/imports/excel_reader.py:49-60 | a status cell means active for true, 1, 1.0 and the six words, inactive for false, 0, 0.0 and the five words, after stripping and casefold, and nothing else is read |
| ExcelReader.NormalizeGives | app/api/sales_channel/imports/excel_reader.py:40-46 | the SKU of a cell is its text between blanks or the numeral of its number |
| ExcelReader.ColumnsExactly | app/api/sales_channel/imports/excel_reader.py:36-110 | the columns of a header of texts are the first one titled sku and the first one with one of the seven status titles |
| ExcelReader.FormatExactly | app/api/sales_channel/imports/excel_reader.py:99-110 | the reader takes SKU and status from these columns |
| ExcelReader.ReadLine | app/api/sales_channel/imports/excel_reader.py:153-198 | the loop body gives the verdict on the line and keeps the dictionary of first lines |
| ExcelReader.ReadLines | app/api/sales_channel/imports/excel_reader.py:137-211 | the row loop computes received, rows and errors as specified line by line |
| ExcelReader.ParseSkuWorkbook | app/api/sales_channel/imports/excel_reader.py:92-211 | header errors, then the rows |
| ExcelReader.ReceivedIsRowsAndErrors | app/api/sales_channel/imports/excel_reader.py:137-211 | once a data line exists received = rows + errors; without one the only error says so |
| ExcelReader.EveryLineCounted | app/api/sales_channel/imports/excel_reader.py:140-198 | every line within the limit, and the one that is too many, gives exactly one row or error |
| ExcelReader.RowsAreClean | app/api/sales_channel/imports/excel_reader.py:153-198 | rows have acceptable SKUs and pairwise different keys, even when other lines failed |
| ExcelReader.LineGivesRow | app/api/sales_channel/imports/excel_reader.py:137-198 | without errors the k-th line with data gives the k-th row, whose SKU and status are what the cells of that line say |
| ExcelReader.LineOfRow | app/api/sales_channel/imports/excel_reader.py:137-198 | every row comes from such a line |
| ExcelReader.NothingAfter | app/api/sales_channel/imports/excel_reader.py:144-151 | nothing after the line that is one too many is looked at |
| ExcelReader.NoErrorsExactly | app/api/sales_channel/imports/excel_reader.py:137-211 | a sheet is read without error if and only if it has 1 to 20000 data lines, each with an acceptable SKU that no earlier line has and a readable status where one is needed |
| ExcelReader.CleanRows | app/api/sales_channel/imports/excel_reader.py:137-211 | without errors the rows are 1 to 20000, stripped, of length 1 to 255, with different keys and as many as received |
| ExcelReader.CleanSheetIsAccepted | app/api/sales_channel/imports/service.py:98-114 | a sheet without errors always passes both request schemas and meets the precondition of `bulk_sync` |
| SkuImport.NoObstacle | app/api/sales_channel/imports/service.py:75-96 | what passes the reader needs no further error case |
| SkuImport.ProcessManaged | app/api/sales_channel/imports/service.py:59-114 | preview and import of a managed catalogue: errors change nothing, otherwise the specified synchronization of the rows |
| SkuImport.SheetSwitches | app/api/sales_channel/imports/service.py:98-114 | a stored SKU that a line of an imported sheet names is active afterwards exactly when the sheet is a snapshot or the status cell of the line says so |
| SkuImport.SheetLeaves | app/api/sales_channel/imports/service.py:98-114 | a SKU that no line names is left alone by a status update and switched off by a snapshot |
| SkuImport.SheetAdds | app/api/sales_channel/imports/service.py:98-114 | an unknown SKU is added, switched as its line asks, exactly when creating is allowed |
| SkuImport.ProcessPromotions | app/api/sales_channel/imports/service.py:177-212 | preview and import of promotions: errors change nothing, otherwise the specified snapshot |
| SkuImport.PromotionKeys | app/api/sales_channel/imports/service.py:195-198 | the keys an imported promotion sheet asks for are those its lines name |
| SkuImport.ImportedUnchanged | app/api/sales_channel/peya/promotion_service.py:94 | for an imported sheet `unchanged` is the number of asked keys that are stored and in the catalogue |
| Promotions.LastAt | app/api/sales_channel/peya/promotion_service.py:65-68 | the position a dictionary comprehension keeps for a key is the last one |
| Promotions.PromoSkuService.SyncSnapshot | app/api/sales_channel/peya/promotion_service.py:58-115 | a missing SKU, a dry run or a failed commit leave the table unchanged; otherwise it becomes the specified table; the answer in every case |
| Promotions.PromoSkuService.Write | app/api/sales_channel/peya/promotion_service.py:103-106 | the two loops give the rows without the removed ones, followed by the added ones |
| Promotions.RemovedExactly | app/api/sales_channel/peya/promotion_service.py:85-89 | a row is removed exactly when its key is not asked for and no later row hides it |
| Promotions.StaysExactly | app/api/sales_channel/peya/promotion_service.py:85-106 | a SKU stays exactly when its key is asked for or a later row hides it |
| Promotions.AddedExactly | app/api/sales_channel/peya/promotion_service.py:79-84 | the added keys are those asked for, in the parent catalogue and not stored |
| Promotions.NothingMissing | app/api/sales_channel/peya/promotion_service.py:74-78 | nothing is missing exactly when the asked keys are contained in the parent catalogue |
| Promotions.SnapshotExactly | app/api/sales_channel/peya/promotion_service.py:58-115 | when nothing is missing the table equals the asked set, inside the parent catalogue, if and only if every hidden row has an asked key |
| Promotions.UnchangedExactly | app/api/sales_channel/peya/promotion_service.py:90-96 | `unchanged` equals the size of asked, parent and stored intersected if and only if no key is asked twice |
| Promotions.RowsConserved | app/api/sales_channel/peya/promotion_service.py:90-96 | the table grows by `promotions_added` and shrinks by `promotions_removed` |
| Promotions.SecondTime | app/api/sales_channel/peya/promotion_service.py:58-115 | a second application adds nothing, and removes nothing if and only if no hidden row was left |
| DataLoader.ParamsOfKeys | app/api/graphql/repository.py:426-438 | one set of values for each position of the key |
| DataLoader.QueryByKey | app/api/graphql/repository.py:225-243 | column-wise filtering keeps all or none of the rows of a key |
| DataLoader.AskedKeyMatches | app/api/graphql/repository.py:426-438 | an asked key passes every column filter exactly when no part of it is null |
| DataLoader.QueryKeepsKey | app/api/graphql/repository.py:225-243 | for an asked key the column-wise query returns exactly its rows in order |
| DataLoader.QueryCrossesKeys | app/api/graphql/repository.py:440-453 | the query alone returns rows of combinations nobody asked for |
| DataLoader.GroupAll | app/api/graphql/repository.py:440-453 | `_agrupar_lista`: exactly the asked keys that have rows, each with its rows in order |
| DataLoader.GroupFirst | app/api/graphql/repository.py:455-468 | `_agrupar_unico`: exactly the asked keys that have rows, each with its first row |
| DataLoader.ByCodeIsLast | app/api/graphql/repository.py:282 | the one-column comprehension keeps the last row of a code |
| DataLoader.LoadLists | app/api/graphql/loaders.py:70-77 | as many answers as keys, in their order, each exactly the rows of the table with its key, in order, for keys of any arity; a key with a null has none |
| DataLoader.LoadFirsts | app/api/graphql/loaders.py:79-86 | as many answers as keys, in their order, each the row of its key that no earlier row of the table shares, or none |
| DataLoader.LoadByCode | app/api/graphql/loaders.py:79-86 | the same for one-column methods, with the row of the code that no later row shares |
| Payments.FindByTaxId | app/api/finance/payment_provider/processor.py:90-97 | finds a provider with the document, and none only if the document is blank or nobody has it |
| Payments.FindByName | app/api/finance/payment_provider/processor.py:99-107 | finds a provider with the name, and none only if the name is blank or nobody has it |
| Payments.FindProviderExactly | app/api/finance/payment_provider/processor.py:87-107 | the provider of a payment is the first one with its non-blank document and, only if nobody has it, the first one with its non-blank name |
| Payments.SuggestedName | app/api/finance/payment_provider/processor.py:160-163 | a suggested file name always has an extension |
| Payments.SuggestedNameExactly | app/api/finance/payment_provider/processor.py:160-163 | the file name shows the holder read from the document, else the provider, else the document number |
| Payments.AddPayment | app/api/finance/payment_provider/processor.py:73-83 | one payment updates its group entry |
| Payments.GroupWith | app/api/finance/payment_provider/processor.py:40-85 | the loop gives one group a key, in order of first appearance, each described by its payments |
| Payments.GroupPayments | app/api/finance/payment_provider/processor.py:40-85 | `group` with the keys, provider data and items of the processor |
| Payments.GroupsConserve | app/api/finance/payment_provider/processor.py:40-85 | whatever is added up over payments adds up to the same over the groups |
| Payments.PaymentsConserved | app/api/finance/payment_provider/processor.py:40-85 | the groups count every payment once, hold it as often as it was read, and their totals add up to the amount read in each currency |
| Payments.GroupedByKey | app/api/finance/payment_provider/processor.py:40-85 | a payment is in the group of a key exactly when it has the key |
| Payments.SameGroupExactly | app/api/finance/payment_provider/processor.py:109-115 | two payments share a group if and only if they have the same provider, or no provider and the same document, or neither and the same name |
| Payments.PaymentIdentified | app/api/finance/payment_provider/processor.py:54-72 | a payment is in a group with id and e-mails of the first provider with its document, else of the first one with its name, else without a provider |
| Payments.GroupHead | app/api/finance/payment_provider/processor.py:58-70 | the data of a group are those of its first payment |
| Payments.ReadyExactly | app/api/finance/payment_provider/processor.py:136-143 | a group is READY exactly when a provider with a payment address was found, and MISSING_PROVIDER exactly when no provider was |
| PaymentEmails.NextFree | app/api/finance/payment_provider/payment_provider_service.py:447-452 | the renaming loop ends within |used| + 1 tries with the first free candidate |
| PaymentEmails.VariantInjective | app/api/finance/payment_provider/payment_provider_service.py:499-503 | different counters give different candidates |
| PaymentEmails.LastDot | app/api/finance/payment_provider/payment_provider_service.py:497 | `rsplit` cuts at the last dot |
| PaymentEmails.DeduplicateFilename | app/api/finance/payment_provider/payment_provider_service.py:493-503 | the name itself if free, else its first free numbered name, with the counter in front of the last dot; it fails exactly on a taken name without a dot |
| PaymentEmails.BuildAttachments | app/api/finance/payment_provider/payment_provider_service.py:377-400 | every stored file of the group once, in order, under its suggested name if no earlier attachment has it, else under the first free numbered one |
| PaymentEmails.AttachedExactly | app/api/finance/payment_provider/payment_provider_service.py:384-400 | paths and suggested names are those of exactly the payments with a stored file, in order |
| PaymentEmails.BaseReference | app/api/finance/payment_provider/payment_provider_service.py:434-441 | a reference has at most 120 characters |
| PaymentEmails.BaseReferenceExactly | app/api/finance/payment_provider/payment_provider_service.py:434-441 | the base reference names the provider, else the holder, else nobody, cut at 120 characters |
| PaymentEmails.DeduplicateReference | app/api/finance/payment_provider/payment_provider_service.py:443-452 | the first free numbered reference; it exceeds 120 characters if and only if every candidate that fits is taken, which needs more than 97 taken ones |
| PaymentEmails.NinetyEightOverflow | app/api/finance/payment_provider/payment_provider_service.py:443-452 | 97 is exact: with 98 taken references the next one can have 121 characters |
| PaymentEmails.OverflowsExactly | app/api/finance/payment_provider/payment_provider_service.py:443-452 | the next reference exceeds 120 characters if and only if every candidate that fits is taken |
| PaymentEmails.FreshReference | app/api/finance/payment_provider/payment_provider_service.py:259-264 | the base reference if no earlier group has it, else the first free numbered one |
| PaymentEmails.BuildPayloads | app/api/finance/payment_provider/payment_provider_service.py:259-275 | one payload a group, under its base reference or the first free numbered one; the references are distinct, and the first 98 of them fit their column; creating the job drops none of them |
| PaymentEmails.SaveUploadedFiles | app/api/finance/payment_provider/payment_provider_service.py:416-432 | every upload name is stored |
| PaymentEmails.SavedIsLast | app/api/finance/payment_provider/payment_provider_service.py:424-431 | under a name the path of its last upload is stored |
| PaymentEmails.StoredFile | app/api/finance/payment_provider/payment_provider_service.py:424-431 | a payment gets the file of upload j exactly when it has its name and no later upload has |
| PaymentEmails.AttachedIsSum | app/api/finance/payment_provider/payment_provider_service.py:377-400 | a stored file is attached once for every payment that leads to it, over all payloads |
| PaymentEmails.EachFileOnceExactly | app/api/finance/payment_provider/payment_provider_service.py:377-400 | every stored file is attached in exactly one payload, once, if and only if the uploads have different names |
| PaymentEmails.EnqueuePaymentEmails | app/api/finance/payment_provider/payment_provider_service.py:251-275 | succeeds exactly when every document was read and every group has a provider with a payment address, and then pairs groups and payloads under those references |
| Text.StripTrimmed | app/api/sales_channel/sku/schemas.py:110 | stripping a stripped text changes nothing |
| Text.StripExactly | app/api/sales_channel/sku/schemas.py:110 | stripping removes the blanks at both ends and nothing else |
| Text.IntTextInjective | app/api/sales_channel/imports/excel_reader.py:43-45 | different whole numbers in SKU cells give different SKUs |

## Left out

- JobProtocol.Apply: the status RETRYING, which only the SAP processor writes, and the module switch of `dispatch_job` are not modelled.
- JobInvariant.EndBatchInv: batch counters after `mark_failed` and after the e-mail `_cancel_pending` are not claimed, only the job counters are.
- JobInvariant.CrashInv: the hard time limit, which kills a worker whose message is then not delivered again, is not modelled.
- JobInvariant.CancelInv: the mirror rows of ingestion items and run totals after `cancel_job` are not modelled.
- JobWorkers.JobDesk.Process: execution of a payload is a given outcome with a given result text; a batch id that does not exist is not modelled.
- JobWorkers.JobDesk.Dispatch: a publisher that dies during a call, and a commit that fails while it puts a batch back, are not modelled; such a batch would stay QUEUED without a message.
- JobCancellation.RequestIsRemembered: holds for fresh rows; a worker session that read the job row before the cancellation settles it without the request, exactly as `JobScenarios.CachedRowExactly` says, and the same goes for the other theorems on cancellation.
- JobTheorems.OneWorkerPerBatch: a worker that claims a batch whose publication is still about to raise is not modelled.
- JobCreation.JobTable.CreateJob: encrypted secrets, parameters and the user scope checks are not modelled.
- Schedule.CalculateNextRun: daylight saving time and the year 9999 limit are not modelled; a stored kind or value from which the code raises is one constructor, and values that neither validate nor raise are not modelled.
- Scheduler.ScheduledJobService.RunDue: row locks and ticks running in parallel are not modelled; manual runs and edits are not part of a list of firings, but a manual run is one of the later calls of `ScheduledJobs.SameSlotSameJob`.
- ScheduledJobs.FiringsGetTheirJobs: `_dispatch_scheduled_job` is modelled as its one call of `create_job`; how it reads parameters, tables and dates is not.
- SkuCatalogue.ManagedSkuService.BulkSync: rows are listed in the order in which they were added, while the repository sorts them by SKU; the order matters only for rows with one key.
- ExcelReader.ParseSkuWorkbook: opening the file, its extension, its size and its hash are not modelled; the hash comparison is a given answer.
- ExcelReader.ColumnsExactly: stated for header rows of texts; `NormalizeHeader` also reads numbers and flags as titles, as the code does.
- DataLoader.LoadLists: caching and deduplication of keys, the lock around the session, and the missing parameters of an empty key list are not modelled.
- Payments.GroupPayments: PDF parsing is not modelled; names, documents, currencies and amounts in cents are given, and so are the text functions for comparison keys and file name parts.
- PaymentEmails.EnqueuePaymentEmails: of a payload only the group and the attachments are modelled; a document whose upload has no name is not.
- Single-row operations of the catalogues (`create`, `update`, `set_active`, `delete`) and ICG descriptions of previews, which would only add easy members.
- SAP and ledger processors, Celery, RabbitMQ, SMTP, OCR, DuckDB, Parquet, file archiving and staging cleanup: foreign systems.
- Routers, response models, migrations, permissions, audit and module administration: plumbing.
