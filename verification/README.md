# Web Checker: a verified model

Web Checker runs scheduled checks against provider pages, stores every complete
snapshot in SQLite, derives transitions between snapshots, and delivers
notifications from a durable outbox. This project models that behaviour in Dafny
4.11 and proves what it promises over all inputs, all runs and all interleavings.

`dafny verify dfyconfig.toml` checks everything. Automatic induction is turned off on every
lemma, so each proof is the one that is written.

## What is modelled

**The store** (`Tables`, `Integrity`, `Store`). Six tables, row ids allocated as
the largest existing id plus one (so freed ids are reused), uniqueness
constraints, cascading deletes and transactions that succeed or change nothing.
`Tables` says what each transaction leaves behind; the class in `Store` does it
statement by statement, with the loops of the source, and every insert has its
UNIQUE or PRIMARY KEY constraint as a precondition, so the verified class shows
that no constraint can fire except the one on repeated operational channels.

**What the store means** (`Refinement`, `Runs`, `Deliveries`, `Attempts`, `JobHistory`,
`Backlog`, `Alerts`). A small abstract
state — last snapshot per job, the queue of pending deliveries, job health,
alerts — is refined by every operation. Pruning is a step that does nothing to
it, which gives the main theorem: taking the prunes out of any run changes no
other answer. On top of it: the tables behave as a map of last snapshots; what a success
enqueues and persists, told by the two snapshots; attempts and job rows told by the
history; failure episodes and backlog alerts (`Backlog` is one evaluation).

**Delivery** (`Dispatch`, `DeliveryProtocol`, `RetentionSafety`, `RetentionLoss`,
`RetentionRace`, `SoloDispatcher`, `Operational`). One uninterrupted pass, its progress
bound and the absence of starvation; then a step model in which passes interleave at
`send`, are cancelled, are overtaken by retention, and the process crashes anywhere. In
all of its runs nothing enqueued is lost before it is marked delivered, and what is
delivered stays so. Delivered means sent in every run whose prunes endanger no open pass:
none frees an id that a pass can still reach and that later successes can give out again.
After such a run, a prune can be followed by a loss exactly when it endangers a pass, and
this is read off the tables and the queues before the prune. Retention that spares the rows
of open passes endangers none; one dispatcher delivers exactly once whatever retention does.

**Transitions** (`Snapshots`). Transitions are a patch language: replaying them
reproduces the newer snapshot over any history, and they can be undone.

**Scheduling** (`Cadence`, `Scheduler`, `Retry`). The incremental due time equals
a closed form on a fixed grid; each job is a machine of its own; at most one
execution of a job is live; retries and their delays are bounded.

**Interpreters of provider data** (`DrawTable`, `InvitationDraws`,
`Reservations`, `DayUse`). The rowspan countdown refines "the last dated row
above that spans down to here"; draws conserve the rows; the rolling booking
window is covered exactly.

`IsoTime` and `Calendar` hold timestamps, dates and the order of their ISO texts,
`RowOrder` row ids and their order, `Prelude` shared values.

## Assumptions

- Plan channels are unique (`web_checker/notifications/models.py:17-19`), job ids are
  unique (`web_checker/config.py:148-152`), opportunity ids are unique within a snapshot
  (`web_checker/core/models.py:58-60`).
- Stored times are UTC. The store accepts any offset; `IsoTime.OrdersAgreeIff`
  says exactly when the text comparison of retention is right.
- The order in which SQL `GROUP BY` returns jobs is arbitrary: it is a parameter.
- A transaction is atomic: it succeeds or leaves the tables unchanged. The clock, the
  random draws, the outcome of each `send`, each check and each cancellation are
  parameters or events.
- Alert keys are values with two cases instead of the texts that encode them.
- Operational channels are not deduplicated by the worker (`web_checker/cli.py:297-303`);
  failure episodes and evaluations need them distinct, and exactly when is proved
  (`Alerts.EpisodesNeedDistinctChannels`, `Alerts.EvaluationIsRisingEdge`).
- Retention may run while passes are open, with any cutoffs. That it is at least one day
  (`web_checker/cli.py:162`) does not protect a delivered row: with its run old, not the
  job's newest and awaiting nothing, the row goes with the run
  (`Integrity.PruneKeepsRowIff` says exactly which rows stay).
- Write-backs of deliveries are compared across stores by the place of the row in the queue,
  because ids differ between a pruned and an unpruned store. `Refinement.WriteBackById` says
  that through the id of a pending row this is the same thing; a write-back through an id
  that no longer means its row is the one way in which these operations observe a prune
  (see below).

## What the proofs found

- Retention beside two open passes can lose a notification. A pass holds a row that another
  pass has delivered; retention removes the row; the next success gives its id to a new
  notification; the pass then marks that one delivered, though it was never sent
  (`RetentionRace.RetentionLosesDelivery`, from the empty store, with cutoffs that may lie
  before the delivery; `RetentionRace.ReissuedIdLosesDelivery`, exactly when one prune, one
  success and one turn of a pass do this). Exactly which prunes can be followed by a loss:
  `RetentionLoss.PruneCanLoseIff`; exactly which leave every held id meaning its row:
  `DeliveryProtocol.FlightsStayCurrentIffSpared`.
- A failure that reaches the alert threshold with a repeated operational channel violates
  `UNIQUE (alert_key, channel)`: the whole transaction is rolled back, on this failure and
  on every later one, so the alert is never raised (`Alerts.RepeatedChannelNeverAlerts`).
  Likewise one job with a new backlog rolls the evaluation of all jobs back
  (`Alerts.EvaluationIsRisingEdge`).
- The row of an operational alert can be deleted, and its id reused, while the alert is
  being sent. The write-back then marks another alert delivered that was never sent
  (`Operational.StaleIdMarksAnotherAlert`; exactly when:
  `Operational.IdKeepsMeaningIffNotWithdrawn`).
- Text order of timestamps is time order only for equal offsets, one freak case of offsets a
  microsecond apart aside (`IsoTime.OrdersAgreeIff`).
- Two keys of a reservation response may denote one date ("2026-07-01" and "20260701").
  Such a response passes every check of the driver and gives two opportunities with one id,
  which the snapshot then rejects (`DayUse.RepeatedDateRepeatsId`; exactly when:
  `DayUse.IdsDistinctIff`).
- The out-of-window error inside the loop of the reservation driver cannot occur
  (`DayUse.BuildOpportunities`).

## Model

| member | source | states |
|---|---|---|
| `Refinement.PruningIsUnobservable` | web_checker/storage.py:193-227 | Two consistent stores with the same view, one run with and one without its prunes, answer every other call alike and end in the same view; write-backs address a pending row by its place |
| `Refinement.WriteBackById` | web_checker/storage.py:549-593 | A write-back through the id of a pending row is the one at its place in the queue; through any other id it is rejected |
| `Refinement.OnePruneChangesNothing` | web_checker/storage.py:193-222 | One prune before any later run changes no answer and, at its end, no latest snapshot, pending queue, job health or alert; write-backs address a pending row by its place |
| `Refinement.ApplyRefinesStep` | web_checker/storage.py:62-593 | Every operation keeps the tables consistent and does to the abstract view exactly what the abstract step says, with the same answer; write-backs address a pending row by its place |
| `Refinement.RunsStayConsistent` | web_checker/storage.py:608-684 | Every run of operations keeps all ownership and uniqueness constraints of the schema |
| `Refinement.PruneRefines` | web_checker/storage.py:193-222 | A prune leaves baselines, pending deliveries, job health and alerts unchanged although it cascades through four tables |
| `Refinement.SuccessRefines` | web_checker/storage.py:62-173 | A recorded success replaces one baseline and appends its deliveries behind the pending ones |
| `Refinement.PendingAfterInsert` | web_checker/storage.py:144-168 | New outbox rows come behind all pending ones, whatever ids were freed before |
| `Refinement.PendingAfterFailure` | web_checker/storage.py:563-574 | A failed attempt keeps the delivery's place in the queue |
| `Refinement.PendingAfterDelivery` | web_checker/storage.py:549-561 | A delivered row leaves the queue and the others keep their order |
| `Refinement.ObservedNew` | web_checker/storage.py:796-822 | Reading a run by position gives back the snapshot in its own order |
| `Refinement.LatestAfterPrune` | web_checker/storage.py:207-220 | Pruning never changes a job's latest snapshot |
| `Integrity.SuccessKeepsConsistent` | web_checker/storage.py:78-168 | Recording a success breaks no key, reference or UNIQUE constraint, ids reused or not |
| `Integrity.FailureKeepsConsistent` | web_checker/storage.py:266-307 | Recording a failure keeps all constraints and the tie between alert rows and flags |
| `Integrity.BacklogKeepsConsistent` | web_checker/storage.py:373-411 | Evaluating backlogs keeps all constraints and the tie between alert rows and flags |
| `Integrity.PruneKeepsConsistent` | web_checker/storage.py:199-220 | The cascades of a prune leave no orphan |
| `Integrity.PruneKeepsWhatMatters` | web_checker/storage.py:199-220 | A prune removes delivered notifications only and changes none that stay |
| `Integrity.PruneKeepsRowIff` | web_checker/storage.py:199-220 | A prune keeps a notification row iff it is undelivered, or delivered recently and of a run that is recent, newest or still awaiting a delivery |
| `Integrity.PruneKeepsRunIff` | web_checker/storage.py:207-218 | A prune keeps a run iff it is recent, its job's newest or still awaiting a delivery |
| `Integrity.PruneKeepsOwnedIff` | web_checker/storage.py:199-220 | Observations and transitions stay iff their run does, and everything that stays is unchanged |
| `Integrity.EnqueuedOnce` | web_checker/storage.py:144-168 | No success enqueues two rows for one transition and channel |
| `Integrity.ExpiredRunsAwaitNothing` | web_checker/storage.py:207-218 | A run that retention deletes owns no pending delivery |
| `Runs.LatestIsLastRecorded` | web_checker/storage.py:62-191 | After any run from the empty store, the latest snapshot is the last recorded one and the job's last success is its time |
| `Runs.RecordingAnswersFromHistory` | web_checker/storage.py:71-173 | A recording reports the transitions its place in the job's history demands, and a baseline exactly for the first ever |
| `Runs.SuccessEnqueuesExactly` | web_checker/storage.py:124-168 | A success enqueues one fresh delivery per selected transition and channel, behind everything pending, and nothing else |
| `Deliveries.NewDeliveriesTell` | web_checker/storage.py:124-168 | What a success adds to the queue is about selected changes between the last snapshot and this one (or, on a first snapshot, about what is available): each delivery has that change's kind, the current availability, title and link of the current state or of the last one of what is gone, and no attempts; and every selected change has one on every channel |
| `Deliveries.DeliveriesInOrder` | web_checker/storage.py:124-168 | New deliveries follow the report, and those of one opportunity the channels of the plan, none twice |
| `Deliveries.TransitionRowsTell` | web_checker/storage.py:124-143 | Each new transition row belongs to the new run and holds the kind and both availabilities of its change; old rows stay |
| `Deliveries.EveryChangeIsPersisted` | web_checker/storage.py:124-143 | Every change, selected or not, has its transition row |
| `Deliveries.NotificationsReferToTheirChange` | web_checker/storage.py:144-168 | A new outbox row refers to the new transition row of the change it tells |
| `Runs.UnchangedEnqueuesNothing` | web_checker/storage.py:124-168 | Recording unchanged availabilities reports and enqueues nothing |
| `Runs.LatestIdsAreUnique` | web_checker/storage.py:796-822 | A rebuilt snapshot has unique ids, so it is a valid one |
| `Runs.InitialOnlyOnce` | web_checker/storage.py:72-77 | Initially available reports come from a job's first snapshot only |
| `Runs.NoRepeatedAvailability` | web_checker/storage.py:72-77 | Two became-available reports of one opportunity are separated by a recorded snapshot in which it was not available |
| `Alerts.FailureEpisodes` | web_checker/storage.py:253-308 | Over all runs the failure count is the streak since the last success, the flag holds iff it reached the threshold, and one alert row per channel exists exactly then |
| `Alerts.RaisedAtThresholdOnly` | web_checker/storage.py:286-308 | A failure reports a raised alert iff it is the threshold-th of its streak |
| `Alerts.RepeatedChannelNeverAlerts` | web_checker/storage.py:290-306 | With a repeated channel no job ever gets past one failure short of its alert |
| `Alerts.EpisodesNeedDistinctChannels` | web_checker/storage.py:494-504 | Episodes are tracked in all runs iff the operational channels are distinct |
| `Backlog.BackloggedMeans` | web_checker/storage.py:374-386 | The grouped count and maximum say: some pending row of the job has failed at least the threshold number of times |
| `Backlog.EvaluationSucceedsIff` | web_checker/storage.py:385-418 | An evaluation is rejected iff it has a job to raise and a channel is repeated; otherwise it reports just those jobs |
| `Alerts.FlagIsLastEvaluation` | web_checker/storage.py:407-410 | In every run the backlog flag of a job says whether it had a pending delivery with enough failed write-backs at the last accepted evaluation |
| `Attempts.AttemptsAreFailedWrites` | web_checker/storage.py:563-574 | In every run a pending delivery has one attempt for each failed write-back addressed to it since it was enqueued, and the time and the error of the last of them |
| `Attempts.StuckMeansFailedOften` | web_checker/storage.py:374-386 | A job has a backlog iff some pending delivery of it has seen so many failed write-backs |
| `JobHistory.RowFollowsHistory` | web_checker/storage.py:266-279 | In every run a job's row has the number of failures since the last success, the time of the last failure ever, and the error of the last failure since the last success, cut at 2000 characters |
| `JobHistory.JobHealthTells` | web_checker/storage.py:317-366 | The health of a job reports its row, the availabilities of its last snapshot and the numbers of its undelivered and of its failed notifications |
| `JobHistory.FailureAlertTells` | web_checker/storage.py:290-306 | An alert row written by a failure is fresh, on an operational channel, and tells the failures in a row and the error, cut at 1000 characters; older rows stay |
| `JobHistory.BacklogAlertTells` | web_checker/storage.py:386-402 | An alert row written by an evaluation is fresh and tells how many deliveries of its job are undelivered and the most attempts of one |
| `JobHistory.MaxIsMaximum` | web_checker/storage.py:376-379 | The maximum of the attempts is attained and not exceeded |
| `Alerts.EvaluationIsRisingEdge` | web_checker/storage.py:368-418 | An evaluation raises exactly the jobs that have a pending delivery with enough failed write-backs in the history now and had none at the last evaluation, and afterwards flags and alert rows say which jobs have one; iff there is such a job and a channel is repeated, everything is rolled back instead |
| `Alerts.BacklogAlertsMatchFlags` | web_checker/storage.py:385-410 | In every run of one worker a job's backlog alert exists on every channel iff its flag is set, repeated channels or not |
| `Alerts.RepeatedChannelIsQuiet` | web_checker/storage.py:494-504 | With a repeated channel no run ever writes an alert row or sets a flag |
| `Alerts.AlertsAreBounded` | web_checker/storage.py:670-682 | The operational outbox never exceeds two rows per job and channel, repeated channels or not |
| `Store.SQLiteObservationStore.constructor` | web_checker/storage.py:605-688 | A fresh store is the empty, consistent one |
| `Store.SQLiteObservationStore.RecordSuccess` | web_checker/storage.py:62-180 | The statements of the transaction yield the specified tables and outcome; with unserializable attributes nothing changes |
| `Store.SQLiteObservationStore.WriteObservations` | web_checker/storage.py:99-123 | The observation loop writes the snapshot by position and stops iff an attribute set is not serializable |
| `Store.SQLiteObservationStore.WriteTransitions` | web_checker/storage.py:124-168 | The nested loops write one transition row per transition and one outbox row per selected transition and channel |
| `Store.SQLiteObservationStore.GetLatest` | web_checker/storage.py:182-191 | Returns the job's snapshot with the largest run id, by position |
| `Store.SQLiteObservationStore.ReadRun` | web_checker/storage.py:796-818 | Returns the observations of a run ordered by position |
| `Store.SQLiteObservationStore.Prune` | web_checker/storage.py:193-222 | The two DELETE statements remove exactly the expired rows, by text comparison, and report the numbers of runs that retention does not keep and of deliveries completed before their cutoff |
| `Store.SQLiteObservationStore.RunsToDelete` | web_checker/storage.py:207-218 | Selects the old runs that are no job's newest and await no delivery |
| `Store.SQLiteObservationStore.OlderText` | web_checker/storage.py:203-210 | The text comparison of the statements is the order of the times |
| `Store.SQLiteObservationStore.RecordCheckFailure` | web_checker/storage.py:253-315 | Updates the job's health and raises the alert once, or leaves everything unchanged on a constraint violation |
| `Store.SQLiteObservationStore.RaiseDeliveryBacklogAlerts` | web_checker/storage.py:368-419 | Evaluates every job's backlog in one transaction, or leaves everything unchanged on a constraint violation |
| `Store.SQLiteObservationStore.EnqueueOperationalAlert` | web_checker/storage.py:494-504 | Inserts one row per channel; violates UNIQUE (alert_key, channel) iff a channel is repeated |
| `Store.SQLiteObservationStore.UpdateOperationalAlert` | web_checker/storage.py:463-492 | Settles a pending alert row or rejects the id |
| `Store.SQLiteObservationStore.ListPendingNotifications` | web_checker/storage.py:506-547 | Lists the undelivered rows in id order up to the limit |
| `Store.SQLiteObservationStore.MarkNotificationDelivered` | web_checker/storage.py:549-593 | Marks one pending row delivered, counting the attempt, or rejects an id that is not pending |
| `Store.SQLiteObservationStore.RecordNotificationFailure` | web_checker/storage.py:563-593 | Records one failed attempt on a pending row, or rejects an id that is not pending |
| `Tables.WriteBackExact` | web_checker/storage.py:549-593 | A write-back is accepted iff the row is pending; it counts one attempt at its time, keeps the error (cut at 2000 characters) iff it failed, marks the row delivered iff it did not, and changes nothing else |
| `Tables.AlertWriteBackExact` | web_checker/storage.py:463-492 | The same for alert rows, which keep no time of the attempt |
| `Dispatch.NotificationService.DispatchPending` | web_checker/notifications/service.py:35-56 | An uninterrupted pass settles every listed row once, never meets a missing row, and counts its successes and failures |
| `Dispatch.PassPointwise` | web_checker/notifications/service.py:38-55 | After a pass each listed row is settled once by its own outcome, with one attempt more, and every other row is unchanged |
| `Dispatch.PassMakesProgress` | web_checker/notifications/service.py:35-56 | With b rows that always fail and b < limit, a pass delivers at least min(g, limit - b) of the g deliverable ones |
| `Dispatch.NoStarvation` | web_checker/notifications/service.py:35-56 | After ceil(g / (limit - b)) passes exactly the always failing rows are still pending |
| `Dispatch.SuccessesCounted` | web_checker/notifications/service.py:36-56 | The delivered counter is the number of rows that were delivered |
| `Dispatch.PassKeepsConsistent` | web_checker/notifications/service.py:44-55 | A pass keeps every constraint of the store |
| `DeliveryProtocol.StepKeepsSound` | web_checker/notifications/service.py:35-56 | Every step of interleaved passes, store calls, prunes, cancellations and crashes keeps: every issued row is pending or marked delivered |
| `DeliveryProtocol.NothingIsLost` | web_checker/notifications/service.py:35-56 | In every run an enqueued row stays pending until it is marked delivered |
| `RetentionSafety.AtLeastOnce` | web_checker/notifications/service.py:35-56 | From the empty store, in every run whose prunes endanger no open pass, whatever was enqueued was sent successfully or is still pending |
| `RetentionSafety.SparingRunsDeliverAtLeastOnce` | web_checker/notifications/service.py:35-56 | The same in every run whose prunes spare the rows that open passes hold |
| `RetentionSafety.PruneKeepsCalmIff` | web_checker/storage.py:199-220 | When no pass reaches an id that is free or names another row, this is so after a prune iff no pass reaches an id above every retained one; it reaches a place in its queue when each row before it is undelivered or above them too |
| `RetentionSafety.EndedPassesAreSafe` | web_checker/notifications/service.py:35-56 | After a crash no prune endangers anything, and after the end of one pass only what endangers another |
| `RetentionSafety.StepKeepsCalm` | web_checker/notifications/service.py:35-56 | Every other step keeps that no pass reaches an id that is free or names another row |
| `RetentionSafety.CalmStepMarksSent` | web_checker/notifications/service.py:51-54 | As long as this is so, every write-back of a success marks a row that was sent |
| `RetentionLoss.PruneCanLoseIff` | web_checker/storage.py:199-220 | After any run whose prunes endangered no open pass, a prune has a continuation without prunes that marks an unsent row delivered iff it endangers an open pass |
| `RetentionLoss.EndangeringPruneLoses` | web_checker/notifications/service.py:38-54 | The continuation, at any time: one success on one channel gives the freed ids out again, the pass fails up to the endangered row, then sends it and marks the new one |
| `DeliveryProtocol.DeliveredIsFinal` | web_checker/storage.py:549-585 | A delivered notification never becomes pending again and never changes, in every run whatsoever |
| `DeliveryProtocol.FlightsStayCurrentIffSpared` | web_checker/storage.py:199-220 | After a prune every held id still means its row iff each held row was undelivered, or recently delivered and of a run that is kept |
| `RetentionRace.ReissuedIdLosesDelivery` | web_checker/notifications/service.py:38-54 | A prune, a success and the turn of a pass whose id still means its row or none mark an unsent row delivered iff the success enqueues enough rows for that id, counted from the first one above the retained ids; the new notification is then lost |
| `RetentionRace.RetentionLosesDelivery` | web_checker/notifications/service.py:38-54 | From the empty store, with two runs of one job and two open passes, a prune removes a row delivered at any time with its older run, and the first success of another job is lost |
| `SoloDispatcher.ExactlyOnce` | web_checker/notifications/service.py:42-54 | With one dispatcher that does not stop between send and mark, each delivered row was sent exactly once, whatever retention does |
| `SoloDispatcher.LonePassIsSpared` | web_checker/storage.py:199-220 | Every prune spares a lone pass, because it holds undelivered rows only |
| `SoloDispatcher.StepOnce` | web_checker/notifications/service.py:38-55 | Every step of such a run keeps the count of successful sends exact |
| `Operational.OperationalAlertService.DispatchPending` | web_checker/notifications/operational.py:29-48 | Settles every listed alert once and emits one event per outcome, in order |
| `Operational.OperationalAlertService.CheckFailed` | web_checker/notifications/operational.py:17-27 | Records the failure, announces a raised alert once, then dispatches; a rejected recording does nothing else |
| `Operational.OperationalAlertService.EvaluateBacklogs` | web_checker/notifications/operational.py:50-59 | Announces each newly backlogged job once, in order, then dispatches |
| `Operational.AlertPassPointwise` | web_checker/notifications/operational.py:30-44 | After a pass each listed alert is settled by its own outcome and every other is unchanged |
| `Operational.EventsTellOutcomes` | web_checker/notifications/operational.py:29-48 | The events of a pass say of each listed alert, in their order, whether it was delivered |
| `Operational.RaisedAreAnnounced` | web_checker/notifications/operational.py:53-58 | One event per raised job, in their order |
| `Operational.EverythingDelivered` | web_checker/notifications/operational.py:29-48 | With working channels and at most 100 pending alerts nothing stays pending |
| `Operational.IdKeepsMeaningIffNotWithdrawn` | web_checker/storage.py:95-98 | While an alert is in flight a store call leaves its id meaning that alert iff it does not withdraw the alert |
| `Operational.UndisturbedAlertKeepsItsId` | web_checker/storage.py:463-485 | An alert that no call withdraws can be written back after any run |
| `Operational.StaleIdMarksAnotherAlert` | web_checker/notifications/operational.py:30-44 | A withdrawn alert's id is reused and its write-back marks another job's alert delivered, which was never sent |
| `Snapshots.DetectTransitions` | web_checker/core/transitions.py:37-79 | The two loops compute the specified changes and disappearances in order |
| `Snapshots.DetectExact` | web_checker/core/transitions.py:37-79 | Each id whose availability or presence differs has exactly one transition, of the right kind and states, and no other id has one |
| `Snapshots.KindMeans` | web_checker/core/transitions.py:98-103 | The kind of a reported change: appeared and disappeared iff the id is only in one snapshot, the other three iff it was present before and is now available, unavailable or unknown |
| `Snapshots.ReportInOrder` | web_checker/core/transitions.py:42-79 | Changes are reported in the order of the current snapshot, then what is gone in the order of the previous one |
| `Snapshots.InitialExact` | web_checker/core/transitions.py:82-95 | A first snapshot reports exactly its available opportunities, once each |
| `Snapshots.InitialInOrder` | web_checker/core/transitions.py:82-95 | A first report follows the order of its snapshot |
| `Snapshots.ReplayReproduces` | web_checker/core/transitions.py:37-79 | Replaying the transitions on the older availabilities gives exactly the newer ones |
| `Snapshots.UndoRestores` | web_checker/core/transitions.py:20-27 | The recorded previous states suffice to get the older availabilities back |
| `Snapshots.SilentIffUnchanged` | web_checker/core/transitions.py:57-58 | No transition is reported iff the availabilities agree |
| `Snapshots.HistoryReplays` | web_checker/core/transitions.py:37-95 | Replaying everything reported over any history gives the last snapshot's availabilities |
| `Snapshots.BecameAvailableMeans` | web_checker/core/transitions.py:98-103 | Became available means available now and present but not available before |
| `Snapshots.AvailableReportsAreSeparated` | web_checker/core/transitions.py:37-79 | Two became-available reports of one id are separated by a snapshot in which it was not available |
| `IsoTime.TextOrderIsTimeOrder` | web_checker/storage.py:202-219 | At one offset the order of isoformat texts is chronological, fractions or not |
| `IsoTime.OrdersAgreeIff` | web_checker/storage.py:202-219 | Text order and time order agree for all times iff the offsets are equal, or zero or negative ones a microsecond apart in one direction |
| `IsoTime.TextOrder` | web_checker/storage.py:202-219 | Texts at any two offsets compare by the wall clock first and by the offset text only when the clocks agree |
| `RowOrder.AscendingUnique` | web_checker/storage.py:518-521 | Ascending id order is the only strictly increasing listing of a set of ids |
| `RowOrder.FreshRowId` | web_checker/storage.py:609-609 | The id given to a new row is the largest existing one plus one |
| `RowOrder.AppendedRow` | web_checker/storage.py:140-168 | Rows inserted one by one get consecutive ids above all others and leave those unchanged |
| `Cadence.DueClosedForm` | web_checker/core/scheduler.py:78-87 | The incremental due time is the start plus interval times (floor(elapsed / interval) + 1), whatever ticks led there |
| `Cadence.FiresIffNewCell` | web_checker/core/scheduler.py:80-81 | A tick finds a job due iff it enters a grid cell that no earlier tick was in |
| `Cadence.FiringsAreCellsEntered` | web_checker/core/scheduler.py:78-95 | The number of times a job was due is the number of grid cells entered: no bursts, no repeats |
| `Cadence.FiringsBounded` | web_checker/core/scheduler.py:78-95 | By time t a job was due at most floor((t - start) / interval) + 1 times |
| `Scheduler.Scheduler.TickAt` | web_checker/core/scheduler.py:74-95 | The loop over the jobs does to the state what the tick step says |
| `Scheduler.Scheduler.StartShutDown` | web_checker/core/scheduler.py:118-127 | With nothing live the shutdown is over at once, otherwise it awaits exactly the live executions |
| `Scheduler.Scheduler.EndShutDown` | web_checker/core/scheduler.py:124-135 | However many executions ended meanwhile, afterwards nothing is live, and exactly the jobs whose executions were still live are reported cancelled |
| `Scheduler.Scheduler.SecondsUntilNextDue` | web_checker/core/scheduler.py:192-195 | The wait ends at the earliest due time, is at least a millisecond, and is an hour without jobs |
| `Scheduler.DiscardKeepsSound` | web_checker/core/scheduler.py:197-200 | Discarding ended executions leaves exactly the jobs with a live one in the table and changes nothing that any job sees |
| `Scheduler.TickIsJobWise` | web_checker/core/scheduler.py:78-95 | A tick starts a due job iff it does not run, skips it iff it does, and treats every job independently of the others and of their order |
| `Scheduler.TickOutcome` | web_checker/core/scheduler.py:80-95 | The same in every reachable state, executions ending at any time |
| `Scheduler.TickStartsOrSkips` | web_checker/core/scheduler.py:78-95 | In every reachable state a tick adds one start or one skip of a job iff it is due, a skip iff an execution of it was live, and after a start one is |
| `Scheduler.MutualExclusion` | web_checker/core/scheduler.py:88-95 | In every run at most one execution of a job is live |
| `Scheduler.SoundMeansExclusive` | web_checker/core/scheduler.py:67-72 | The running jobs are exactly those with a live execution |
| `Scheduler.RunsStaySound` | web_checker/core/scheduler.py:74-135 | In every run the table points at every live execution, executions end during a shutdown too, and none is live when it is over |
| `Scheduler.ScheduleInClosedForm` | web_checker/core/scheduler.py:62-95 | Over every run each job's due time is its next unserved grid point, and it was started or skipped once per cell entered, at most once per elapsed cell |
| `Scheduler.TickLeavesNothingDue` | web_checker/core/scheduler.py:84-87 | After a tick every job is due later than now and within one interval |
| `Retry.NewPolicy` | web_checker/config.py:51-83 | A raw policy is accepted iff its values are an integer and finite numbers, in range and in order, with a positive initial delay when there are retries |
| `Retry.DelayBounds` | web_checker/config.py:85-95 | Each delay lies within the jitter fraction of its base delay and never exceeds the maximum |
| `Retry.BackoffDoublesUntilCapped` | web_checker/config.py:87-90 | The base delay starts at the initial delay and doubles until the maximum holds it |
| `Retry.JitterIsSymmetric` | web_checker/config.py:91-95 | Below the maximum, mirrored random draws average to the base delay |
| `Retry.JitterInterpolates` | web_checker/config.py:91-95 | Below the maximum the delay moves evenly with the draw from the lower to the upper end of the jitter band |
| `Retry.ExecuteWithRetries` | web_checker/core/scheduler.py:137-190 | At most max_attempts calls, ending in success at the first that succeeds, in one reported failure iff all fail, or in cancellation; the total sleep is below both the capped and the jittered geometric bound |
| `Retry.SleepBound` | web_checker/config.py:85-95 | The sum of n delays is at most n times the maximum and (1 + jitter) * initial * (2^n - 1) |
| `DrawTable.ParseTableDraws` | web_checker/drivers/welcomebc_high_impact/parser.py:101-157 | The carried date and countdown accept exactly the tables without a bad row, fail with the first bad row's error, and group the routes by covering date |
| `DrawTable.TableAcceptedIff` | web_checker/drivers/welcomebc_high_impact/parser.py:107-155 | A table is acceptable iff every high impact row has a date and good cells and repeats no earlier row of its date up to case, and no row of another width mentions the draw type |
| `DrawTable.ErrorTellsCause` | web_checker/drivers/welcomebc_high_impact/parser.py:107-155 | The error of the first bad row says what is wrong with it |
| `DrawTable.LandsMeans` | web_checker/drivers/welcomebc_high_impact/parser.py:134-152 | A row contributes to a date iff it is a high impact row of that date with good cells, and its route has their factors, score, text and number |
| `DrawTable.OwnDate` | web_checker/drivers/welcomebc_high_impact/parser.py:108-114 | A five-cell row has its own date iff its rowspan is positive |
| `DrawTable.SpanRule` | web_checker/drivers/welcomebc_high_impact/parser.py:105-127 | A four-cell row has date d iff the last five-cell row before it has that date and spans down to it |
| `DrawTable.EveryHighImpactRowLands` | web_checker/drivers/welcomebc_high_impact/parser.py:128-152 | In an accepted table every high impact row belongs to a dated draw and no odd row mentions one |
| `DrawTable.RowKeepsItsPlace` | web_checker/drivers/welcomebc_high_impact/parser.py:144-152 | A row's route stands in its draw behind those of the earlier rows of the same date |
| `DrawTable.RouteHasItsRow` | web_checker/drivers/welcomebc_high_impact/parser.py:144-157 | Every route of a draw comes from exactly one row |
| `DrawTable.KeysDiffer` | web_checker/drivers/welcomebc_high_impact/parser.py:145-151 | No two routes of an accepted draw have the same factors and score up to case |
| `DrawTable.DrawTotal` | web_checker/drivers/welcomebc_high_impact/parser.py:44-48 | A draw's total is the sum its rows announce, and absent iff some row of it is inexact |
| `InvitationDraws.ParseNarrativeDraws` | web_checker/drivers/welcomebc_high_impact/parser.py:159-206 | Accepts exactly the pages without a bad or contradicting section, fails with the first one's error, and collects one draw per date |
| `InvitationDraws.NarrativeAcceptedIff` | web_checker/drivers/welcomebc_high_impact/parser.py:159-206 | The narrative is acceptable iff every dated section that mentions the draw type states a positive total that its items add up to, and agrees item by item with the other sections of its date |
| `InvitationDraws.SectionGood` | web_checker/drivers/welcomebc_high_impact/parser.py:172-200 | Such a section is read iff it is good, as one route per item with its factors, its score or N/A, and its number in decimal |
| `InvitationDraws.SectionErrorTellsCause` | web_checker/drivers/welcomebc_high_impact/parser.py:172-205 | The error of the first bad section says what is wrong with it |
| `InvitationDraws.NarrativeTotalIsStated` | web_checker/drivers/welcomebc_high_impact/parser.py:172-197 | An accepted narrative draw announces exactly the total its text states |
| `InvitationDraws.Merge` | web_checker/drivers/welcomebc_high_impact/parser.py:69-73 | The merged dates are those of both forms and the table wins |
| `InvitationDraws.Parse` | web_checker/drivers/welcomebc_high_impact/parser.py:68-83 | Succeeds iff rows and sections are acceptable and some draw exists, and lists exactly the page's draws, newest first; otherwise fails with the first bad row's error, else the first bad section's, else with no draw found |
| `InvitationDraws.IdsAreDistinct` | web_checker/drivers/welcomebc_high_impact/parser.py:230-231 | Listings of a page have distinct ids |
| `InvitationDraws.TableListingTotal` | web_checker/drivers/welcomebc_high_impact/parser.py:44-48 | The total of a listing of a table date is what its rows announce, absent iff one of them is inexact |
| `InvitationDraws.NarrativeListingTotal` | web_checker/drivers/welcomebc_high_impact/parser.py:172-197 | The total of a listing of a narrative draw is the stated one |
| `Reservations.ParseReservations` | web_checker/drivers/bcparks_dayuse/parser.py:144-197 | Fails with the first error in document order, else returns every slot sorted by date and slot name, equal keys in their order |
| `Reservations.AcceptedIff` | web_checker/drivers/bcparks_dayuse/parser.py:149-188 | A response is accepted iff every day has a date and slots and every slot has a known name and capacity and a max in range that is zero iff full |
| `Reservations.EverySlotIsRead` | web_checker/drivers/bcparks_dayuse/parser.py:161-196 | No slot of an accepted response is lost or altered |
| `Reservations.ReservationHasItsSlot` | web_checker/drivers/bcparks_dayuse/parser.py:161-196 | Every reservation stands for a slot of the response: its date, name, capacity and maximum |
| `Reservations.ErrorTellsCause` | web_checker/drivers/bcparks_dayuse/parser.py:144-192 | The error of a rejected response says what is wrong at its first bad place |
| `Reservations.SortedMeans` | web_checker/drivers/bcparks_dayuse/parser.py:197-197 | In sorted order dates ascend, and on one date the names of the slots do as texts |
| `Reservations.InsertIsStable` | web_checker/drivers/bcparks_dayuse/parser.py:197-197 | Sorting keeps, for each date and slot, the entries and their order |
| `Reservations.AcceptedArePlausible` | web_checker/drivers/bcparks_dayuse/parser.py:178-188 | Sorting loses and adds nothing, and an accepted slot is full iff nothing can be reserved |
| `DayUse.BuildOpportunities` | web_checker/drivers/bcparks_dayuse/driver.py:261-376 | Fails iff the dates are not the window, the slot is missing on a date or a limit is exceeded, in this order, never with the out-of-window error; else lists the matching slots that have not ended |
| `DayUse.AcceptedMeans` | web_checker/drivers/bcparks_dayuse/driver.py:271-318 | A response is accepted iff its dates are today and the days ahead, each has the requested slot, and no such slot exceeds the pass limit |
| `DayUse.EntriesDescribe` | web_checker/drivers/bcparks_dayuse/driver.py:319-376 | Each entry describes a matching reservation that is not over: no booking is required iff its weekday is none of the booking days and it is no holiday; else it is unopened iff it is the last day and the opening hour has not come; else it is available iff it is not full |
| `DayUse.EndedOnItsDay` | web_checker/drivers/bcparks_dayuse/driver.py:378-398 | On its day a slot is over from 12:00 or 16:00 in park 0015, from 13:00 or 15:30 elsewhere |
| `DayUse.WindowExact` | web_checker/drivers/bcparks_dayuse/driver.py:271-326 | The entries cover exactly today and the days ahead, without today iff its slot is over |
| `DayUse.NothingUsableIff` | web_checker/drivers/bcparks_dayuse/driver.py:226-229 | No opportunity is left iff the window is today alone and its slot is over |
| `DayUse.PreOpenIff` | web_checker/drivers/bcparks_dayuse/driver.py:327-341 | Only the last day of the window can be unopened, and it is iff the opening hour has not come |
| `DayUse.AvailabilityMeansMax` | web_checker/drivers/bcparks_dayuse/driver.py:305-347 | Available means between one and the pass limit can be reserved, unavailable none; other states are unknown |
| `DayUse.AcceptedResponse` | web_checker/drivers/bcparks_dayuse/driver.py:296-376 | A response that repeats no date and no slot name gives distinct ids in strictly ascending order of dates |
| `DayUse.IdsDistinctIff` | web_checker/drivers/bcparks_dayuse/driver.py:349-353 | Ids are distinct iff no two matching reservations that have not ended share a date |
| `DayUse.RepeatedDateRepeatsId` | web_checker/drivers/bcparks_dayuse/parser.py:149-155 | Two keys for one date are accepted and give two entries with one id |
| `DayUse.SlotsShareTheDay` | web_checker/drivers/bcparks_dayuse/driver.py:378-398 | In every park the morning and afternoon slots meet and the all-day slot spans exactly both |
| `DayUse.OnlyTodayCanEnd` | web_checker/drivers/bcparks_dayuse/driver.py:378-398 | Compared as wall clock, a slot of a later day has never ended and one of an earlier day always has |
| `Calendar.DayTextOrder` | web_checker/drivers/welcomebc_high_impact/parser.py:231-231 | ISO texts of dates are ordered as the dates and differ when they do |
| `Calendar.DayTextMeans` | web_checker/drivers/welcomebc_high_impact/parser.py:231-231 | The ISO text of a date is its year, month and day in decimal, as YYYY-MM-DD |

## Left out

- RetentionSafety.AtLeastOnce: holds for runs whose prunes endanger no open pass, because after any other prune the code can lose a notification (`RetentionLoss.PruneCanLoseIff`); and it does not claim that concurrent dispatchers never send a row twice, because two passes may list the same row.
- Snapshots: attributes, start times and booking URLs are opaque; a reload turns tuples into lists and zones into offsets, so full equality of a reloaded snapshot is not claimed for them.
- Retry.DelayBounds: exact real arithmetic, because rounding of floating point numbers is not the point.
- Cadence.DueClosedForm: exact real arithmetic, likewise.
- Retry.ExecuteWithRetries: the calls, the draws and the arrival of a cancellation are functions of the attempt; events and log lines are not modelled.
- Scheduler.Scheduler: the shutdown is two methods around its wait; takes the jobs that are enabled and have a schedule; the run loop's waiting and signal handling are not modelled.
- DrawTable.ParseTableDraws: rows come with their cells extracted (parsed date, rowspan as an integer, score match, count text) and case folding is a parameter; the HTML selection and the regular expressions are opaque.
- InvitationDraws.Parse: titles and attributes of the opportunities are not modelled, only id, date, routes and total.
- DayUse.BuildOpportunities: takes the provider's current time as wall clock in its zone, because time-zone data is not modelled; title and attributes are left out, and the facility lookup and its gates before (`web_checker/drivers/bcparks_dayuse/driver.py:146-199`) are single-branch checks.
- Store: overflow of row ids, input and output errors, locking and connection handling; `status()` and the SQL text itself.
- Schema migrations (`web_checker/storage.py:689-760`): the model starts from the fresh schema.
- HTTP transport, response limits, URL and header validation, JSON and YAML decoding: library calls and single-branch checks.
- The generic HTML driver, the SMTP and console adapters, registries, command line formatting, backups, deployment scripts and the mock site: plumbing over libraries with little state logic of their own.
