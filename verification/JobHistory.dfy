/**
 * Job health told by the history of the run: the columns of a job's row, the
 * counts that are reported for it, and what a raised alert says.
 */
module JobHistory {
  import opened Prelude
  import opened RowOrder
  import opened IsoTime
  import opened Snapshots
  import opened Tables
  import opened Refinement
  import opened Runs

  /* ---------- the row of a job ---------- */

  datatype Failed = Failed(at: Wall, error: string)

  /** The last operation of the run is a failure of the job that was not rolled back. */
  ghost predicate EndsInFailure(ops: seq<Op>, job: Job)
    requires Legal(EMPTY, ops) && ops != []
  {
    var op := ops[|ops| - 1];
    op.RecordFailure? && op.job == job && Apply(Final(EMPTY, ops[..|ops| - 1]), op).1.Raised?
  }

  /** The failures of a job since its last recorded success. */
  ghost function FailuresSince(ops: seq<Op>, job: Job): seq<Failed>
    requires Legal(EMPTY, ops)
    decreases |ops|
  {
    if ops == [] then [] else
      var op := ops[|ops| - 1];
      if IsRecording(op, job) then []
      else FailuresSince(ops[..|ops| - 1], job) + if EndsInFailure(ops, job) then [Failed(op.at, op.error)] else []
  }

  /** When the job failed last, before or after its last success. */
  ghost function LastFailure(ops: seq<Op>, job: Job): Option<Wall>
    requires Legal(EMPTY, ops)
    decreases |ops|
  {
    if ops == [] then None
    else if EndsInFailure(ops, job) then Some(ops[|ops| - 1].at)
    else LastFailure(ops[..|ops| - 1], job)
  }

  /** The row says how often in a row and when the job failed, with the first 2000 characters of the last error. */
  ghost predicate RowTells(row: Option<JobRow>, failures: seq<Failed>, last: Option<Wall>) {
    if row.None? then failures == [] && last.None?
    else
      && row.value.consecutiveFailures == |failures| && row.value.lastFailureAt == last
      && (if failures == [] then row.value.lastError.None?
          else row.value.lastError.Some? && IsCut(row.value.lastError.value, failures[|failures| - 1].error, 2000))
  }

  lemma {:induction false} RowAfterFailure(
      row: Option<JobRow>, failures: seq<Failed>, last: Option<Wall>, error: string, at: Wall)
    requires RowTells(row, failures, last)
    ensures var failed, now := FailureRow(row, error, at), failures + [Failed(at, error)];
            RowTells(Some(failed), now, Some(at)) && RowTells(Some(failed.(failureAlertActive := true)), now, Some(at))
  {
  }

  lemma {:induction false} RowAfterSuccess(row: Option<JobRow>, failures: seq<Failed>, last: Option<Wall>, at: Wall)
    requires RowTells(row, failures, last)
    ensures RowTells(Some(SuccessRow(row, at)), [], last)
  {
  }

  lemma {:induction false} FailureOnRow(
      db: Db, failing: Job, error: string, at: Wall, alertAfter: int, channels: seq<Channel>, job: Job)
    ensures var r := AfterFailure(db, failing, error, at, alertAfter, channels);
      r.Success? ==>
        var row, next := Get(db.status, job), Get(r.value.0.status, job);
        if failing == job then
          var failed := FailureRow(row, error, at);
          next == Some(failed) || next == Some(failed.(failureAlertActive := true))
        else next == row
  {
  }

  /** What one operation does to a job's row. */
  lemma {:induction false} RowStep(db: Db, op: Op, job: Job)
    requires Applicable(db.status, op)
    ensures var (after, answer) := Apply(db, op); var row, next := Get(db.status, job), Get(after.status, job);
      if op.RecordFailure? && op.job == job && answer.Raised? then
        var failed := FailureRow(row, op.error, op.at);
        next == Some(failed) || next == Some(failed.(failureAlertActive := true))
      else if IsRecording(op, job) then next == Some(SuccessRow(row, op.result.checkedAt))
      else (next.Some? <==> row.Some?)
           && (row.Some? ==> next.value == row.value.(deliveryAlertActive := next.value.deliveryAlertActive))
  {
    match op
    case RecordFailure(failing, error, at, alertAfter, channels) =>
      FailureOnRow(db, failing, error, at, alertAfter, channels, job);
    case RaiseBacklogAlerts(order, at, alertAfter, channels) =>
      EvaluationKeepsRows(db.status, db.alerts, Pending(db.outbox), order, at, alertAfter, channels, job);
    case _ =>
  }

  /** In every run each job's row tells its failures. */
  lemma {:induction false} RowFollowsHistory(ops: seq<Op>, job: Job)
    requires Legal(EMPTY, ops)
    ensures RowTells(Get(Final(EMPTY, ops).status, job), FailuresSince(ops, job), LastFailure(ops, job))
    decreases |ops|
  {
    if ops != [] {
      var front, op := ops[..|ops| - 1], ops[|ops| - 1];
      var row := Get(Final(EMPTY, front).status, job);
      var failures, last := FailuresSince(front, job), LastFailure(front, job);
      RowFollowsHistory(front, job);
      RowStep(Final(EMPTY, front), op, job);
      if EndsInFailure(ops, job) { RowAfterFailure(row, failures, last, op.error, op.at); }
      else if IsRecording(op, job) { RowAfterSuccess(row, failures, last, op.result.checkedAt); }
    }
  }

  /* ---------- counts ---------- */

  /** The undelivered notifications of a job. */
  ghost function PendingOf(outbox: map<nat, Notification>, job: Job): set<nat> {
    set n | n in outbox && outbox[n].deliveredAt.None? && outbox[n].item.job == job
  }

  /** Those of them that have failed at least once. */
  ghost function FailedOf(outbox: map<nat, Notification>, job: Job): set<nat> {
    set n | n in PendingOf(outbox, job) && outbox[n].item.attempts > 0
  }

  ghost function Among(ids: seq<nat>, s: set<nat>): set<nat> {
    set n | n in ids && n in s
  }

  lemma {:induction false} PendingUpTo(outbox: map<nat, Notification>, job: Job, k: nat)
    requires k <= |PendingIds(outbox)|
    ensures CountFor(Pending(outbox)[..k], job) == |Among(PendingIds(outbox)[..k], PendingOf(outbox, job))|
  {
    if k > 0 {
      PendingUpTo(outbox, job, k - 1);
      ItemOfRow(outbox, k - 1, job);
      OneMoreItem(Pending(outbox), k - 1, job);
      OneMoreAmong(PendingIds(outbox), PendingOf(outbox, job), k - 1);
    }
  }

  lemma {:induction false} FailedUpTo(outbox: map<nat, Notification>, job: Job, k: nat)
    requires k <= |PendingIds(outbox)|
    ensures FailedFor(Pending(outbox)[..k], job) == |Among(PendingIds(outbox)[..k], FailedOf(outbox, job))|
  {
    if k > 0 {
      FailedUpTo(outbox, job, k - 1);
      ItemOfRow(outbox, k - 1, job);
      OneMoreItem(Pending(outbox), k - 1, job);
      OneMoreAmong(PendingIds(outbox), FailedOf(outbox, job), k - 1);
    }
  }

  lemma {:induction false} ItemOfRow(outbox: map<nat, Notification>, k: nat, job: Job)
    requires k < |PendingIds(outbox)|
    ensures PendingIds(outbox)[k] !in PendingIds(outbox)[..k]
    ensures PendingIds(outbox)[k] in PendingOf(outbox, job) <==> Pending(outbox)[k].job == job
    ensures PendingIds(outbox)[k] in FailedOf(outbox, job)
       <==> Pending(outbox)[k].job == job && Pending(outbox)[k].attempts > 0
  {
    PendingItem(outbox, k);
    assert PendingIds(outbox)[k] in PendingIds(outbox);
  }

  lemma {:induction false} OneMoreItem(items: seq<Delivery>, k: nat, job: Job)
    requires k < |items|
    ensures CountFor(items[..k + 1], job) == CountFor(items[..k], job) + if items[k].job == job then 1 else 0
    ensures FailedFor(items[..k + 1], job)
         == FailedFor(items[..k], job) + if items[k].job == job && items[k].attempts > 0 then 1 else 0
  {
    assert items[..k + 1][..k] == items[..k];
  }

  lemma {:induction false} OneMoreAmong(ids: seq<nat>, s: set<nat>, k: nat)
    requires k < |ids| && ids[k] !in ids[..k]
    ensures |Among(ids[..k + 1], s)| == |Among(ids[..k], s)| + if ids[k] in s then 1 else 0
  {
    forall n ensures n in ids[..k + 1] <==> n in ids[..k] || n == ids[k] {
    }
    if ids[k] in s {
      assert Among(ids[..k + 1], s) == Among(ids[..k], s) + {ids[k]};
    } else {
      assert Among(ids[..k + 1], s) == Among(ids[..k], s);
    }
  }

  /** The counts are those of the job's undelivered rows, and of the failed ones among them. */
  lemma {:induction false} CountsAreRows(outbox: map<nat, Notification>, job: Job)
    ensures CountFor(Pending(outbox), job) == |PendingOf(outbox, job)|
    ensures FailedFor(Pending(outbox), job) == |FailedOf(outbox, job)|
  {
    var ids, items := PendingIds(outbox), Pending(outbox);
    PendingUpTo(outbox, job, |ids|);
    FailedUpTo(outbox, job, |ids|);
    assert ids[..|ids|] == ids && items[..|ids|] == items;
    assert Among(ids, PendingOf(outbox, job)) == PendingOf(outbox, job);
    assert Among(ids, FailedOf(outbox, job)) == FailedOf(outbox, job);
  }

  /** The maximum is attained and exceeded by no pending delivery of the job. */
  lemma {:induction false} MaxIsMaximum(pending: seq<Delivery>, job: Job)
    ensures forall i | 0 <= i < |pending| && pending[i].job == job :: pending[i].attempts <= MaxAttempts(pending, job)
    ensures MaxAttempts(pending, job) > 0 ==>
      exists i :: 0 <= i < |pending| && pending[i].job == job && pending[i].attempts == MaxAttempts(pending, job)
  {
    if pending != [] {
      var front, last := pending[..|pending| - 1], pending[|pending| - 1];
      MaxIsMaximum(front, job);
      forall i | 0 <= i < |front| ensures front[i] == pending[i] {
      }
      assert pending[|pending| - 1] == last;
    }
  }

  function Availabilities(s: seq<Opportunity>): (q: seq<Availability>)
    ensures |q| == |s| && forall i | 0 <= i < |s| :: q[i] == s[i].availability
  {
    seq(|s|, i requires 0 <= i < |s| => s[i].availability)
  }

  /** The positions that hold this availability. */
  ghost function With(q: seq<Availability>, a: Availability): set<nat> {
    set i: nat | i < |q| && q[i] == a
  }

  lemma {:induction false} AvailabilitiesCounted(q: seq<Availability>, a: Availability)
    ensures multiset(q)[a] == |With(q, a)|
  {
    if q != [] {
      AvailabilitiesCounted(q[..|q| - 1], a);
      OneMoreWith(q[..|q| - 1], q[|q| - 1], a);
      assert q == q[..|q| - 1] + [q[|q| - 1]];
    }
  }

  lemma {:induction false} OneMoreWith(q: seq<Availability>, last: Availability, a: Availability)
    ensures |With(q + [last], a)| == |With(q, a)| + if last == a then 1 else 0
  {
    forall i: nat ensures i in With(q + [last], a) <==> i in With(q, a) || (i == |q| && last == a) {
    }
    if last == a {
      assert With(q + [last], a) == With(q, a) + {|q|};
    } else {
      assert With(q + [last], a) == With(q, a);
    }
  }

  lemma {:induction false} AvailabilityCountsTell(latest: CheckResult, a: Availability)
    ensures AvailabilityCounts(Some(latest))[a] == |With(Availabilities(latest.opportunities), a)|
  {
    var s := latest.opportunities;
    AvailabilitiesCounted(Availabilities(s), a);
    assert seq(|s|, i requires 0 <= i < |s| => s[i].availability) == Availabilities(s);
  }

  /** What is reported about a job: its row, its last snapshot's availabilities, its pending and failed rows. */
  lemma {:induction false} JobHealthTells(db: Db, job: Job, a: Availability)
    ensures var answer := Apply(db, JobHealth(job)).1;
      && answer.HealthOf? && answer.row == Get(db.status, job)
      && answer.pending == |PendingOf(db.outbox, job)| && answer.failed == |FailedOf(db.outbox, job)|
      && (if Latest(db, job).None? then answer.availability == multiset{}
          else answer.availability[a] == |With(Availabilities(Latest(db, job).value.opportunities), a)|)
  {
    CountsAreRows(db.outbox, job);
    if Latest(db, job).Some? { AvailabilityCountsTell(Latest(db, job).value, a); }
  }

  /* ---------- what a raised alert says ---------- */

  /** A pending alert row that was written just now. */
  predicate FreshAlert(row: Alert, key: AlertKey, channels: seq<Channel>, at: Wall) {
    && row.key == key && row.channel in channels && row.createdAt == at
    && row.attempts == 0 && row.lastError.None? && row.deliveredAt.None?
  }

  lemma {:induction false} NewAlertRow(
      alerts: map<nat, Alert>, key: AlertKey, detail: AlertDetail, at: Wall, channels: seq<Channel>, a: nat)
    ensures var after := Append(alerts, NewAlerts(key, detail, at, channels));
      && (a in alerts ==> a in after && after[a] == alerts[a])
      && (a in after && a !in alerts ==> FreshAlert(after[a], key, channels, at) && after[a].detail == detail)
  {
    AppendedRow(alerts, NewAlerts(key, detail, at, channels), a);
  }

  /** A raised failure alert tells the number of failures in a row and the first 1000 characters of the last error. */
  lemma {:induction false} FailureAlertTells(db: Db, op: Op, a: nat)
    requires op.RecordFailure?
    ensures var (after, answer) := Apply(db, op);
      && (a in db.alerts ==> a in after.alerts && after.alerts[a] == db.alerts[a])
      && (a in after.alerts && a !in db.alerts ==>
            && answer == Raised(true) && FreshAlert(after.alerts[a], CheckFailure(op.job), op.channels, op.at)
            && after.alerts[a].detail.Failures? && op.job in after.status
            && after.alerts[a].detail.count == after.status[op.job].consecutiveFailures
            && IsCut(after.alerts[a].detail.error, op.error, 1000))
  {
    var row := FailureRow(Get(db.status, op.job), op.error, op.at);
    NewAlertRow(db.alerts, CheckFailure(op.job), Failures(row.consecutiveFailures, Truncate(op.error, 1000)), op.at,
                op.channels, a);
  }

  /** A row of an evaluation tells how many deliveries of its job are pending and the most attempts of one. */
  predicate TellsBacklog(row: Alert, pending: seq<Delivery>, order: seq<Job>, channels: seq<Channel>, at: Wall) {
    && row.key.DeliveryBacklog? && row.key.job in order && FreshAlert(row, row.key, channels, at)
    && row.detail == Backlog(CountFor(pending, row.key.job), MaxAttempts(pending, row.key.job))
  }

  lemma {:induction false} EvaluationWrites(
      status: map<Job, JobRow>, alerts: map<nat, Alert>, pending: seq<Delivery>, order: seq<Job>, at: Wall,
      alertAfter: int, channels: seq<Channel>, a: nat)
    requires forall j | j in order :: j in status
    ensures var r := EvaluateBacklog(status, alerts, pending, order, at, alertAfter, channels);
      r.Success? && a in r.value.alerts ==>
        || (a in alerts && r.value.alerts[a] == alerts[a])
        || TellsBacklog(r.value.alerts[a], pending, order, channels, at)
  {
    if order != [] {
      var front, j := order[..|order| - 1], order[|order| - 1];
      EvaluationWrites(status, alerts, pending, front, at, alertAfter, channels, a);
      var before := EvaluateBacklog(status, alerts, pending, front, at, alertAfter, channels);
      assert j in order && forall k | k in front :: k in order;
      if before.Success? {
        NewAlertRow(before.value.alerts, DeliveryBacklog(j), Backlog(CountFor(pending, j), MaxAttempts(pending, j)), at,
                    channels, a);
      }
    }
  }

  /** Every alert row after an evaluation was there before or tells a backlog. */
  lemma {:induction false} BacklogAlertTells(db: Db, op: Op, a: nat)
    requires op.RaiseBacklogAlerts? && Applicable(db.status, op) && a in Apply(db, op).0.alerts
    ensures var row, key := Apply(db, op).0.alerts[a], Apply(db, op).0.alerts[a].key;
      || (a in db.alerts && row == db.alerts[a])
      || (&& key.DeliveryBacklog? && key.job in op.order && FreshAlert(row, key, op.channels, op.at)
          && row.detail.Backlog? && row.detail.count == |PendingOf(db.outbox, key.job)|
          && row.detail.maxAttempts == MaxAttempts(Pending(db.outbox), key.job))
  {
    EvaluationWrites(db.status, db.alerts, Pending(db.outbox), op.order, op.at, op.alertAfter, op.channels, a);
    CountsAreRows(db.outbox, Apply(db, op).0.alerts[a].key.job);
  }
}
