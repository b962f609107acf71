/**
 * Operational alerts over whole runs: each episode of failures or of stuck
 * deliveries raises its alert once, and alert rows exist exactly while the
 * episode lasts.
 */
module Alerts {
  import opened Prelude
  import opened RowOrder
  import opened IsoTime
  import opened Snapshots
  import opened Tables
  import opened Refinement
  import opened Runs
  import opened Backlog
  import opened Attempts

  /** One worker: a constant threshold and one list of operational channels. */
  ghost predicate Configured(ops: seq<Op>, alertAfter: int, channels: seq<Channel>) {
    forall i | 0 <= i < |ops| ::
      (ops[i].RecordFailure? || ops[i].RaiseBacklogAlerts?) ==>
        ops[i].alertAfter == alertAfter && ops[i].channels == channels
  }

  ghost predicate Settings(alertAfter: int, channels: seq<Channel>) {
    alertAfter >= 1 && Distinct(channels)
  }

  /** Failures of a job since its last recorded success. */
  function Streak(ops: seq<Op>, job: Job): nat {
    if ops == [] then 0 else
      var op, before := ops[|ops| - 1], Streak(ops[..|ops| - 1], job);
      if IsRecording(op, job) then 0
      else if op.RecordFailure? && op.job == job then before + 1
      else before
  }

  /** The channels that have an alert row under a key. */
  ghost function AlertChannels(alerts: map<nat, Alert>, key: AlertKey): set<Channel> {
    set a | a in alerts && alerts[a].key == key :: alerts[a].channel
  }

  function FailuresOf(row: Option<JobRow>): nat {
    if row.None? then 0 else row.value.consecutiveFailures
  }

  predicate Flag(row: Option<JobRow>, key: AlertKey) {
    row.Some? && Active(row.value, key)
  }

  /** Rows of a key cover all channels while its flag is set and none otherwise. */
  ghost predicate AlertsMatchFlag(
      status: map<Job, JobRow>, alerts: map<nat, Alert>, key: AlertKey, channels: seq<Channel>)
  {
    AlertChannels(alerts, key) == if Flag(Get(status, key.job), key) then Elements(channels) else {}
  }

  /* ---------- alert tables ---------- */

  lemma {:induction false} ChannelsAfterInsert(alerts: map<nat, Alert>, key: AlertKey, detail: AlertDetail, at: Wall,
                            channels: seq<Channel>, other: AlertKey)
    ensures AlertChannels(Append(alerts, NewAlerts(key, detail, at, channels)), other)
         == AlertChannels(alerts, other) + if key == other then Elements(channels) else {}
  {
    var base, rows := NextId(alerts.Keys), NewAlerts(key, detail, at, channels);
    var after := Append(alerts, rows);
    forall c
      ensures c in AlertChannels(after, other)
         <==> c in AlertChannels(alerts, other) || (key == other && c in channels)
    {
      if c in AlertChannels(alerts, other) {
        var a :| a in alerts && alerts[a].key == other && alerts[a].channel == c;
        AppendedRow(alerts, rows, a);
      }
      if key == other && c in channels {
        var i :| 0 <= i < |channels| && channels[i] == c;
        AppendedRow(alerts, rows, base + i);
      }
      if c in AlertChannels(after, other) {
        var a :| a in after && after[a].key == other && after[a].channel == c;
        AppendedRow(alerts, rows, a);
      }
    }
  }

  lemma {:induction false} ChannelsAfterRemoval(alerts: map<nat, Alert>, key: AlertKey, other: AlertKey)
    ensures AlertChannels(WithoutKey(alerts, key), other) == if key == other then {} else AlertChannels(alerts, other)
  {
    var after := WithoutKey(alerts, key);
    forall c
      ensures c in AlertChannels(after, other) <==> key != other && c in AlertChannels(alerts, other)
    {
      if key != other && c in AlertChannels(alerts, other) {
        var a :| a in alerts && alerts[a].key == other && alerts[a].channel == c;
        assert a in after && after[a] == alerts[a];
      }
    }
  }

  lemma {:induction false} ChannelsAfterAttempt(
      alerts: map<nat, Alert>, id: nat, at: Wall, failure: Option<string>, key: AlertKey)
    requires AfterAlertAttempt(alerts, id, at, failure).Success?
    ensures AlertChannels(AfterAlertAttempt(alerts, id, at, failure).value, key) == AlertChannels(alerts, key)
  {
    var after := AfterAlertAttempt(alerts, id, at, failure).value;
    assert forall a | a in alerts ::
      a in after && after[a].key == alerts[a].key && after[a].channel == alerts[a].channel;
    assert forall a | a in after ::
      a in alerts && after[a].key == alerts[a].key && after[a].channel == alerts[a].channel;
  }

  /* ---------- repeated check failures ---------- */

  lemma {:induction false} EvaluateJobOnFailureAlerts(
      h: Health, pending: seq<Delivery>, j: Job, at: Wall, alertAfter: int, channels: seq<Channel>, job: Job)
    requires j in h.status
    ensures var r := EvaluateJob(h, pending, j, at, alertAfter, channels);
            r.Success? ==>
              AlertChannels(r.value.alerts, CheckFailure(job)) == AlertChannels(h.alerts, CheckFailure(job))
  {
    ChannelsAfterRemoval(h.alerts, DeliveryBacklog(j), CheckFailure(job));
    ChannelsAfterInsert(h.alerts, DeliveryBacklog(j), Backlog(CountFor(pending, j), MaxAttempts(pending, j)), at,
                        channels, CheckFailure(job));
  }

  lemma {:induction false} EvaluationOnFailureAlerts(
      status: map<Job, JobRow>, alerts: map<nat, Alert>, pending: seq<Delivery>, order: seq<Job>, at: Wall,
      alertAfter: int, channels: seq<Channel>, job: Job)
    requires forall j | j in order :: j in status
    ensures var r := EvaluateBacklog(status, alerts, pending, order, at, alertAfter, channels);
            r.Success? ==> AlertChannels(r.value.alerts, CheckFailure(job)) == AlertChannels(alerts, CheckFailure(job))
  {
    if order != [] {
      var last := |order| - 1;
      EvaluationOnFailureAlerts(status, alerts, pending, order[..last], at, alertAfter, channels, job);
      var before := EvaluateBacklog(status, alerts, pending, order[..last], at, alertAfter, channels);
      if before.Success? {
        EvaluateJobOnFailureAlerts(before.value, pending, order[last], at, alertAfter, channels, job);
      }
    }
  }

  /** The state of a job's failure episode after `n` failures in a row. */
  ghost predicate InEpisode(
      status: map<Job, JobRow>, alerts: map<nat, Alert>, job: Job, n: nat, alertAfter: int, channels: seq<Channel>)
  {
    && FailuresOf(Get(status, job)) == n
    && (Flag(Get(status, job), CheckFailure(job)) <==> n >= alertAfter)
    && AlertsMatchFlag(status, alerts, CheckFailure(job), channels)
  }

  lemma {:induction false} OwnFailure(
      db: Db, job: Job, error: string, at: Wall, alertAfter: int, channels: seq<Channel>, n: nat)
    requires Settings(alertAfter, channels) && InEpisode(db.status, db.alerts, job, n, alertAfter, channels)
    ensures var r := AfterFailure(db, job, error, at, alertAfter, channels);
      && r.Success? && r.value.1 == (n + 1 == alertAfter)
      && InEpisode(r.value.0.status, r.value.0.alerts, job, n + 1, alertAfter, channels)
  {
    var row := FailureRow(Get(db.status, job), error, at);
    ChannelsAfterInsert(db.alerts, CheckFailure(job), Failures(row.consecutiveFailures, Truncate(error, 1000)), at,
                        channels, CheckFailure(job));
  }

  /** A failure touches only its own job's failure alert. */
  lemma {:induction false} FailureElsewhere(
      db: Db, failing: Job, error: string, at: Wall, alertAfter: int, channels: seq<Channel>, key: AlertKey)
    requires key != CheckFailure(failing)
    ensures var r := AfterFailure(db, failing, error, at, alertAfter, channels);
            r.Success? ==> AlertChannels(r.value.0.alerts, key) == AlertChannels(db.alerts, key)
  {
    var row := FailureRow(Get(db.status, failing), error, at);
    if Raises(row, alertAfter) && Distinct(channels) {
      ChannelsAfterInsert(db.alerts, CheckFailure(failing), Failures(row.consecutiveFailures, Truncate(error, 1000)),
                          at, channels, key);
    }
  }

  lemma {:induction false} FlagElsewhere(
      db: Db, failing: Job, error: string, at: Wall, alertAfter: int, channels: seq<Channel>, key: AlertKey)
    requires key != CheckFailure(failing)
    ensures var r := AfterFailure(db, failing, error, at, alertAfter, channels);
            r.Success? ==> Flag(Get(r.value.0.status, key.job), key) == Flag(Get(db.status, key.job), key)
                           && (key.job != failing ==> Get(r.value.0.status, key.job) == Get(db.status, key.job))
  {
  }

  lemma {:induction false} FailureInEpisode(db: Db, op: Op, job: Job, n: nat, alertAfter: int, channels: seq<Channel>)
    requires Settings(alertAfter, channels) && op.RecordFailure? && op.alertAfter == alertAfter
      && op.channels == channels
    requires InEpisode(db.status, db.alerts, job, n, alertAfter, channels)
    ensures var (after, answer) := Apply(db, op);
      && InEpisode(after.status, after.alerts, job, if op.job == job then n + 1 else n, alertAfter, channels)
      && (op.job == job ==> answer == Raised(n + 1 == alertAfter))
  {
    if op.job == job { OwnFailure(db, job, op.error, op.at, alertAfter, channels, n); }
    else {
      FailureElsewhere(db, op.job, op.error, op.at, alertAfter, channels, CheckFailure(job));
      FlagElsewhere(db, op.job, op.error, op.at, alertAfter, channels, CheckFailure(job));
    }
  }

  lemma {:induction false} SuccessInEpisode(db: Db, op: Op, job: Job, n: nat, alertAfter: int, channels: seq<Channel>)
    requires Settings(alertAfter, channels) && op.RecordSuccess? && Applicable(db.status, op)
    requires InEpisode(db.status, db.alerts, job, n, alertAfter, channels)
    ensures var after := Apply(db, op).0;
            InEpisode(after.status, after.alerts, job, if IsRecording(op, job) then 0 else n, alertAfter, channels)
  {
    ChannelsAfterRemoval(db.alerts, CheckFailure(op.job), CheckFailure(job));
  }

  lemma {:induction false} OtherInEpisode(db: Db, op: Op, job: Job, n: nat, alertAfter: int, channels: seq<Channel>)
    requires !op.RecordSuccess? && !op.RecordFailure? && Applicable(db.status, op)
    requires InEpisode(db.status, db.alerts, job, n, alertAfter, channels)
    ensures var after := Apply(db, op).0;
            InEpisode(after.status, after.alerts, job, n, alertAfter, channels)
  {
    match op
    case RaiseBacklogAlerts(order, at, threshold, list) =>
      EvaluationOnFailureAlerts(db.status, db.alerts, Pending(db.outbox), order, at, threshold, list, job);
      EvaluationKeepsRows(db.status, db.alerts, Pending(db.outbox), order, at, threshold, list, job);
    case SettleAlert(id, at, failure) =>
      if AfterAlertAttempt(db.alerts, id, at, failure).Success? {
        ChannelsAfterAttempt(db.alerts, id, at, failure, CheckFailure(job));
      }
    case _ =>
  }

  /**
   * Over all runs, the failure counter is the number of failures since the last
   * success, the flag says whether it reached the threshold, and there is an
   * alert row for every channel exactly while it has.
   */
  lemma {:induction false} FailureEpisodes(ops: seq<Op>, job: Job, alertAfter: int, channels: seq<Channel>)
    requires Legal(EMPTY, ops) && Configured(ops, alertAfter, channels) && Settings(alertAfter, channels)
    ensures InEpisode(Final(EMPTY, ops).status, Final(EMPTY, ops).alerts, job, Streak(ops, job), alertAfter, channels)
    decreases |ops|
  {
    if ops == [] {
      assert AlertChannels(EMPTY.alerts, CheckFailure(job)) == {};
    } else {
      var front, op := ops[..|ops| - 1], ops[|ops| - 1];
      FailureEpisodes(front, job, alertAfter, channels);
      var db, n := Final(EMPTY, front), Streak(front, job);
      match op
      case RecordFailure(_, _, _, _, _) => FailureInEpisode(db, op, job, n, alertAfter, channels);
      case RecordSuccess(_, _, _) => SuccessInEpisode(db, op, job, n, alertAfter, channels);
      case _ => OtherInEpisode(db, op, job, n, alertAfter, channels);
    }
  }

  /** A failure raises the alert exactly when it is the threshold-th of its episode. */
  lemma {:induction false} RaisedAtThresholdOnly(
      ops: seq<Op>, job: Job, error: string, at: Wall, alertAfter: int, channels: seq<Channel>)
    requires Legal(EMPTY, ops) && Configured(ops, alertAfter, channels) && Settings(alertAfter, channels)
    ensures Apply(Final(EMPTY, ops), RecordFailure(job, error, at, alertAfter, channels)).1
         == Raised(Streak(ops, job) + 1 == alertAfter)
  {
    FailureEpisodes(ops, job, alertAfter, channels);
    FailureInEpisode(Final(EMPTY, ops), RecordFailure(job, error, at, alertAfter, channels), job, Streak(ops, job),
      alertAfter, channels);
  }

  /**
   * The channel list is not deduplicated by the caller. With a repeated channel
   * the failure that reaches the threshold is rolled back, so no job ever gets
   * further than one failure short of its alert.
   */
  lemma {:induction false} RepeatedChannelNeverAlerts(ops: seq<Op>, job: Job, alertAfter: int, channels: seq<Channel>)
    requires Legal(EMPTY, ops) && Configured(ops, alertAfter, channels) && alertAfter >= 1 && !Distinct(channels)
    ensures ShortOfAlert(Get(Final(EMPTY, ops).status, job), alertAfter)
    decreases |ops|
  {
    if ops != [] {
      var front, op := ops[..|ops| - 1], ops[|ops| - 1];
      RepeatedChannelNeverAlerts(front, job, alertAfter, channels);
      StaysShort(Final(EMPTY, front), op, job, alertAfter, channels);
    }
  }

  predicate ShortOfAlert(row: Option<JobRow>, alertAfter: int) {
    FailuresOf(row) < alertAfter && (row.Some? ==> !row.value.failureAlertActive)
  }

  lemma {:induction false} StaysShort(db: Db, op: Op, job: Job, alertAfter: int, channels: seq<Channel>)
    requires Applicable(db.status, op) && alertAfter >= 1 && !Distinct(channels)
    requires op.RecordFailure? || op.RaiseBacklogAlerts? ==> op.alertAfter == alertAfter && op.channels == channels
    requires ShortOfAlert(Get(db.status, job), alertAfter)
    ensures ShortOfAlert(Get(Apply(db, op).0.status, job), alertAfter)
  {
    match op
    case RaiseBacklogAlerts(order, at, _, _) =>
      EvaluationKeepsRows(db.status, db.alerts, Pending(db.outbox), order, at, alertAfter, channels, job);
    case _ =>
  }

  function FailingRun(n: nat, job: Job, at: Wall, alertAfter: int, channels: seq<Channel>): (ops: seq<Op>)
    ensures |ops| == n && Configured(ops, alertAfter, channels)
    ensures forall i | 0 <= i < n :: ops[i] == RecordFailure(job, "", at, alertAfter, channels)
  {
    seq(n, i => RecordFailure(job, "", at, alertAfter, channels))
  }

  lemma {:induction false} FailingRunFails(n: nat, job: Job, at: Wall, alertAfter: int, channels: seq<Channel>)
    ensures var ops := FailingRun(n, job, at, alertAfter, channels);
            Legal(EMPTY, ops) && Streak(ops, job) == n
  {
    if n > 0 {
      FailingRunFails(n - 1, job, at, alertAfter, channels);
      assert FailingRun(n, job, at, alertAfter, channels)[..n - 1] == FailingRun(n - 1, job, at, alertAfter, channels);
    }
  }

  ghost predicate TracksEpisode(ops: seq<Op>, job: Job, alertAfter: int, channels: seq<Channel>) {
    Legal(EMPTY, ops) && Configured(ops, alertAfter, channels) ==>
      InEpisode(Final(EMPTY, ops).status, Final(EMPTY, ops).alerts, job, Streak(ops, job), alertAfter, channels)
  }

  /** Failure episodes are tracked in all runs exactly when no channel is repeated. */
  lemma {:induction false} EpisodesNeedDistinctChannels(alertAfter: int, channels: seq<Channel>)
    requires alertAfter >= 1
    ensures (forall ops, job :: TracksEpisode(ops, job, alertAfter, channels)) <==> Distinct(channels)
  {
    if Distinct(channels) {
      forall ops, job
        ensures TracksEpisode(ops, job, alertAfter, channels)
      {
        if Legal(EMPTY, ops) && Configured(ops, alertAfter, channels) {
          FailureEpisodes(ops, job, alertAfter, channels);
        }
      }
    } else {
      var at: Wall := Stamp(1970, 1, 1, 0, 0, 0, 0);
      var ops := FailingRun(alertAfter, "job", at, alertAfter, channels);
      FailingRunFails(alertAfter, "job", at, alertAfter, channels);
      RepeatedChannelNeverAlerts(ops, "job", alertAfter, channels);
      assert !TracksEpisode(ops, "job", alertAfter, channels);
    }
  }

  /* ---------- delivery backlog ---------- */

  ghost predicate BacklogMatches(status: map<Job, JobRow>, alerts: map<nat, Alert>, job: Job, channels: seq<Channel>) {
    AlertsMatchFlag(status, alerts, DeliveryBacklog(job), channels)
  }

  lemma {:induction false} EvaluateJobExact(
      h: Health, pending: seq<Delivery>, job: Job, at: Wall, alertAfter: int, channels: seq<Channel>, other: Job)
    requires job in h.status && Distinct(channels)
    requires BacklogMatches(h.status, h.alerts, other, channels)
    ensures var r := EvaluateJob(h, pending, job, at, alertAfter, channels);
      && r.Success? && BacklogMatches(r.value.status, r.value.alerts, other, channels)
      && (other != job ==> Get(r.value.status, other) == Get(h.status, other))
      && r.value.status[job].deliveryAlertActive == Backlogged(pending, job, alertAfter)
      && r.value.raised == h.raised
           + if Backlogged(pending, job, alertAfter) && !h.status[job].deliveryAlertActive then [job] else []
  {
    var detail := Backlog(CountFor(pending, job), MaxAttempts(pending, job));
    ChannelsAfterInsert(h.alerts, DeliveryBacklog(job), detail, at, channels, DeliveryBacklog(other));
    ChannelsAfterRemoval(h.alerts, DeliveryBacklog(job), DeliveryBacklog(other));
  }

  lemma {:induction false} EvaluationExact(status: map<Job, JobRow>, alerts: map<nat, Alert>, pending: seq<Delivery>,
                                           order: seq<Job>, at: Wall, alertAfter: int, channels: seq<Channel>, job: Job)
    requires Distinct(order) && (forall j | j in order :: j in status) && Distinct(channels)
    requires BacklogMatches(status, alerts, job, channels)
    ensures var r := EvaluateBacklog(status, alerts, pending, order, at, alertAfter, channels);
      && r.Success? && BacklogMatches(r.value.status, r.value.alerts, job, channels)
      && (job !in order ==> Get(r.value.status, job) == Get(status, job))
      && (job in order ==> r.value.status[job].deliveryAlertActive == Backlogged(pending, job, alertAfter))
  {
    if order != [] {
      var last := |order| - 1;
      EvaluationExact(status, alerts, pending, order[..last], at, alertAfter, channels, job);
      var before := EvaluateBacklog(status, alerts, pending, order[..last], at, alertAfter, channels);
      assert order == order[..last] + [order[last]];
      EvaluateJobExact(before.value, pending, order[last], at, alertAfter, channels, job);
    }
  }

  lemma {:induction false} BacklogAfterSuccess(
      db: Db, j: Job, result: CheckResult, plan: Plan, job: Job, channels: seq<Channel>)
    requires BacklogMatches(db.status, db.alerts, job, channels)
    ensures var after := AfterSuccess(db, j, result, plan); BacklogMatches(after.status, after.alerts, job, channels)
  {
    ChannelsAfterRemoval(db.alerts, CheckFailure(j), DeliveryBacklog(job));
  }

  lemma {:induction false} BacklogAfterFailure(
      db: Db, j: Job, error: string, at: Wall, alertAfter: int, job: Job, channels: seq<Channel>)
    requires Distinct(channels) && BacklogMatches(db.status, db.alerts, job, channels)
    ensures var r := AfterFailure(db, j, error, at, alertAfter, channels);
            r.Success? ==> BacklogMatches(r.value.0.status, r.value.0.alerts, job, channels)
  {
    FailureElsewhere(db, j, error, at, alertAfter, channels, DeliveryBacklog(job));
    FlagElsewhere(db, j, error, at, alertAfter, channels, DeliveryBacklog(job));
  }

  lemma {:induction false} BacklogStep(db: Db, op: Op, job: Job, channels: seq<Channel>)
    requires Applicable(db.status, op) && Distinct(channels)
    requires op.RecordFailure? || op.RaiseBacklogAlerts? ==> op.channels == channels
    requires BacklogMatches(db.status, db.alerts, job, channels)
    ensures BacklogMatches(Apply(db, op).0.status, Apply(db, op).0.alerts, job, channels)
  {
    match op
    case RecordSuccess(j, result, plan) => BacklogAfterSuccess(db, j, result, plan, job, channels);
    case RecordFailure(j, error, at, alertAfter, _) =>
      BacklogAfterFailure(db, j, error, at, alertAfter, job, channels);
    case RaiseBacklogAlerts(order, at, alertAfter, _) =>
      EvaluationExact(db.status, db.alerts, Pending(db.outbox), order, at, alertAfter, channels, job);
    case SettleAlert(id, at, failure) =>
      if AfterAlertAttempt(db.alerts, id, at, failure).Success? {
        ChannelsAfterAttempt(db.alerts, id, at, failure, DeliveryBacklog(job));
      }
    case _ =>
  }

  lemma {:induction false} MatchesWithDistinctChannels(ops: seq<Op>, job: Job, alertAfter: int, channels: seq<Channel>)
    requires Legal(EMPTY, ops) && Configured(ops, alertAfter, channels) && Distinct(channels)
    ensures BacklogMatches(Final(EMPTY, ops).status, Final(EMPTY, ops).alerts, job, channels)
    decreases |ops|
  {
    if ops == [] {
      assert AlertChannels(EMPTY.alerts, DeliveryBacklog(job)) == {};
    } else {
      var front, op := ops[..|ops| - 1], ops[|ops| - 1];
      MatchesWithDistinctChannels(front, job, alertAfter, channels);
      BacklogStep(Final(EMPTY, front), op, job, channels);
    }
  }

  /* ---------- repeated channels ---------- */

  /** No alert row and no flag. */
  ghost predicate Quiet(status: map<Job, JobRow>, alerts: map<nat, Alert>) {
    alerts == map[] && forall j | j in status :: !status[j].failureAlertActive && !status[j].deliveryAlertActive
  }

  lemma {:induction false} EvaluationStaysQuiet(
      status: map<Job, JobRow>, alerts: map<nat, Alert>, pending: seq<Delivery>, order: seq<Job>, at: Wall,
      alertAfter: int, channels: seq<Channel>)
    requires (forall j | j in order :: j in status) && Quiet(status, alerts) && !Distinct(channels)
    ensures var r := EvaluateBacklog(status, alerts, pending, order, at, alertAfter, channels);
            r.Success? ==> Quiet(r.value.status, r.value.alerts)
  {
    if order != [] {
      EvaluationStaysQuiet(status, alerts, pending, order[..|order| - 1], at, alertAfter, channels);
    }
  }

  lemma {:induction false} FailureStaysQuiet(
      db: Db, job: Job, error: string, at: Wall, alertAfter: int, channels: seq<Channel>)
    requires !Distinct(channels) && Quiet(db.status, db.alerts)
    ensures var r := AfterFailure(db, job, error, at, alertAfter, channels);
            r.Success? ==> Quiet(r.value.0.status, r.value.0.alerts)
  {
  }

  lemma {:induction false} SuccessStaysQuiet(db: Db, job: Job, result: CheckResult, plan: Plan)
    requires Quiet(db.status, db.alerts)
    ensures Quiet(AfterSuccess(db, job, result, plan).status, AfterSuccess(db, job, result, plan).alerts)
  {
  }

  lemma {:induction false} StaysQuiet(db: Db, op: Op, channels: seq<Channel>)
    requires Applicable(db.status, op) && !Distinct(channels) && Quiet(db.status, db.alerts)
    requires op.RecordFailure? || op.RaiseBacklogAlerts? ==> op.channels == channels
    ensures Quiet(Apply(db, op).0.status, Apply(db, op).0.alerts)
  {
    match op
    case RaiseBacklogAlerts(order, at, alertAfter, _) =>
      EvaluationStaysQuiet(db.status, db.alerts, Pending(db.outbox), order, at, alertAfter, channels);
    case RecordFailure(job, error, at, alertAfter, _) => FailureStaysQuiet(db, job, error, at, alertAfter, channels);
    case RecordSuccess(job, result, plan) => SuccessStaysQuiet(db, job, result, plan);
    case _ =>
  }

  /** With a repeated channel no run ever writes an alert row or sets a flag. */
  lemma {:induction false} RepeatedChannelIsQuiet(ops: seq<Op>, alertAfter: int, channels: seq<Channel>)
    requires Legal(EMPTY, ops) && Configured(ops, alertAfter, channels) && !Distinct(channels)
    ensures Quiet(Final(EMPTY, ops).status, Final(EMPTY, ops).alerts)
    decreases |ops|
  {
    if ops != [] {
      var front, op := ops[..|ops| - 1], ops[|ops| - 1];
      RepeatedChannelIsQuiet(front, alertAfter, channels);
      StaysQuiet(Final(EMPTY, front), op, channels);
    }
  }

  /** Alert rows of backlogs match their flags in every run of one worker, whatever its channels. */
  lemma {:induction false} BacklogAlertsMatchFlags(ops: seq<Op>, job: Job, alertAfter: int, channels: seq<Channel>)
    requires Legal(EMPTY, ops) && Configured(ops, alertAfter, channels)
    ensures BacklogMatches(Final(EMPTY, ops).status, Final(EMPTY, ops).alerts, job, channels)
  {
    if Distinct(channels) {
      MatchesWithDistinctChannels(ops, job, alertAfter, channels);
    } else {
      RepeatedChannelIsQuiet(ops, alertAfter, channels);
    }
  }

  /* ---------- what the backlog flag means over a run ---------- */

  /** At the last evaluation that was not rolled back some pending delivery of the job had failed so often. */
  ghost predicate SawStuck(ops: seq<Op>, job: Job)
    requires Legal(EMPTY, ops)
    decreases |ops|
  {
    ops != [] &&
    var front, op := ops[..|ops| - 1], ops[|ops| - 1];
    var db := Final(EMPTY, front);
    if op.RaiseBacklogAlerts? && Apply(db, op).1.RaisedFor? then FailedOften(front, job, op.alertAfter)
    else SawStuck(front, job)
  }

  lemma {:induction false} UnknownJobsAreNotStuck(db: Db, job: Job, alertAfter: int)
    requires Consistent(db) && job !in db.status
    ensures !Stuck(Pending(db.outbox), job, alertAfter)
  {
    forall i | 0 <= i < |Pending(db.outbox)| ensures Pending(db.outbox)[i].job in db.status {
      PendingItem(db.outbox, i);
    }
  }

  lemma {:induction false} FlagAfterEvaluation(db: Db, op: Op, job: Job)
    requires Consistent(db) && Applicable(db.status, op) && op.RaiseBacklogAlerts? && Apply(db, op).1.RaisedFor?
    ensures Flag(Get(Apply(db, op).0.status, job), DeliveryBacklog(job))
      <==> Stuck(Pending(db.outbox), job, op.alertAfter)
  {
    var pending := Pending(db.outbox);
    if job in op.order {
      EvaluationSetsFlag(db.status, db.alerts, pending, op.order, op.at, op.alertAfter, op.channels, job);
      BackloggedMeans(pending, job, op.alertAfter);
    } else {
      UnknownJobsAreNotStuck(db, job, op.alertAfter);
    }
  }

  /** Only an evaluation that is not rolled back writes the backlog flag. */
  lemma {:induction false} FlagElseKept(db: Db, op: Op, job: Job)
    requires Applicable(db.status, op) && !(op.RaiseBacklogAlerts? && Apply(db, op).1.RaisedFor?)
    ensures Flag(Get(Apply(db, op).0.status, job), DeliveryBacklog(job))
       <==> Flag(Get(db.status, job), DeliveryBacklog(job))
  {
    if op.RecordFailure? {
      FlagElsewhere(db, op.job, op.error, op.at, op.alertAfter, op.channels, DeliveryBacklog(job));
    }
  }

  /** In every run the backlog flag says what the last evaluation saw. */
  lemma {:induction false} FlagIsLastEvaluation(ops: seq<Op>, job: Job)
    requires Legal(EMPTY, ops)
    ensures Flag(Get(Final(EMPTY, ops).status, job), DeliveryBacklog(job)) <==> SawStuck(ops, job)
    decreases |ops|
  {
    if ops != [] {
      var front, op := ops[..|ops| - 1], ops[|ops| - 1];
      var db := Final(EMPTY, front);
      FlagIsLastEvaluation(front, job);
      RunsStayConsistent(EMPTY, front);
      if op.RaiseBacklogAlerts? && Apply(db, op).1.RaisedFor? {
        FlagAfterEvaluation(db, op, job);
        StuckMeansFailedOften(front, job, op.alertAfter);
      } else {
        FlagElseKept(db, op, job);
      }
    }
  }

  /** The jobs with a delivery failed so often now but not at the last evaluation, in the order of the rows. */
  ghost function RisingEdges(ops: seq<Op>, order: seq<Job>, alertAfter: int): seq<Job>
    requires Legal(EMPTY, ops)
    decreases |order|
  {
    if order == [] then [] else
      var j := order[|order| - 1];
      RisingEdges(ops, order[..|order| - 1], alertAfter)
      + if FailedOften(ops, j, alertAfter) && !SawStuck(ops, j) then [j] else []
  }

  lemma {:induction false} NewMeansRising(ops: seq<Op>, order: seq<Job>, alertAfter: int)
    requires Legal(EMPTY, ops) && forall j | j in order :: j in Final(EMPTY, ops).status
    ensures var db := Final(EMPTY, ops);
            NewlyBacklogged(db.status, Pending(db.outbox), order, alertAfter) == RisingEdges(ops, order, alertAfter)
    decreases |order|
  {
    if order != [] {
      var db, j := Final(EMPTY, ops), order[|order| - 1];
      NewMeansRising(ops, order[..|order| - 1], alertAfter);
      assert j in order;
      BackloggedMeans(Pending(db.outbox), j, alertAfter);
      StuckMeansFailedOften(ops, j, alertAfter);
      FlagIsLastEvaluation(ops, j);
    }
  }

  lemma {:induction false} EvaluationAnswer(
      ops: seq<Op>, order: seq<Job>, at: Wall, alertAfter: int, channels: seq<Channel>)
    requires Legal(EMPTY, ops) && Lists(order, Final(EMPTY, ops).status)
    ensures var db, edges := Final(EMPTY, ops), RisingEdges(ops, order, alertAfter);
            var (after, answer) := Apply(db, RaiseBacklogAlerts(order, at, alertAfter, channels));
      && after.outbox == db.outbox
      && if Distinct(channels) || edges == [] then answer == RaisedFor(edges)
         else answer == Rejected(ConstraintViolated) && after == db
  {
    var db := Final(EMPTY, ops);
    EvaluationSucceedsIff(db.status, db.alerts, Pending(db.outbox), order, at, alertAfter, channels);
    NewMeansRising(ops, order, alertAfter);
  }

  /**
   * Backlog alerts are rising-edge exact. An evaluation raises exactly the jobs
   * that have a pending delivery with enough failed write-backs now and had none
   * at the last evaluation, and then every flag says which jobs have one. It is rolled back as a whole, leaving
   * everything as it was, exactly when there is such a job and a channel is
   * repeated.
   */
  lemma {:induction false} EvaluationIsRisingEdge(
      ops: seq<Op>, order: seq<Job>, at: Wall, alertAfter: int, channels: seq<Channel>)
    requires Legal(EMPTY, ops) && Lists(order, Final(EMPTY, ops).status)
    ensures var db, edges := Final(EMPTY, ops), RisingEdges(ops, order, alertAfter);
            var (after, answer) := Apply(db, RaiseBacklogAlerts(order, at, alertAfter, channels));
      if Distinct(channels) || edges == []
      then
        && answer == RaisedFor(edges) && after.outbox == db.outbox && after.status.Keys == db.status.Keys
        && forall j | j in db.status ::
             after.status[j].deliveryAlertActive <==> FailedOften(ops, j, alertAfter)
      else answer == Rejected(ConstraintViolated) && after == db
    ensures var after := Apply(Final(EMPTY, ops), RaiseBacklogAlerts(order, at, alertAfter, channels)).0;
      Configured(ops, alertAfter, channels) ==>
        forall j | j in after.status :: BacklogMatches(after.status, after.alerts, j, channels)
  {
    var db, op := Final(EMPTY, ops), RaiseBacklogAlerts(order, at, alertAfter, channels);
    RunsStayConsistent(EMPTY, ops);
    EvaluationAnswer(ops, order, at, alertAfter, channels);
    if Apply(db, op).1.RaisedFor? {
      FlagsAfterEvaluation(ops, op);
    }
    if Configured(ops, alertAfter, channels) {
      RowsAfterEvaluation(ops, op, alertAfter, channels);
    }
  }

  lemma {:induction false} FlagsAfterEvaluation(ops: seq<Op>, op: Op)
    requires Legal(EMPTY, ops) && Applicable(Final(EMPTY, ops).status, op)
    requires op.RaiseBacklogAlerts? && Apply(Final(EMPTY, ops), op).1.RaisedFor?
    ensures var db := Final(EMPTY, ops); Apply(db, op).0.status.Keys == db.status.Keys
    ensures var db := Final(EMPTY, ops); forall j | j in db.status ::
      Apply(db, op).0.status[j].deliveryAlertActive <==> FailedOften(ops, j, op.alertAfter)
  {
    var db := Final(EMPTY, ops);
    RunsStayConsistent(EMPTY, ops);
    forall j | j in db.status
      ensures Apply(db, op).0.status[j].deliveryAlertActive <==> FailedOften(ops, j, op.alertAfter)
    {
      FlagAfterEvaluation(db, op, j);
      StuckMeansFailedOften(ops, j, op.alertAfter);
    }
  }

  lemma {:induction false} RowsAfterEvaluation(ops: seq<Op>, op: Op, alertAfter: int, channels: seq<Channel>)
    requires Legal(EMPTY, ops) && Configured(ops, alertAfter, channels) && Applicable(Final(EMPTY, ops).status, op)
    requires op.RaiseBacklogAlerts? && op.alertAfter == alertAfter && op.channels == channels
    ensures var after := Apply(Final(EMPTY, ops), op).0;
            forall j | j in after.status :: BacklogMatches(after.status, after.alerts, j, channels)
  {
    var after := Apply(Final(EMPTY, ops), op).0;
    OneMore(EMPTY, ops, op);
    forall j | j in after.status
      ensures BacklogMatches(after.status, after.alerts, j, channels)
    {
      BacklogAlertsMatchFlags(ops + [op], j, alertAfter, channels);
    }
  }

  /* ---------- the operational outbox stays small ---------- */

  ghost function KeysOf(status: map<Job, JobRow>): set<AlertKey> {
    (set j | j in status :: CheckFailure(j)) + (set j | j in status :: DeliveryBacklog(j))
  }

  lemma {:induction false} ImageSize<A, B>(s: set<A>, t: set<B>, f: A -> B)
    requires forall b | b in t :: exists a :: a in s && f(a) == b
    ensures |t| <= |s|
    decreases s
  {
    if t != {} {
      var b :| b in t;
      var a :| a in s && f(a) == b;
      forall c | c in t - {b}
        ensures exists x :: x in s - {a} && f(x) == c
      {
        var x :| x in s && f(x) == c;
        assert x in s - {a};
      }
      ImageSize(s - {a}, t - {b}, f);
    }
  }

  lemma {:induction false} KeysSize(status: map<Job, JobRow>)
    ensures |KeysOf(status)| <= 2 * |status|
  {
    var a, b := (set j | j in status :: CheckFailure(j)), (set j | j in status :: DeliveryBacklog(j));
    ImageSize(status.Keys, a, (j: Job) => CheckFailure(j));
    ImageSize(status.Keys, b, (j: Job) => DeliveryBacklog(j));
  }

  lemma {:induction false} OneMoreBlock(rest: nat, mine: nat, n: nat, c: nat)
    requires rest <= n * c && mine <= c
    ensures rest + mine <= (n + 1) * c
  {
    OneMoreTimes(n, c);
  }

  /** The rows of each key, counted key by key. */
  lemma {:induction false} RowsPerKey(
      alerts: map<nat, Alert>, ids: set<nat>, keys: set<AlertKey>, channels: seq<Channel>)
    requires AlertsUnique(alerts) && ids <= alerts.Keys
    requires forall a | a in ids :: alerts[a].key in keys && alerts[a].channel in channels
    ensures |ids| <= |keys| * |Elements(channels)|
    decreases keys
  {
    if keys == {} {
      assert ids == {};
    } else {
      var k :| k in keys;
      var mine := set a | a in ids && alerts[a].key == k;
      RowsPerKey(alerts, ids - mine, keys - {k}, channels);
      OneRowPerChannel(alerts, mine, k, Elements(channels));
      assert |ids| == |ids - mine| + |mine| && |keys| == |keys - {k}| + 1;
      OneMoreBlock(|ids - mine|, |mine|, |keys - {k}|, |Elements(channels)|);
    }
  }

  lemma {:induction false} OneRowPerChannel(
      alerts: map<nat, Alert>, ids: set<nat>, key: AlertKey, channels: set<Channel>)
    requires AlertsUnique(alerts) && ids <= alerts.Keys
    requires forall a | a in ids :: alerts[a].key == key && alerts[a].channel in channels
    ensures |ids| <= |channels|
    decreases ids
  {
    if ids != {} {
      var a :| a in ids;
      OneRowPerChannel(alerts, ids - {a}, key, channels - {alerts[a].channel});
    }
  }

  /** At most one row per job, kind of alert and channel, over any run of one worker. */
  lemma {:induction false} AlertsAreBounded(ops: seq<Op>, alertAfter: int, channels: seq<Channel>)
    requires Legal(EMPTY, ops) && Configured(ops, alertAfter, channels) && alertAfter >= 1
    ensures |Final(EMPTY, ops).alerts| <= 2 * |Final(EMPTY, ops).status| * |channels|
  {
    if Distinct(channels) {
      BoundedWithDistinctChannels(ops, alertAfter, channels);
    } else {
      RepeatedChannelIsQuiet(ops, alertAfter, channels);
      BoundProduct(0, 2 * |Final(EMPTY, ops).status|, |channels|);
    }
  }

  lemma {:induction false} BoundedWithDistinctChannels(ops: seq<Op>, alertAfter: int, channels: seq<Channel>)
    requires Legal(EMPTY, ops) && Configured(ops, alertAfter, channels) && Settings(alertAfter, channels)
    ensures |Final(EMPTY, ops).alerts| <= 2 * |Final(EMPTY, ops).status| * |channels|
  {
    var db := Final(EMPTY, ops);
    RunsStayConsistent(EMPTY, ops);
    forall a | a in db.alerts
      ensures db.alerts[a].key in KeysOf(db.status) && db.alerts[a].channel in channels
    {
      var key := db.alerts[a].key;
      FailureEpisodes(ops, key.job, alertAfter, channels);
      BacklogAlertsMatchFlags(ops, key.job, alertAfter, channels);
      assert db.alerts[a].channel in AlertChannels(db.alerts, key);
    }
    RowsPerKey(db.alerts, db.alerts.Keys, KeysOf(db.status), channels);
    KeysSize(db.status);
    DistinctCount(channels);
    BoundProduct(|KeysOf(db.status)|, 2 * |db.status|, |channels|);
  }

  lemma {:induction false} BoundProduct(a: nat, b: nat, c: nat)
    requires a <= b
    ensures a * c <= b * c
  {
  }
}
