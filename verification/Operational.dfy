/**
 * The operational alert service, and how far its write-backs can be trusted
 * when other tasks run while an alert is being sent.
 */
module Operational {
  import opened Prelude
  import opened RowOrder
  import opened IsoTime
  import opened Snapshots
  import opened Tables
  import opened Integrity
  import opened Refinement
  import opened Runs
  import opened Backlog
  import opened Store
  import opened Dispatch

  datatype AlertEvent =
    | AlertRaised(key: AlertKey)
    | AlertDelivered(job: Job, channel: Channel)
    | AlertDeliveryFailed(job: Job, channel: Channel)

  ghost function PendingAlertIds(alerts: map<nat, Alert>): seq<nat> {
    Ascending(set a | a in alerts && alerts[a].deliveredAt.None?)
  }

  const LISTED: nat := 100

  ghost function ListedAlerts(alerts: map<nat, Alert>): seq<nat> {
    var ids := PendingAlertIds(alerts);
    if |ids| <= LISTED then ids else ids[..LISTED]
  }

  function AlertAttempt(alerts: map<nat, Alert>, id: nat, w: Weather): map<nat, Alert> {
    var r := AfterAlertAttempt(alerts, id, w(id).at, w(id).failure);
    if r.Success? then r.value else alerts
  }

  function AlertPass(alerts: map<nat, Alert>, ids: seq<nat>, w: Weather): map<nat, Alert> {
    if ids == [] then alerts else AlertAttempt(AlertPass(alerts, ids[..|ids| - 1], w), ids[|ids| - 1], w)
  }

  function OutcomeEvent(a: Alert, attempt: Attempt): AlertEvent {
    if attempt.failure.None? then AlertDelivered(a.key.job, a.channel) else AlertDeliveryFailed(a.key.job, a.channel)
  }

  function OutcomeEvents(alerts: map<nat, Alert>, ids: seq<nat>, w: Weather): seq<AlertEvent> {
    if ids == [] then [] else
      var last := ids[|ids| - 1];
      OutcomeEvents(alerts, ids[..|ids| - 1], w) + if last in alerts then [OutcomeEvent(alerts[last], w(last))] else []
  }

  function RaisedEvents(jobs: seq<Job>): seq<AlertEvent> {
    if jobs == [] then [] else RaisedEvents(jobs[..|jobs| - 1]) + [AlertRaised(DeliveryBacklog(jobs[|jobs| - 1]))]
  }

  /** Every alert after a pass: each attempted one settled once, the others untouched. */
  lemma {:induction false} AlertPassPointwise(alerts: map<nat, Alert>, ids: seq<nat>, w: Weather, n: nat)
    requires Distinct(ids) && forall i | i in ids :: i in alerts && alerts[i].deliveredAt.None?
    ensures AlertPass(alerts, ids, w).Keys == alerts.Keys
    ensures n in alerts && n !in ids ==> AlertPass(alerts, ids, w)[n] == alerts[n]
    ensures n in ids ==> AfterAlertAttempt(alerts, n, w(n).at, w(n).failure).Success?
                         && AlertPass(alerts, ids, w)[n] == AfterAlertAttempt(alerts, n, w(n).at, w(n).failure).value[n]
    ensures n in ids ==> AlertAttemptedOnce(alerts[n], AlertPass(alerts, ids, w)[n], w(n).at, w(n).failure)
  {
    if ids != [] {
      var front, last := ids[..|ids| - 1], ids[|ids| - 1];
      assert ids == front + [last] && last in ids && last !in front;
      AlertPassPointwise(alerts, front, w, n);
      AlertPassPointwise(alerts, front, w, last);
    }
  }

  lemma {:induction false} ListedAlertsFacts(alerts: map<nat, Alert>)
    ensures var ids := ListedAlerts(alerts);
      && Distinct(ids) && ids <= PendingAlertIds(alerts)
      && (forall n | n in ids :: n in alerts && alerts[n].deliveredAt.None?)
      && |ids| == if |PendingAlertIds(alerts)| < 100 then |PendingAlertIds(alerts)| else 100
  {
    forall n | n in ListedAlerts(alerts)
      ensures n in alerts && alerts[n].deliveredAt.None?
    {
      assert n in PendingAlertIds(alerts);
    }
  }

  /** A pass announces, alert by alert, whether it was delivered. */
  lemma {:induction false} EventsTellOutcomes(alerts: map<nat, Alert>, ids: seq<nat>, w: Weather, i: nat)
    requires Distinct(ids) && (forall n | n in ids :: n in alerts && alerts[n].deliveredAt.None?) && i < |ids|
    ensures |OutcomeEvents(alerts, ids, w)| == |ids|
    ensures var alert, after := alerts[ids[i]], AlertPass(alerts, ids, w);
            ids[i] in after &&
            OutcomeEvents(alerts, ids, w)[i] == if after[ids[i]].deliveredAt.Some?
              then AlertDelivered(alert.key.job, alert.channel) else AlertDeliveryFailed(alert.key.job, alert.channel)
  {
    AlertPassPointwise(alerts, ids, w, ids[i]);
    EventAt(alerts, ids, w, i);
  }

  lemma {:induction false} EventAt(alerts: map<nat, Alert>, ids: seq<nat>, w: Weather, i: nat)
    requires (forall n | n in ids :: n in alerts) && i < |ids|
    ensures |OutcomeEvents(alerts, ids, w)| == |ids|
    ensures OutcomeEvents(alerts, ids, w)[i] == OutcomeEvent(alerts[ids[i]], w(ids[i]))
  {
    var front := ids[..|ids| - 1];
    assert ids[|ids| - 1] in ids && forall n | n in front :: n in ids;
    if i < |front| { EventAt(alerts, front, w, i); }
    else if front != [] { EventAt(alerts, front, w, 0); }
  }

  /** Every raised job is announced, in the order of the jobs. */
  lemma {:induction false} RaisedAreAnnounced(jobs: seq<Job>)
    ensures |RaisedEvents(jobs)| == |jobs|
    ensures forall i | 0 <= i < |jobs| :: RaisedEvents(jobs)[i] == AlertRaised(DeliveryBacklog(jobs[i]))
  {
    if jobs != [] { RaisedAreAnnounced(jobs[..|jobs| - 1]); }
  }

  lemma {:induction false} EventAppended(start: seq<AlertEvent>, events: seq<AlertEvent>, e: AlertEvent)
    ensures (start + events) + [e] == start + (events + [e])
  {
  }

  lemma {:induction false} NextAlert(alerts: map<nat, Alert>, ids: seq<nat>, i: nat, w: Weather)
    requires i < |ids| && Distinct(ids) && forall n | n in ids :: n in alerts && alerts[n].deliveredAt.None?
    ensures var now := AlertPass(alerts, ids[..i], w);
      && ids[i] in now && now[ids[i]] == alerts[ids[i]]
      && AfterAlertAttempt(now, ids[i], w(ids[i]).at, w(ids[i]).failure) == Success(AlertPass(alerts, ids[..i + 1], w))
      && OutcomeEvents(alerts, ids[..i + 1], w) == OutcomeEvents(alerts, ids[..i], w)
        + [OutcomeEvent(alerts[ids[i]], w(ids[i]))]
  {
    AlertPassPointwise(alerts, ids[..i], w, ids[i]);
    assert ids[i] !in ids[..i] && ids[i] in ids;
    assert ids[..i + 1][..i] == ids[..i];
  }

  /** When every channel works and the backlog fits one listing, nothing stays pending. */
  lemma {:induction false} EverythingDelivered(alerts: map<nat, Alert>, w: Weather)
    requires |PendingAlertIds(alerts)| <= LISTED && forall n | n in alerts :: w(n).failure.None?
    ensures PendingAlertIds(AlertPass(alerts, ListedAlerts(alerts), w)) == []
  {
    var ids := ListedAlerts(alerts);
    var after := AlertPass(alerts, ids, w);
    ListedAlertsFacts(alerts);
    forall n | n in after
      ensures after[n].deliveredAt.Some?
    {
      AlertPassPointwise(alerts, ids, w, n);
      if n !in ids { assert n !in PendingAlertIds(alerts); }
    }
    assert (set a | a in after && after[a].deliveredAt.None?) == {};
  }

  lemma {:induction false} AlertPassKeepsConsistent(db: Db, ids: seq<nat>, w: Weather)
    requires Consistent(db)
    ensures Consistent(db.(alerts := AlertPass(db.alerts, ids, w)))
  {
    if ids != [] {
      var last := |ids| - 1;
      AlertPassKeepsConsistent(db, ids[..last], w);
      AlertAttemptKeepsConsistent(db.(alerts := AlertPass(db.alerts, ids[..last], w)), ids[last], w(ids[last]).at,
        w(ids[last]).failure);
    }
  }

  class OperationalAlertService {
    const store: SQLiteObservationStore
    var events: seq<AlertEvent>

    constructor (store: SQLiteObservationStore)
      ensures this.store == store && events == []
    {
      this.store := store;
      events := [];
    }

    method DispatchPending(w: Weather)
      requires store.Valid()
      modifies store`alerts, this`events
      ensures store.Valid()
      ensures store.alerts == AlertPass(old(store.alerts), ListedAlerts(old(store.alerts)), w)
      ensures events == old(events) + OutcomeEvents(old(store.alerts), ListedAlerts(old(store.alerts)), w)
    {
      AlertPassKeepsConsistent(store.Tables(), ListedAlerts(store.alerts), w);
      AttemptAll(w);
    }

    method ListPending() returns (listed: seq<nat>)
      ensures listed == ListedAlerts(store.alerts)
    {
      listed := OrderedById(set a | a in store.alerts && store.alerts[a].deliveredAt.None?);
      if |listed| > LISTED { listed := listed[..LISTED]; }
    }

    method AttemptAll(w: Weather)
      modifies store`alerts, this`events
      ensures store.alerts == AlertPass(old(store.alerts), ListedAlerts(old(store.alerts)), w)
      ensures events == old(events) + OutcomeEvents(old(store.alerts), ListedAlerts(old(store.alerts)), w)
    {
      ghost var before, start := store.alerts, events;
      var listed := ListPending();
      ListedAlertsFacts(before);
      for i := 0 to |listed|
        invariant store.alerts == AlertPass(before, listed[..i], w)
        invariant events == start + OutcomeEvents(before, listed[..i], w)
      {
        NextAlert(before, listed, i, w);
        var id := listed[i];
        var alert, attempt := store.alerts[id], w(id);
        var outcome := store.UpdateOperationalAlert(id, attempt.at, attempt.failure);
        events := events + [OutcomeEvent(alert, attempt)];
        EventAppended(start, OutcomeEvents(before, listed[..i], w), OutcomeEvent(alert, attempt));
      }
      assert listed[..|listed|] == listed;
    }

    /** Records a terminal failure, announces a raised alert, then dispatches. */
    method CheckFailed(job: Job, error: string, failedAt: Wall, alertAfter: int, channels: seq<Channel>, w: Weather)
      returns (r: Result<(), StoreError>)
      requires store.Valid()
      modifies store, this`events
      ensures store.Valid()
      ensures var (recorded, answer) := Apply(old(store.Tables()),
        RecordFailure(job, error, failedAt, alertAfter, channels));
        if answer.Rejected?
        then r == Failure(answer.reason) && store.Tables() == old(store.Tables()) && events == old(events)
        else
          && r.Success? && answer.Raised?
          && store.Tables() == recorded.(alerts := AlertPass(recorded.alerts, ListedAlerts(recorded.alerts), w))
          && events == old(events) + (if answer.raised then [AlertRaised(CheckFailure(job))] else [])
                       + OutcomeEvents(recorded.alerts, ListedAlerts(recorded.alerts), w)
    {
      var raised := store.RecordCheckFailure(job, error, failedAt, alertAfter, channels);
      if raised.Failure? {
        return Failure(raised.error);
      }
      if raised.value {
        events := events + [AlertRaised(CheckFailure(job))];
      }
      DispatchPending(w);
      return Success(());
    }

    method Announce(jobs: seq<Job>)
      modifies this`events
      ensures events == old(events) + RaisedEvents(jobs)
    {
      ghost var start := events;
      for i := 0 to |jobs|
        invariant events == start + RaisedEvents(jobs[..i])
      {
        assert jobs[..i + 1][..i] == jobs[..i];
        events := events + [AlertRaised(DeliveryBacklog(jobs[i]))];
        assert events == start + (RaisedEvents(jobs[..i]) + [AlertRaised(DeliveryBacklog(jobs[i]))]);
      }
      assert jobs[..|jobs|] == jobs;
    }

    /** Evaluates every job's backlog, announces the newly raised ones in order, then dispatches. */
    method EvaluateBacklogs(at: Wall, alertAfter: int, channels: seq<Channel>, w: Weather)
      returns (r: Result<(), StoreError>, ghost order: seq<Job>)
      requires store.Valid()
      modifies store, this`events
      ensures store.Valid()
      ensures Lists(order, old(store.status))
      ensures var (evaluated, answer) := Apply(old(store.Tables()),
        RaiseBacklogAlerts(order, at, alertAfter, channels));
        if answer.Rejected?
        then r == Failure(answer.reason) && store.Tables() == old(store.Tables()) && events == old(events)
        else
          && r.Success? && answer.RaisedFor?
          && store.Tables() == evaluated.(alerts := AlertPass(evaluated.alerts, ListedAlerts(evaluated.alerts), w))
          && events == old(events) + RaisedEvents(answer.jobs)
                       + OutcomeEvents(evaluated.alerts, ListedAlerts(evaluated.alerts), w)
    {
      var raised;
      raised, order := store.RaiseDeliveryBacklogAlerts(at, alertAfter, channels);
      if raised.Failure? {
        return Failure(raised.error), order;
      }
      Announce(raised.value);
      DispatchPending(w);
      return Success(()), order;
    }
  }

  /* ---------- alerts withdrawn while they are being sent ---------- */

  /** The call will delete the alert rows of this key: read off the call and the tables before it. */
  ghost predicate Withdraws(db: Db, op: Op, key: AlertKey)
    requires Applicable(db.status, op)
  {
    match key
    case CheckFailure(job) => IsRecording(op, job)
    case DeliveryBacklog(job) =>
      && op.RaiseBacklogAlerts? && job in op.order && !Backlogged(Pending(db.outbox), job, op.alertAfter)
      && (Distinct(op.channels) || NewlyBacklogged(db.status, Pending(db.outbox), op.order, op.alertAfter) == [])
  }

  ghost predicate SameAlert(alerts: map<nat, Alert>, id: nat, listed: Alert) {
    id in alerts && alerts[id].(attempts := listed.attempts, lastError := listed.lastError,
      deliveredAt := listed.deliveredAt) == listed
  }

  ghost predicate OtherKey(alerts: map<nat, Alert>, id: nat, key: AlertKey) {
    id in alerts ==> alerts[id].key != key
  }

  lemma {:induction false} EvaluationOnAlert(
      status: map<Job, JobRow>, alerts: map<nat, Alert>, pending: seq<Delivery>, order: seq<Job>, at: Wall,
      alertAfter: int, channels: seq<Channel>, id: nat)
    requires Distinct(order) && (forall j | j in order :: j in status) && HealthConsistent(status, alerts)
      && id in alerts
    requires EvaluateBacklog(status, alerts, pending, order, at, alertAfter, channels).Success?
    ensures var after := EvaluateBacklog(status, alerts, pending, order, at, alertAfter, channels).value.alerts;
            var key := alerts[id].key;
            if key.DeliveryBacklog? && key.job in order && !Backlogged(pending, key.job, alertAfter)
            then OtherKey(after, id, key)
            else id in after && after[id] == alerts[id]
  {
    if order != [] {
      var front, j := order[..|order| - 1], order[|order| - 1];
      assert order == front + [j] && j in order && j !in front;
      EvaluationOnAlert(status, alerts, pending, front, at, alertAfter, channels, id);
      var h := EvaluateBacklog(status, alerts, pending, front, at, alertAfter, channels).value;
      EvaluationUntouched(status, alerts, pending, front, at, alertAfter, channels, j);
      EvaluateJobOnAlert(h, pending, j, at, alertAfter, channels, id, alerts[id].key);
      assert Active(status[alerts[id].key.job], alerts[id].key);
    }
  }

  lemma {:induction false} EvaluateJobOnAlert(
      h: Health, pending: seq<Delivery>, job: Job, at: Wall, alertAfter: int, channels: seq<Channel>, id: nat,
      key: AlertKey)
    requires job in h.status && EvaluateJob(h, pending, job, at, alertAfter, channels).Success?
    ensures var after := EvaluateJob(h, pending, job, at, alertAfter, channels).value.alerts;
            var cleared := !Backlogged(pending, job, alertAfter) && h.status[job].deliveryAlertActive;
      && (key != DeliveryBacklog(job) && OtherKey(h.alerts, id, key) ==> OtherKey(after, id, key))
      && (key == DeliveryBacklog(job) && cleared ==> OtherKey(after, id, key))
      && (id in h.alerts && !(h.alerts[id].key == DeliveryBacklog(job) && cleared)
        ==> id in after && after[id] == h.alerts[id])
  {
    var rows := NewAlerts(DeliveryBacklog(job), Backlog(CountFor(pending, job), MaxAttempts(pending, job)), at,
      channels);
    AppendedRow(h.alerts, rows, id);
  }

  lemma {:induction false} FailureOnAlert(
      db: Db, job: Job, error: string, at: Wall, alertAfter: int, channels: seq<Channel>, id: nat)
    requires id in db.alerts
    ensures var r := AfterFailure(db, job, error, at, alertAfter, channels);
            r.Success? ==> id in r.value.0.alerts && r.value.0.alerts[id] == db.alerts[id]
  {
    var row := FailureRow(Get(db.status, job), error, at);
    AppendedRow(db.alerts,
      NewAlerts(CheckFailure(job), Failures(row.consecutiveFailures, Truncate(error, 1000)), at, channels), id);
  }

  ghost predicate KeepsMeaning(db: Db, op: Op, id: nat)
    requires Applicable(db.status, op) && id in db.alerts
  {
    SameAlert(Apply(db, op).0.alerts, id, db.alerts[id])
  }

  lemma {:induction false} BacklogOnAlert(db: Db, op: Op, id: nat)
    requires Consistent(db) && Applicable(db.status, op) && id in db.alerts && op.RaiseBacklogAlerts?
    ensures KeepsMeaning(db, op, id) <==> !Withdraws(db, op, db.alerts[id].key)
  {
    var r := EvaluateBacklog(db.status, db.alerts, Pending(db.outbox), op.order, op.at, op.alertAfter, op.channels);
    EvaluationSucceedsIff(db.status, db.alerts, Pending(db.outbox), op.order, op.at, op.alertAfter, op.channels);
    if r.Success? {
      EvaluationOnAlert(db.status, db.alerts, Pending(db.outbox), op.order, op.at, op.alertAfter, op.channels, id);
    }
  }

  lemma {:induction false} SuccessOnAlert(db: Db, op: Op, id: nat)
    requires Applicable(db.status, op) && id in db.alerts && op.RecordSuccess?
    ensures KeepsMeaning(db, op, id) <==> !Withdraws(db, op, db.alerts[id].key)
  {
  }

  lemma {:induction false} OtherOnAlert(db: Db, op: Op, id: nat)
    requires Applicable(db.status, op) && id in db.alerts
    requires !op.RecordSuccess? && !op.RecordFailure? && !op.RaiseBacklogAlerts?
    ensures KeepsMeaning(db, op, id)
  {
  }

  /**
   * While an alert is being sent, one store call leaves its row id meaning the
   * same alert exactly when the call does not withdraw that alert. (The
   * condition can be read off the call and the tables beforehand.)
   */
  lemma {:induction false} IdKeepsMeaningIffNotWithdrawn(db: Db, op: Op, id: nat)
    requires Consistent(db) && Applicable(db.status, op) && id in db.alerts
    ensures KeepsMeaning(db, op, id) <==> !Withdraws(db, op, db.alerts[id].key)
  {
    match op
    case RecordSuccess(_, _, _) => SuccessOnAlert(db, op, id);
    case RecordFailure(job, error, at, alertAfter, channels) =>
      FailureOnAlert(db, job, error, at, alertAfter, channels, id);
    case RaiseBacklogAlerts(_, _, _, _) => BacklogOnAlert(db, op, id);
    case _ => OtherOnAlert(db, op, id);
  }

  /** No call of the run withdraws the alert. */
  ghost predicate NeverWithdrawn(db: Db, ops: seq<Op>, key: AlertKey)
    requires Legal(db, ops)
    decreases |ops|
  {
    ops != [] ==> NeverWithdrawn(db, ops[..|ops| - 1], key)
                  && !Withdraws(Final(db, ops[..|ops| - 1]), ops[|ops| - 1], key)
  }

  /** So an alert that is not withdrawn meanwhile can be written back safely after any calls. */
  lemma {:induction false} UndisturbedAlertKeepsItsId(db: Db, ops: seq<Op>, id: nat)
    requires Consistent(db) && Legal(db, ops) && id in db.alerts && NeverWithdrawn(db, ops, db.alerts[id].key)
    ensures SameAlert(Final(db, ops).alerts, id, db.alerts[id])
    decreases |ops|
  {
    if ops != [] {
      var front, op := ops[..|ops| - 1], ops[|ops| - 1];
      UndisturbedAlertKeepsItsId(db, front, id);
      RunsStayConsistent(db, front);
      IdKeepsMeaningIffNotWithdrawn(Final(db, front), op, id);
    }
  }

  /**
   * Otherwise the write-back can hit another alert. Job `a` raises an alert; while
   * it is being sent, `a` succeeds, which deletes the row, and `b` raises an alert,
   * which reuses the id. Writing back the outcome of `a` then marks the alert of
   * `b` delivered, although nothing was ever sent for it.
   */
  lemma {:induction false} StaleIdMarksAnotherAlert(
      a: Job, b: Job, result: CheckResult, plan: Plan, channel: Channel, at: Wall)
    requires a != b && UniqueIds(result.opportunities) && Storable(result.opportunities)
    ensures var db1 := Apply(EMPTY, RecordFailure(a, "", at, 1, [channel])).0;
            var db2 := Apply(db1, RecordSuccess(a, result, plan)).0;
            var db3 := Apply(db2, RecordFailure(b, "", at, 1, [channel])).0;
            var (db4, answer) := Apply(db3, SettleAlert(1, at, None));
      && 1 in db1.alerts && db1.alerts[1].key == CheckFailure(a) && db1.alerts[1].deliveredAt.None?
      && 1 in db3.alerts && db3.alerts[1].key == CheckFailure(b) && db3.alerts[1].deliveredAt.None?
      && answer == Done && 1 in db4.alerts && db4.alerts[1].key == CheckFailure(b)
        && db4.alerts[1].deliveredAt == Some(at)
  {
    var db1 := Apply(EMPTY, RecordFailure(a, "", at, 1, [channel])).0;
    FirstAlert(a, at, channel);
    assert AfterFailure(EMPTY, a, "", at, 1, [channel]).Success?;
    var db2 := Apply(db1, RecordSuccess(a, result, plan)).0;
    assert db2.alerts == map[];
    assert b !in db2.status;
    FirstAlert(b, at, channel);
  }

  lemma {:induction false} FirstAlert(job: Job, at: Wall, channel: Channel)
    ensures var rows := NewAlerts(CheckFailure(job), Failures(1, Truncate("", 1000)), at, [channel]);
            var none: map<nat, Alert> := map[];
            Append(none, rows) == map[1 := Alert(CheckFailure(job), channel, Failures(1, ""), at, 0, None, None)]
  {
    var none: map<nat, Alert> := map[];
    var row := Alert(CheckFailure(job), channel, Failures(1, ""), at, 0, None, None);
    assert NewAlerts(CheckFailure(job), Failures(1, ""), at, [channel]) == [] + [row];
    assert none.Keys == {};
    assert NextId(none.Keys) == 1;
    AppendOne(none, [], row);
  }
}
