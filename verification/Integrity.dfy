/**
 * Every transaction keeps the tables consistent: references resolve, UNIQUE
 * and PRIMARY KEY constraints hold even though ids are reused after pruning,
 * and alert rows exist only under their job's flag.
 */
module Integrity {
  import opened Prelude
  import opened RowOrder
  import opened IsoTime
  import opened Snapshots
  import opened Tables

  /* ---------- record_success ---------- */

  ghost predicate HealthConsistent(status: map<Job, JobRow>, alerts: map<nat, Alert>) {
    AlertsUnique(alerts) && AlertsFlagged(status, alerts)
  }

  /** No (transition, channel) pair twice. */
  ghost predicate OncePerChannel(es: seq<(nat, Delivery)>) {
    forall i, j :: 0 <= i < j < |es| && es[i].0 == es[j].0 ==> es[i].1.channel != es[j].1.channel
  }

  lemma {:induction false} EnqueuedOwners(job: Job, at: Wall, ts: seq<Transition>, plan: Plan)
    ensures forall e | e in Enqueued(job, at, ts, plan) :: e.0 < |ts| && e.1.job == job
  {
    if ts != [] { EnqueuedOwners(job, at, ts[..|ts| - 1], plan); }
  }

  lemma {:induction false} EnqueuedOnce(job: Job, at: Wall, ts: seq<Transition>, plan: Plan)
    ensures OncePerChannel(Enqueued(job, at, ts, plan))
  {
    if ts != [] {
      var last := |ts| - 1;
      EnqueuedOnce(job, at, ts[..last], plan);
      EnqueuedOwners(job, at, ts[..last], plan);
      OnceAppended(Enqueued(job, at, ts[..last], plan), job, at, last, ts[last], plan);
    }
  }

  lemma {:induction false} OnceAppended(
      before: seq<(nat, Delivery)>, job: Job, at: Wall, last: nat, t: Transition, plan: Plan)
    requires OncePerChannel(before) && forall e | e in before :: e.0 < last
    ensures OncePerChannel(before + Fanout(last, job, at, t, plan))
  {
    var step := Fanout(last, job, at, t, plan);
    var es := before + step;
    assert forall i | 0 <= i < |before| :: es[i] == before[i] && before[i] in before;
    forall i, j | 0 <= i < j < |es| && es[i].0 == es[j].0
      ensures es[i].1.channel != es[j].1.channel
    {
      if |before| <= j {
        var c, d := i - |before|, j - |before|;
        assert es[j] == step[d];
        assert c < 0 || plan.channels[c] != plan.channels[d];
      }
    }
  }

  lemma {:induction false} SnapshotKeepsUnique(
      observations: map<(nat, nat), Opportunity>, run: nat, s: seq<Opportunity>)
    requires forall k, l | k in observations && l in observations && k.0 == l.0 && k != l ::
               observations[k].id != observations[l].id
    requires (forall k | k in observations :: k.0 != run) && UniqueIds(s)
    ensures var after := WithSnapshot(observations, run, s);
            forall k, l | k in after && l in after && k.0 == l.0 && k != l :: after[k].id != after[l].id
  {
    var after := WithSnapshot(observations, run, s);
    SnapshotRows(observations, run, s);
    forall k, l | k in after && l in after && k.0 == l.0 && k != l
      ensures after[k].id != after[l].id
    {
      if k.0 == run {
        assert k.1 != l.1;
        assert after[k] == s[k.1] && after[l] == s[l.1];
      } else {
        assert after[k] == observations[k] && after[l] == observations[l];
      }
    }
  }

  lemma {:induction false} NewRowsKeepOutboxUnique(outbox: map<nat, Notification>, t0: nat, es: seq<(nat, Delivery)>)
    requires OutboxUnique(outbox) && OncePerChannel(es)
    requires forall n | n in outbox :: outbox[n].transition < t0
    ensures OutboxUnique(Append(outbox, NewNotifications(t0, es)))
  {
    var rows := NewNotifications(t0, es);
    forall i, j | 0 <= i < j < |rows| && rows[i].transition == rows[j].transition
      ensures rows[i].item.channel != rows[j].item.channel
    {
      assert es[i].0 == es[j].0;
    }
    AppendKeepsOutboxUnique(outbox, t0, rows);
  }

  lemma {:induction false} AppendKeepsOutboxUnique(outbox: map<nat, Notification>, t0: nat, rows: seq<Notification>)
    requires OutboxUnique(outbox)
    requires forall n | n in outbox :: outbox[n].transition < t0
    requires forall i | 0 <= i < |rows| :: rows[i].transition >= t0
    requires forall i, j :: 0 <= i < j < |rows| && rows[i].transition == rows[j].transition ==>
               rows[i].item.channel != rows[j].item.channel
    ensures OutboxUnique(Append(outbox, rows))
  {
    var base, after := NextId(outbox.Keys), Append(outbox, rows);
    AppendedRows(outbox, rows);
    forall a, b | a in after && b in after && a < b && after[a].transition == after[b].transition
      ensures after[a].item.channel != after[b].item.channel
    {
      if b !in outbox { assert after[b] == rows[b - base]; }
      if a !in outbox { assert after[a] == rows[a - base]; }
    }
  }

  lemma {:induction false} SuccessKeepsTransitionsOwned(db: Db, runs: map<nat, Run>, run: nat, ts: seq<Transition>)
    requires TransitionsOwned(db) && run in runs && db.runs.Keys <= runs.Keys
    ensures var transitions := Append(db.transitions, NewTransitions(run, ts));
            forall t | t in transitions :: transitions[t].run in runs
  {
    var t0, rows := NextId(db.transitions.Keys), NewTransitions(run, ts);
    var transitions := Append(db.transitions, rows);
    AppendedRows(db.transitions, rows);
    forall t | t in transitions
      ensures transitions[t].run in runs
    {
      if t !in db.transitions { assert transitions[t] == rows[t - t0]; }
    }
  }

  lemma {:induction false} NewNotificationOwned(db: Db, run: nat, ts: seq<Transition>, es: seq<(nat, Delivery)>, n: nat)
    requires n in Append(db.outbox, NewNotifications(NextId(db.transitions.Keys), es)) && n !in db.outbox
    requires forall e | e in es :: e.0 < |ts|
    ensures var row := Append(db.outbox, NewNotifications(NextId(db.transitions.Keys), es))[n];
            var transitions := Append(db.transitions, NewTransitions(run, ts));
      && row.transition in transitions && transitions[row.transition].run == run
      && exists e :: e in es && row.item == e.1
  {
    var t0, n0 := NextId(db.transitions.Keys), NextId(db.outbox.Keys);
    AppendedRows(db.outbox, NewNotifications(t0, es));
    AppendedRows(db.transitions, NewTransitions(run, ts));
    var e := es[n - n0];
    assert e in es;
    assert NewNotifications(t0, es)[n - n0] == NewNotification(t0, e);
    assert NewTransitions(run, ts)[e.0].run == run;
    assert t0 + e.0 in Append(db.transitions, NewTransitions(run, ts));
  }

  lemma {:induction false} SuccessKeepsOutboxOwned(
      db: Db, after: Db, run: nat, job: Job, ts: seq<Transition>, es: seq<(nat, Delivery)>)
    requires TransitionsOwned(db) && OutboxOwned(db) && TransitionsOwned(after)
    requires run !in db.runs && run in after.runs && after.runs[run].job == job
    requires forall r | r in db.runs :: r in after.runs && after.runs[r] == db.runs[r]
    requires forall e | e in es :: e.0 < |ts| && e.1.job == job
    requires after.transitions == Append(db.transitions, NewTransitions(run, ts))
    requires after.outbox == Append(db.outbox, NewNotifications(NextId(db.transitions.Keys), es))
    ensures OutboxOwned(after)
  {
    AppendedRows(db.outbox, NewNotifications(NextId(db.transitions.Keys), es));
    AppendedRows(db.transitions, NewTransitions(run, ts));
    forall n | n in after.outbox
      ensures after.outbox[n].transition in after.transitions
      ensures after.runs[after.transitions[after.outbox[n].transition].run].job == after.outbox[n].item.job
    {
      if n !in db.outbox { NewNotificationOwned(db, run, ts, es, n); }
    }
  }

  lemma {:induction false} SuccessKeepsOutbox(db: Db, job: Job, result: CheckResult, plan: Plan)
    requires Consistent(db)
    ensures var after := AfterSuccess(db, job, result, plan);
            TransitionsOwned(after) && OutboxOwned(after) && OutboxUnique(after.outbox)
  {
    var after := AfterSuccess(db, job, result, plan);
    var run := NextId(db.runs.Keys);
    var ts := TransitionsSince(Latest(db, job), result);
    var es := Enqueued(job, result.checkedAt, ts, plan);
    EnqueuedOwners(job, result.checkedAt, ts, plan);
    EnqueuedOnce(job, result.checkedAt, ts, plan);
    NewRowsKeepOutboxUnique(db.outbox, NextId(db.transitions.Keys), es);
    SuccessKeepsTransitionsOwned(db, after.runs, run, ts);
    SuccessKeepsOutboxOwned(db, after, run, job, ts, es);
  }

  lemma {:induction false} SuccessKeepsHealth(status: map<Job, JobRow>, alerts: map<nat, Alert>, job: Job, at: Wall)
    requires HealthConsistent(status, alerts)
    ensures HealthConsistent(status[job := SuccessRow(Get(status, job), at)], WithoutKey(alerts, CheckFailure(job)))
  {
  }

  lemma {:induction false} SnapshotKeepsOwned(db: Db, run: nat, s: seq<Opportunity>)
    requires ObservationsOwned(db)
    ensures forall k | k in WithSnapshot(db.observations, run, s) :: k.0 in db.runs || k.0 == run
  {
    SnapshotRows(db.observations, run, s);
  }

  lemma {:induction false} SuccessKeepsSnapshots(db: Db, after: Db, job: Job, at: Wall, s: seq<Opportunity>)
    requires RunsTracked(db) && ObservationsOwned(db) && ObservationsUnique(db) && UniqueIds(s)
    requires after.runs == db.runs[NextId(db.runs.Keys) := Run(job, at)]
    requires after.observations == WithSnapshot(db.observations, NextId(db.runs.Keys), s)
    requires after.status.Keys == db.status.Keys + {job}
    ensures RunsTracked(after) && ObservationsOwned(after) && ObservationsUnique(after)
  {
    SnapshotKeepsOwned(db, NextId(db.runs.Keys), s);
    SnapshotKeepsUnique(db.observations, NextId(db.runs.Keys), s);
  }

  lemma {:induction false} SuccessKeepsConsistent(db: Db, job: Job, result: CheckResult, plan: Plan)
    requires Consistent(db) && UniqueIds(result.opportunities)
    ensures Consistent(AfterSuccess(db, job, result, plan))
  {
    var after := AfterSuccess(db, job, result, plan);
    SuccessKeepsSnapshots(db, after, job, result.checkedAt, result.opportunities);
    SuccessKeepsOutbox(db, job, result, plan);
    SuccessKeepsHealth(db.status, db.alerts, job, result.checkedAt);
  }

  /* ---------- operational alerts ---------- */

  lemma {:induction false} NewAlertsKeepUnique(
      alerts: map<nat, Alert>, key: AlertKey, detail: AlertDetail, at: Wall, channels: seq<Channel>)
    requires AlertsUnique(alerts) && Distinct(channels)
    requires forall a | a in alerts :: alerts[a].key != key
    ensures AlertsUnique(Append(alerts, NewAlerts(key, detail, at, channels)))
    ensures var after := Append(alerts, NewAlerts(key, detail, at, channels));
            forall a | a in after :: if a in alerts then after[a] == alerts[a] else after[a].key == key
  {
    var base, rows := NextId(alerts.Keys), NewAlerts(key, detail, at, channels);
    var after := Append(alerts, rows);
    AppendedRows(alerts, rows);
    forall a | a in after && a !in alerts
      ensures base <= a < base + |rows| && after[a] == rows[a - base]
    {
    }
  }

  lemma {:induction false} FailureKeepsConsistent(
      db: Db, job: Job, error: string, at: Wall, alertAfter: int, channels: seq<Channel>)
    requires Consistent(db)
    ensures var r := AfterFailure(db, job, error, at, alertAfter, channels);
            r.Success? ==> Consistent(r.value.0)
  {
    var row := FailureRow(Get(db.status, job), error, at);
    if Raises(row, alertAfter) && Distinct(channels) {
      NewAlertsKeepUnique(db.alerts, CheckFailure(job), Failures(row.consecutiveFailures, Truncate(error, 1000)), at,
        channels);
    }
  }

  lemma {:induction false} EvaluateJobKeeps(
      h: Health, pending: seq<Delivery>, job: Job, at: Wall, alertAfter: int, channels: seq<Channel>)
    requires job in h.status && HealthConsistent(h.status, h.alerts)
    ensures var r := EvaluateJob(h, pending, job, at, alertAfter, channels);
            r.Success? ==> HealthConsistent(r.value.status, r.value.alerts)
  {
    if Backlogged(pending, job, alertAfter) && !h.status[job].deliveryAlertActive && Distinct(channels) {
      NewAlertsKeepUnique(h.alerts, DeliveryBacklog(job), Backlog(CountFor(pending, job), MaxAttempts(pending, job)),
        at, channels);
    }
  }

  lemma {:induction false} BacklogKeeps(status: map<Job, JobRow>, alerts: map<nat, Alert>, pending: seq<Delivery>,
                                        order: seq<Job>, at: Wall, alertAfter: int, channels: seq<Channel>)
    requires forall j | j in order :: j in status
    requires HealthConsistent(status, alerts)
    ensures var r := EvaluateBacklog(status, alerts, pending, order, at, alertAfter, channels);
            r.Success? ==> HealthConsistent(r.value.status, r.value.alerts)
  {
    if order != [] {
      var last := |order| - 1;
      BacklogKeeps(status, alerts, pending, order[..last], at, alertAfter, channels);
      var before := EvaluateBacklog(status, alerts, pending, order[..last], at, alertAfter, channels);
      if before.Success? {
        assert order[last] in order;
        EvaluateJobKeeps(before.value, pending, order[last], at, alertAfter, channels);
      }
    }
  }

  lemma {:induction false} BacklogKeepsConsistent(
      db: Db, pending: seq<Delivery>, order: seq<Job>, at: Wall, alertAfter: int, channels: seq<Channel>)
    requires Consistent(db) && forall j | j in order :: j in db.status
    ensures var r := EvaluateBacklog(db.status, db.alerts, pending, order, at, alertAfter, channels);
            r.Success? ==> Consistent(db.(status := r.value.status, alerts := r.value.alerts))
  {
    BacklogKeeps(db.status, db.alerts, pending, order, at, alertAfter, channels);
  }

  /* ---------- delivery outcomes and prune ---------- */

  lemma {:induction false} AttemptKeepsConsistent(db: Db, id: nat, at: Wall, error: Option<string>)
    requires Consistent(db)
    ensures var r := AfterAttempt(db.outbox, id, at, error);
            r.Success? ==> Consistent(db.(outbox := r.value))
  {
  }

  lemma {:induction false} AlertAttemptKeepsConsistent(db: Db, id: nat, at: Wall, error: Option<string>)
    requires Consistent(db)
    ensures var r := AfterAlertAttempt(db.alerts, id, at, error);
            r.Success? ==> Consistent(db.(alerts := r.value))
  {
  }

  lemma {:induction false} WithoutRunsKeepsConsistent(db: Db, doomed: set<nat>)
    requires Consistent(db)
    ensures Consistent(WithoutRuns(db, doomed))
  {
    var after := WithoutRuns(db, doomed);
    assert TransitionsOwned(after);
    assert OutboxOwned(after);
  }

  lemma {:induction false} PruneKeepsConsistent(db: Db, observationsBefore: Wall, notificationsBefore: Wall)
    requires Consistent(db)
    ensures Consistent(WithoutCompleted(db, notificationsBefore))
    ensures Consistent(AfterPrune(db, observationsBefore, notificationsBefore))
  {
    var rest := WithoutCompleted(db, notificationsBefore);
    assert OutboxOwned(rest);
    WithoutRunsKeepsConsistent(rest, ExpiredRuns(rest, observationsBefore));
  }

  lemma {:induction false} ExpiredRunsAwaitNothing(db: Db, cutoff: Wall, n: nat)
    requires Consistent(db) && n in db.outbox && db.outbox[n].deliveredAt.None?
    ensures n in WithoutRuns(db, ExpiredRuns(db, cutoff)).outbox
  {
    var run := db.transitions[db.outbox[n].transition].run;
    assert AwaitsDelivery(db, run);
  }

  /** Pruning deletes no undelivered notification and no job's newest run. */
  lemma {:induction false} PruneKeepsWhatMatters(db: Db, observationsBefore: Wall, notificationsBefore: Wall)
    requires Consistent(db)
    ensures var after := AfterPrune(db, observationsBefore, notificationsBefore);
      && (forall n | n in db.outbox && n !in after.outbox :: db.outbox[n].deliveredAt.Some?)
      && (forall n | n in after.outbox :: n in db.outbox && after.outbox[n] == db.outbox[n])
      && (forall r | r in after.runs :: r in db.runs && after.runs[r] == db.runs[r])
      && (forall r | r in db.runs && r == MaxId(RunsOf(db.runs, db.runs[r].job)) :: r in after.runs)
  {
    PruneKeepsConsistent(db, observationsBefore, notificationsBefore);
    var rest := WithoutCompleted(db, notificationsBefore);
    forall n | n in db.outbox && db.outbox[n].deliveredAt.None?
      ensures n in AfterPrune(db, observationsBefore, notificationsBefore).outbox
    {
      ExpiredRunsAwaitNothing(rest, observationsBefore, n);
    }
  }

  /** Retention keeps a run that is recent, its job's newest, or still awaiting a delivery. */
  ghost predicate RetainsRun(db: Db, run: nat, observationsBefore: Wall)
    requires run in db.runs
  {
    || !Before(db.runs[run].checkedAt, observationsBefore)
    || run == MaxId(RunsOf(db.runs, db.runs[run].job))
    || AwaitsDelivery(db, run)
  }

  /** Retention keeps an undelivered row, and a delivered one that is recent and whose run it keeps. */
  ghost predicate RetainsRow(db: Db, observationsBefore: Wall, notificationsBefore: Wall, id: nat)
    requires Consistent(db)
  {
    id in db.outbox &&
    (db.outbox[id].deliveredAt.None?
     || (!Before(db.outbox[id].deliveredAt.value, notificationsBefore)
         && RetainsRun(db, db.transitions[db.outbox[id].transition].run, observationsBefore)))
  }

  lemma {:induction false} CompletedAwaitNothing(db: Db, notificationsBefore: Wall, run: nat)
    ensures AwaitsDelivery(WithoutCompleted(db, notificationsBefore), run) <==> AwaitsDelivery(db, run)
  {
    var rest := WithoutCompleted(db, notificationsBefore);
    if AwaitsDelivery(db, run) {
      var n :| n in db.outbox && db.outbox[n].deliveredAt.None?
               && db.outbox[n].transition in db.transitions && db.transitions[db.outbox[n].transition].run == run;
      assert n in rest.outbox;
    }
  }

  /** A prune keeps exactly the runs that are recent, their job's newest or still awaiting a delivery. */
  lemma {:induction false} PruneKeepsRunIff(db: Db, observationsBefore: Wall, notificationsBefore: Wall, run: nat)
    requires run in db.runs
    ensures run in AfterPrune(db, observationsBefore, notificationsBefore).runs
       <==> RetainsRun(db, run, observationsBefore)
  {
    CompletedAwaitNothing(db, notificationsBefore, run);
  }

  /** The runs that a prune deletes. */
  ghost function DeletedRuns(db: Db, observationsBefore: Wall): set<nat> {
    set r | r in db.runs && !RetainsRun(db, r, observationsBefore)
  }

  /** The notifications that its first statement deletes. */
  ghost function OldDeliveries(db: Db, notificationsBefore: Wall): set<nat> {
    set n | n in db.outbox && db.outbox[n].deliveredAt.Some?
            && Before(db.outbox[n].deliveredAt.value, notificationsBefore)
  }

  lemma {:induction false} ExpiredAreDeleted(db: Db, observationsBefore: Wall, notificationsBefore: Wall)
    ensures ExpiredRuns(WithoutCompleted(db, notificationsBefore), observationsBefore)
         == DeletedRuns(db, observationsBefore)
  {
    forall r | r in db.runs
      ensures r in ExpiredRuns(WithoutCompleted(db, notificationsBefore), observationsBefore)
         <==> !RetainsRun(db, r, observationsBefore)
    {
      CompletedAwaitNothing(db, notificationsBefore, r);
    }
  }

  ghost predicate KeepsRun(db: Db, run: nat, observationsBefore: Wall) {
    run in db.runs && RetainsRun(db, run, observationsBefore)
  }

  /** Snapshots and transitions go with their run and with nothing else, and what stays is unchanged. */
  lemma {:induction false} PruneKeepsOwnedIff(db: Db, observationsBefore: Wall, notificationsBefore: Wall)
    requires Consistent(db)
    ensures var after := AfterPrune(db, observationsBefore, notificationsBefore);
      && (forall r :: r in after.runs <==> KeepsRun(db, r, observationsBefore))
      && (forall k :: k in after.observations <==>
            k in db.observations && KeepsRun(db, k.0, observationsBefore))
      && (forall t :: t in after.transitions <==>
            t in db.transitions && KeepsRun(db, db.transitions[t].run, observationsBefore))
      && (forall r | r in after.runs :: after.runs[r] == db.runs[r])
      && (forall k | k in after.observations :: after.observations[k] == db.observations[k])
      && (forall t | t in after.transitions :: after.transitions[t] == db.transitions[t])
  {
    ExpiredAreDeleted(db, observationsBefore, notificationsBefore);
  }

  /** Which notification rows a prune keeps, read off the tables before it. */
  lemma {:induction false} PruneKeepsRowIff(db: Db, observationsBefore: Wall, notificationsBefore: Wall, id: nat)
    requires Consistent(db)
    ensures id in AfterPrune(db, observationsBefore, notificationsBefore).outbox
       <==> RetainsRow(db, observationsBefore, notificationsBefore, id)
  {
    if id in db.outbox {
      var rest, run := WithoutCompleted(db, notificationsBefore), db.transitions[db.outbox[id].transition].run;
      CompletedAwaitNothing(db, notificationsBefore, run);
      assert run in ExpiredRuns(rest, observationsBefore) <==> !RetainsRun(db, run, observationsBefore);
      if db.outbox[id].deliveredAt.None? { assert AwaitsDelivery(db, run); }
    }
  }
}
