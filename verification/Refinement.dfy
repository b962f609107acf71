/**
 * What the store looks like from outside: the last snapshot of each job, the
 * queue of undelivered notifications, job health and operational alerts. Every
 * transaction on the tables refines a step on this view, and pruning is a step
 * that does nothing.
 */
module Refinement {
  import opened Prelude
  import opened RowOrder
  import opened IsoTime
  import opened Snapshots
  import opened Tables
  import opened Integrity

  datatype View = View(
    latest: map<Job, CheckResult>, pending: seq<Delivery>, status: map<Job, JobRow>, alerts: map<nat, Alert>)

  ghost function RecordedJobs(runs: map<nat, Run>): set<Job> {
    set r | r in runs :: runs[r].job
  }

  ghost function Baselines(runs: map<nat, Run>, observations: map<(nat, nat), Opportunity>): (m: map<Job, CheckResult>)
    ensures forall j :: LatestIn(runs, observations, j) == Get(m, j)
  {
    assert forall j :: j in RecordedJobs(runs) <==> RunsOf(runs, j) != {} by {
      forall j | j in RecordedJobs(runs)
        ensures RunsOf(runs, j) != {}
      {
        var r :| r in runs && runs[r].job == j;
        assert r in RunsOf(runs, j);
      }
    }
    map j | j in RecordedJobs(runs) :: LatestIn(runs, observations, j).value
  }

  ghost function ViewOf(db: Db): View {
    View(Baselines(db.runs, db.observations), Pending(db.outbox), db.status, db.alerts)
  }

  /* ---------- operations ---------- */

  datatype Op =
    | RecordSuccess(job: Job, result: CheckResult, plan: Plan)
    | RecordFailure(job: Job, error: string, at: Wall, alertAfter: int, channels: seq<Channel>)
    | RaiseBacklogAlerts(order: seq<Job>, at: Wall, alertAfter: int, channels: seq<Channel>)
    | SettleDelivery(index: nat, at: Wall, failure: Option<string>)
    | SettleAlert(id: nat, at: Wall, failure: Option<string>)
    | Prune(observationsBefore: Wall, notificationsBefore: Wall)
    | GetLatest(job: Job)
    | ListPending(limit: int)
    | JobHealth(job: Job)

  datatype Answer =
    | Recorded(baselineCreated: bool, transitions: seq<Transition>)
    | Raised(raised: bool)
    | RaisedFor(jobs: seq<Job>)
    | Done
    | Rejected(reason: StoreError)
    | Snapshot(latest: Option<CheckResult>)
    | Deliveries(items: seq<Delivery>)
    | HealthOf(row: Option<JobRow>, availability: multiset<Availability>, pending: nat, failed: nat)

  /** Callers pass snapshots with unique ids; queries return every status row once. */
  ghost predicate Applicable(status: map<Job, JobRow>, op: Op) {
    match op
    case RecordSuccess(_, result, _) => UniqueIds(result.opportunities)
    case RaiseBacklogAlerts(order, _, _, _) => Lists(order, status)
    case _ => true
  }

  function FirstOf(items: seq<Delivery>, limit: int): seq<Delivery> {
    if limit <= 0 then [] else if limit < |items| then items[..limit] else items
  }

  function AvailabilityCounts(latest: Option<CheckResult>): multiset<Availability> {
    if latest.None? then multiset{} else
      var s := latest.value.opportunities;
      multiset(seq(|s|, i requires 0 <= i < |s| => s[i].availability))
  }

  function FailedFor(pending: seq<Delivery>, job: Job): nat {
    if pending == [] then 0 else
      var last := |pending| - 1;
      FailedFor(pending[..last], job) + if pending[last].job == job && pending[last].attempts > 0 then 1 else 0
  }

  /** The effect of one call on the tables, and what the caller is told. */
  ghost function Apply(db: Db, op: Op): (Db, Answer)
    requires Applicable(db.status, op)
  {
    match op
    case RecordSuccess(job, result, plan) =>
      if !Storable(result.opportunities) then (db, Rejected(NotSerializable))
      else (AfterSuccess(db, job, result, plan),
            Recorded(Latest(db, job).None?, TransitionsSince(Latest(db, job), result)))
    case RecordFailure(job, error, at, alertAfter, channels) =>
      var r := AfterFailure(db, job, error, at, alertAfter, channels);
      if r.Failure? then (db, Rejected(r.error)) else (r.value.0, Raised(r.value.1))
    case RaiseBacklogAlerts(order, at, alertAfter, channels) =>
      var r := EvaluateBacklog(db.status, db.alerts, Pending(db.outbox), order, at, alertAfter, channels);
      if r.Failure? then (db, Rejected(r.error))
      else (db.(status := r.value.status, alerts := r.value.alerts), RaisedFor(r.value.raised))
    case SettleDelivery(index, at, error) =>
      if index >= |PendingIds(db.outbox)| then (db, Rejected(NotPending)) else
        var r := AfterAttempt(db.outbox, PendingIds(db.outbox)[index], at, error);
        if r.Failure? then (db, Rejected(r.error)) else (db.(outbox := r.value), Done)
    case SettleAlert(id, at, error) =>
      var r := AfterAlertAttempt(db.alerts, id, at, error);
      if r.Failure? then (db, Rejected(r.error)) else (db.(alerts := r.value), Done)
    case Prune(observationsBefore, notificationsBefore) =>
      (AfterPrune(db, observationsBefore, notificationsBefore), Done)
    case GetLatest(job) => (db, Snapshot(Latest(db, job)))
    case ListPending(limit) => (db, Deliveries(FirstOf(Pending(db.outbox), limit)))
    case JobHealth(job) =>
      (db, HealthOf(Get(db.status, job), AvailabilityCounts(Latest(db, job)),
                    CountFor(Pending(db.outbox), job), FailedFor(Pending(db.outbox), job)))
  }

  function Items(es: seq<(nat, Delivery)>): (s: seq<Delivery>)
    ensures |s| == |es| && forall i | 0 <= i < |es| :: s[i] == es[i].1
  {
    seq(|es|, i requires 0 <= i < |es| => es[i].1)
  }

  /** The same call on the view: no ids, no history, and pruning changes nothing. */
  ghost function Step(v: View, op: Op): (View, Answer)
    requires Applicable(v.status, op)
  {
    match op
    case RecordSuccess(job, result, plan) =>
      if !Storable(result.opportunities) then (v, Rejected(NotSerializable)) else
        var ts := TransitionsSince(Get(v.latest, job), result);
        (View(v.latest[job := result],
              v.pending + Items(Enqueued(job, result.checkedAt, ts, plan)),
              v.status[job := SuccessRow(Get(v.status, job), result.checkedAt)],
              WithoutKey(v.alerts, CheckFailure(job))),
         Recorded(job !in v.latest, ts))
    case RecordFailure(job, error, at, alertAfter, channels) =>
      var row := FailureRow(Get(v.status, job), error, at);
      if !Raises(row, alertAfter) then (v.(status := v.status[job := row]), Raised(false))
      else if !Distinct(channels) then (v, Rejected(ConstraintViolated))
      else
        var detail := Failures(row.consecutiveFailures, Truncate(error, 1000));
        (v.(status := v.status[job := row.(failureAlertActive := true)],
            alerts := Append(v.alerts, NewAlerts(CheckFailure(job), detail, at, channels))), Raised(true))
    case RaiseBacklogAlerts(order, at, alertAfter, channels) =>
      var r := EvaluateBacklog(v.status, v.alerts, v.pending, order, at, alertAfter, channels);
      if r.Failure? then (v, Rejected(r.error))
      else (v.(status := r.value.status, alerts := r.value.alerts), RaisedFor(r.value.raised))
    case SettleDelivery(index, at, error) =>
      if index >= |v.pending| then (v, Rejected(NotPending))
      else if error.None? then (v.(pending := v.pending[..index] + v.pending[index + 1..]), Done)
      else (v.(pending := v.pending[index := SettledItem(v.pending[index], at, error)]), Done)
    case SettleAlert(id, at, error) =>
      var r := AfterAlertAttempt(v.alerts, id, at, error);
      if r.Failure? then (v, Rejected(r.error)) else (v.(alerts := r.value), Done)
    case Prune(_, _) => (v, Done)
    case GetLatest(job) => (v, Snapshot(Get(v.latest, job)))
    case ListPending(limit) => (v, Deliveries(FirstOf(v.pending, limit)))
    case JobHealth(job) =>
      (v, HealthOf(Get(v.status, job), AvailabilityCounts(Get(v.latest, job)),
                   CountFor(v.pending, job), FailedFor(v.pending, job)))
  }

  /* ---------- the pending queue ---------- */

  lemma {:induction false} PendingIdsAre(outbox: map<nat, Notification>, ids: seq<nat>)
    requires StrictlyAscending(ids)
    requires forall n :: n in ids <==> n in outbox && outbox[n].deliveredAt.None?
    ensures PendingIds(outbox) == ids
  {
    AscendingUnique(ids, set n | n in outbox && outbox[n].deliveredAt.None?);
  }

  lemma {:induction false} PendingItem(outbox: map<nat, Notification>, i: nat)
    requires i < |PendingIds(outbox)|
    ensures var id := PendingIds(outbox)[i];
            id in outbox && outbox[id].deliveredAt.None? && Pending(outbox)[i] == outbox[id].item
  {
    assert PendingIds(outbox)[i] in PendingIds(outbox);
  }

  lemma {:induction false} PendingIdsAfterInsert(
      outbox: map<nat, Notification>, rows: seq<Notification>, added: seq<nat>)
    requires forall i | 0 <= i < |rows| :: rows[i].deliveredAt.None?
    requires |added| == |rows| && forall i | 0 <= i < |rows| :: added[i] == NextId(outbox.Keys) + i
    ensures PendingIds(Append(outbox, rows)) == PendingIds(outbox) + added
  {
    var first, after, ids := NextId(outbox.Keys), Append(outbox, rows), PendingIds(outbox);
    forall n
      ensures n in ids + added <==> n in after && after[n].deliveredAt.None?
    {
      AppendedRow(outbox, rows, n);
      if n in after && n !in outbox { assert added[n - first] == n; }
    }
    assert forall i | 0 <= i < |ids| :: ids[i] in ids && ids[i] < first;
    PendingIdsAre(after, ids + added);
  }

  /** Inserted rows join the end of the queue. */
  lemma {:induction false} PendingAfterInsert(outbox: map<nat, Notification>, base: nat, es: seq<(nat, Delivery)>)
    ensures Pending(Append(outbox, NewNotifications(base, es))) == Pending(outbox) + Items(es)
  {
    var first, rows := NextId(outbox.Keys), NewNotifications(base, es);
    var after, ids := Append(outbox, rows), PendingIds(outbox);
    var added := seq(|es|, i requires 0 <= i < |es| => first + i);
    PendingIdsAfterInsert(outbox, rows, added);
    forall i | 0 <= i < |ids| + |es|
      ensures Pending(after)[i] == (Pending(outbox) + Items(es))[i]
    {
      PendingItem(after, i);
      AppendedRow(outbox, rows, PendingIds(after)[i]);
      if i < |ids| { PendingItem(outbox, i); }
    }
  }

  /** A failed attempt keeps the row's place in the queue. */
  lemma {:induction false} PendingAfterFailure(outbox: map<nat, Notification>, index: nat, at: Wall, error: string)
    requires index < |PendingIds(outbox)|
    ensures var r := AfterAttempt(outbox, PendingIds(outbox)[index], at, Some(error));
      && r.Success? && PendingIds(r.value) == PendingIds(outbox)
      && Pending(r.value) == Pending(outbox)[index := SettledItem(Pending(outbox)[index], at, Some(error))]
  {
    var ids := PendingIds(outbox);
    PendingItem(outbox, index);
    var after := AfterAttempt(outbox, ids[index], at, Some(error)).value;
    PendingIdsAre(after, ids);
    forall i | 0 <= i < |ids|
      ensures Pending(after)[i] == Pending(outbox)[index := SettledItem(Pending(outbox)[index], at, Some(error))][i]
    {
      PendingItem(after, i);
      PendingItem(outbox, i);
    }
  }

  lemma {:induction false} IdsWithoutOne(ids: seq<nat>, index: nat)
    requires StrictlyAscending(ids) && index < |ids|
    ensures var left := ids[..index] + ids[index + 1..];
            StrictlyAscending(left) && forall n :: n in left <==> n in ids && n != ids[index]
  {
    var left := ids[..index] + ids[index + 1..];
    forall n | n in ids && n != ids[index]
      ensures n in left
    {
      var k :| 0 <= k < |ids| && ids[k] == n;
      assert left[if k < index then k else k - 1] == n;
    }
  }

  /** A delivered row leaves the queue; the others keep their order. */
  lemma {:induction false} PendingAfterDelivery(outbox: map<nat, Notification>, index: nat, at: Wall)
    requires index < |PendingIds(outbox)|
    ensures var r := AfterAttempt(outbox, PendingIds(outbox)[index], at, None);
      && r.Success? && PendingIds(r.value) == PendingIds(outbox)[..index] + PendingIds(outbox)[index + 1..]
      && Pending(r.value) == Pending(outbox)[..index] + Pending(outbox)[index + 1..]
  {
    var ids := PendingIds(outbox);
    PendingItem(outbox, index);
    var after := AfterAttempt(outbox, ids[index], at, None).value;
    var left := ids[..index] + ids[index + 1..];
    IdsWithoutOne(ids, index);
    PendingIdsAre(after, left);
    ItemsWithoutOne(outbox, after, index);
  }

  lemma {:induction false} ItemMoves(outbox: map<nat, Notification>, after: map<nat, Notification>, i: nat, k: nat)
    requires i < |PendingIds(after)| && k < |PendingIds(outbox)| && PendingIds(after)[i] == PendingIds(outbox)[k]
    requires forall n | n in after && after[n].deliveredAt.None? :: n in outbox && after[n] == outbox[n]
    ensures Pending(after)[i] == Pending(outbox)[k]
  {
    PendingItem(after, i);
    PendingItem(outbox, k);
  }

  lemma {:induction false} WithoutOne<T>(p: seq<T>, q: seq<T>, index: nat)
    requires index < |p| && |q| == |p| - 1
    requires forall i | 0 <= i < |q| :: q[i] == p[if i < index then i else i + 1]
    ensures q == p[..index] + p[index + 1..]
  {
  }

  lemma {:induction false} ItemsWithoutOne(outbox: map<nat, Notification>, after: map<nat, Notification>, index: nat)
    requires index < |PendingIds(outbox)|
    requires PendingIds(after) == PendingIds(outbox)[..index] + PendingIds(outbox)[index + 1..]
    requires forall n | n in after && after[n].deliveredAt.None? :: n in outbox && after[n] == outbox[n]
    ensures Pending(after) == Pending(outbox)[..index] + Pending(outbox)[index + 1..]
  {
    forall i | 0 <= i < |Pending(after)|
      ensures Pending(after)[i] == Pending(outbox)[if i < index then i else i + 1]
    {
      ItemMoves(outbox, after, i, if i < index then i else i + 1);
    }
    WithoutOne(Pending(outbox), Pending(after), index);
  }

  /** The queue depends on the undelivered rows only. */
  lemma {:induction false} SamePending(a: map<nat, Notification>, b: map<nat, Notification>)
    requires forall n | n in a && a[n].deliveredAt.None? :: n in b && b[n] == a[n]
    requires forall n | n in b && b[n].deliveredAt.None? :: n in a && b[n] == a[n]
    ensures PendingIds(a) == PendingIds(b) && Pending(a) == Pending(b)
  {
    PendingIdsAre(a, PendingIds(b));
    forall i | 0 <= i < |PendingIds(a)|
      ensures Pending(a)[i] == Pending(b)[i]
    {
      PendingItem(a, i);
      PendingItem(b, i);
    }
  }

  /* ---------- the latest snapshots ---------- */

  lemma {:induction false} ObservedAt(observations: map<(nat, nat), Opportunity>, run: nat, i: nat)
    requires i < |Observed(observations, run)|
    ensures var p := Ascending(Positions(observations, run))[i];
            (run, p) in observations && Observed(observations, run)[i] == observations[(run, p)]
  {
    var ps := Ascending(Positions(observations, run));
    assert ps[i] in ps;
  }

  lemma {:induction false} SameObserved(a: map<(nat, nat), Opportunity>, b: map<(nat, nat), Opportunity>, run: nat)
    requires forall p: nat :: Get(a, (run, p)) == Get(b, (run, p))
    ensures Observed(a, run) == Observed(b, run)
  {
    assert forall p: nat :: (run, p) in a <==> (run, p) in b by {
      forall p: nat
        ensures (run, p) in a <==> (run, p) in b
      {
        assert Get(a, (run, p)) == Get(b, (run, p));
      }
    }
    forall p: nat
      ensures p in Positions(a, run) <==> p in Positions(b, run)
    {
      assert p in Positions(a, run) <==> (run, p) in a;
      assert p in Positions(b, run) <==> (run, p) in b;
    }
    assert Positions(a, run) == Positions(b, run);
    forall i | 0 <= i < |Observed(a, run)|
      ensures Observed(a, run)[i] == Observed(b, run)[i]
    {
      ObservedAt(a, run, i);
      ObservedAt(b, run, i);
      var p := Ascending(Positions(a, run))[i];
      assert Get(a, (run, p)) == Get(b, (run, p));
    }
  }

  /** Reading a new run by position gives back the snapshot in its own order. */
  lemma {:induction false} ObservedNew(observations: map<(nat, nat), Opportunity>, run: nat, s: seq<Opportunity>)
    requires forall k | k in observations :: k.0 != run
    ensures Observed(WithSnapshot(observations, run, s), run) == s
  {
    var obs := WithSnapshot(observations, run, s);
    SnapshotRows(observations, run, s);
    var ps := seq(|s|, i requires 0 <= i < |s| => i);
    forall p: nat
      ensures p in ps <==> p in Positions(obs, run)
    {
      assert p in Positions(obs, run) <==> (run, p) in obs;
      if p < |s| { assert ps[p] == p; }
    }
    AscendingUnique(ps, Positions(obs, run));
    forall i | 0 <= i < |s|
      ensures Observed(obs, run)[i] == s[i]
    {
      ObservedAt(obs, run, i);
    }
  }

  lemma {:induction false} LatestAfterSuccess(db: Db, job: Job, result: CheckResult, plan: Plan, j: Job)
    requires Consistent(db)
    ensures Latest(AfterSuccess(db, job, result, plan), j) == if j == job then Some(result) else Latest(db, j)
  {
    var run := NextId(db.runs.Keys);
    LatestAfterRun(db.runs, db.observations, run, job, result, j);
  }

  lemma {:induction false} LatestAfterRun(runs: map<nat, Run>, observations: map<(nat, nat), Opportunity>, run: nat,
                       job: Job, result: CheckResult, j: Job)
    requires run == NextId(runs.Keys) && forall k | k in observations :: k.0 in runs
    ensures LatestIn(runs[run := Run(job, result.checkedAt)], WithSnapshot(observations, run, result.opportunities), j)
         == if j == job then Some(result) else LatestIn(runs, observations, j)
  {
    var runs', observations' := runs[run := Run(job, result.checkedAt)],
      WithSnapshot(observations, run, result.opportunities);
    if j == job {
      assert run in RunsOf(runs', j);
      assert MaxId(RunsOf(runs', j)) == run;
      ObservedNew(observations, run, result.opportunities);
    } else {
      assert RunsOf(runs', j) == RunsOf(runs, j);
      if RunsOf(runs, j) != {} {
        SnapshotRows(observations, run, result.opportunities);
        SameObserved(observations', observations, MaxId(RunsOf(runs, j)));
      }
    }
  }

  lemma {:induction false} LatestAfterPrune(db: Db, observationsBefore: Wall, notificationsBefore: Wall, j: Job)
    requires Consistent(db)
    ensures Latest(AfterPrune(db, observationsBefore, notificationsBefore), j) == Latest(db, j)
  {
    var after := AfterPrune(db, observationsBefore, notificationsBefore);
    PruneKeepsWhatMatters(db, observationsBefore, notificationsBefore);
    var all, kept := RunsOf(db.runs, j), RunsOf(after.runs, j);
    if all == {} {
      assert kept == {};
    } else {
      var newest := MaxId(all);
      assert newest in kept && kept <= all;
      assert MaxId(kept) == newest;
      SameObserved(after.observations, db.observations, newest);
    }
  }

  lemma {:induction false} SameBaselines(a: map<Job, CheckResult>, b: map<Job, CheckResult>)
    requires forall j :: Get(a, j) == Get(b, j)
    ensures a == b
  {
    forall j
      ensures j in a <==> j in b
      ensures j in a ==> a[j] == b[j]
    {
      assert Get(a, j) == Get(b, j);
    }
  }

  /* ---------- refinement ---------- */

  ghost predicate Refines(db: Db, op: Op)
    requires Applicable(db.status, op)
  {
    && Consistent(Apply(db, op).0)
    && ViewOf(Apply(db, op).0) == Step(ViewOf(db), op).0
    && Apply(db, op).1 == Step(ViewOf(db), op).1
  }

  lemma {:induction false} BaselinesAfterSuccess(db: Db, job: Job, result: CheckResult, plan: Plan)
    requires Consistent(db)
    ensures ViewOf(AfterSuccess(db, job, result, plan)).latest == ViewOf(db).latest[job := result]
  {
    var after := AfterSuccess(db, job, result, plan);
    var old', new' := Baselines(db.runs, db.observations), Baselines(after.runs, after.observations);
    forall j
      ensures Get(new', j) == Get(old'[job := result], j)
    {
      LatestAfterSuccess(db, job, result, plan, j);
      assert Latest(after, j) == Get(new', j) && Latest(db, j) == Get(old', j);
    }
    SameBaselines(new', old'[job := result]);
  }

  lemma {:induction false} SuccessRefines(db: Db, job: Job, result: CheckResult, plan: Plan)
    requires Consistent(db) && UniqueIds(result.opportunities)
    ensures Refines(db, RecordSuccess(job, result, plan))
  {
    assert Latest(db, job) == Get(Baselines(db.runs, db.observations), job);
    if Storable(result.opportunities) {
      var ts := TransitionsSince(Latest(db, job), result);
      SuccessKeepsConsistent(db, job, result, plan);
      BaselinesAfterSuccess(db, job, result, plan);
      PendingAfterInsert(db.outbox, NextId(db.transitions.Keys), Enqueued(job, result.checkedAt, ts, plan));
    }
  }

  lemma {:induction false} PruneKeepsPending(db: Db, observationsBefore: Wall, notificationsBefore: Wall)
    requires Consistent(db)
    ensures Pending(AfterPrune(db, observationsBefore, notificationsBefore).outbox) == Pending(db.outbox)
  {
    PruneKeepsWhatMatters(db, observationsBefore, notificationsBefore);
    SamePending(AfterPrune(db, observationsBefore, notificationsBefore).outbox, db.outbox);
  }

  lemma {:induction false} PruneRefines(db: Db, observationsBefore: Wall, notificationsBefore: Wall)
    requires Consistent(db)
    ensures Refines(db, Prune(observationsBefore, notificationsBefore))
    ensures ViewOf(AfterPrune(db, observationsBefore, notificationsBefore)) == ViewOf(db)
  {
    PruneKeepsConsistent(db, observationsBefore, notificationsBefore);
    PruneKeepsPending(db, observationsBefore, notificationsBefore);
    BaselinesAfterPrune(db, observationsBefore, notificationsBefore);
  }

  lemma {:induction false} BaselinesAfterPrune(db: Db, observationsBefore: Wall, notificationsBefore: Wall)
    requires Consistent(db)
    ensures ViewOf(AfterPrune(db, observationsBefore, notificationsBefore)).latest == ViewOf(db).latest
  {
    var after := AfterPrune(db, observationsBefore, notificationsBefore);
    forall j
      ensures Get(Baselines(after.runs, after.observations), j) == Get(Baselines(db.runs, db.observations), j)
    {
      LatestAfterPrune(db, observationsBefore, notificationsBefore, j);
      assert Latest(after, j) == Get(Baselines(after.runs, after.observations), j)
        && Latest(db, j) == Get(Baselines(db.runs, db.observations), j);
    }
    SameBaselines(Baselines(after.runs, after.observations), Baselines(db.runs, db.observations));
  }

  /** The settle operations replace the outbox and nothing else. */
  lemma {:induction false} OutboxRefines(
      db: Db, index: nat, at: Wall, failure: Option<string>, outbox: map<nat, Notification>)
    requires Consistent(db.(outbox := outbox)) && index < |PendingIds(db.outbox)|
    requires AfterAttempt(db.outbox, PendingIds(db.outbox)[index], at, failure) == Success(outbox)
    requires Pending(outbox) == Step(ViewOf(db), SettleDelivery(index, at, failure)).0.pending
    ensures Refines(db, SettleDelivery(index, at, failure))
  {
    var op, after := SettleDelivery(index, at, failure), db.(outbox := outbox);
    assert Apply(db, op) == (after, Done);
    var v := ViewOf(db);
    assert |v.pending| == |PendingIds(db.outbox)|;
    assert Step(v, op) == (v.(pending := Pending(outbox)), Done);
    assert ViewOf(after) == v.(pending := Pending(outbox));
  }

  lemma {:induction false} DeliveredRefines(db: Db, index: nat, at: Wall)
    requires Consistent(db) && index < |PendingIds(db.outbox)|
    ensures Refines(db, SettleDelivery(index, at, None))
  {
    var r := AfterAttempt(db.outbox, PendingIds(db.outbox)[index], at, None);
    PendingAfterDelivery(db.outbox, index, at);
    assert Consistent(db.(outbox := r.value)) by {
      AttemptKeepsConsistent(db, PendingIds(db.outbox)[index], at, None);
    }
    OutboxRefines(db, index, at, None, r.value);
  }

  lemma {:induction false} FailedRefines(db: Db, index: nat, at: Wall, error: string)
    requires Consistent(db) && index < |PendingIds(db.outbox)|
    ensures Refines(db, SettleDelivery(index, at, Some(error)))
  {
    var r := AfterAttempt(db.outbox, PendingIds(db.outbox)[index], at, Some(error));
    PendingAfterFailure(db.outbox, index, at, error);
    assert Consistent(db.(outbox := r.value)) by {
      AttemptKeepsConsistent(db, PendingIds(db.outbox)[index], at, Some(error));
    }
    OutboxRefines(db, index, at, Some(error), r.value);
  }

  /**
   * Callers address a row by its id. Through the id of a pending row that is the
   * write-back at the row's place in the queue; any other id is rejected.
   */
  lemma {:induction false} WriteBackById(db: Db, id: nat, at: Wall, failure: Option<string>)
    ensures var r := AfterAttempt(db.outbox, id, at, failure);
      if id in PendingIds(db.outbox)
      then exists i: nat :: i < |PendingIds(db.outbox)| && PendingIds(db.outbox)[i] == id && r.Success?
             && Apply(db, SettleDelivery(i, at, failure)) == (db.(outbox := r.value), Done)
      else r == Failure(NotPending)
  {
    if id in PendingIds(db.outbox) {
      var i: nat :| i < |PendingIds(db.outbox)| && PendingIds(db.outbox)[i] == id;
      PendingItem(db.outbox, i);
      assert Apply(db, SettleDelivery(i, at, failure)).1 == Done;
    }
  }

  lemma {:induction false} SettleRefines(db: Db, index: nat, at: Wall, failure: Option<string>)
    requires Consistent(db)
    ensures Refines(db, SettleDelivery(index, at, failure))
  {
    if index < |PendingIds(db.outbox)| {
      if failure.None? { DeliveredRefines(db, index, at); }
      else { FailedRefines(db, index, at, failure.value); }
    }
  }

  /** The view shows job health and alerts as they are. */
  lemma {:induction false} HealthIsInView(db: Db, status: map<Job, JobRow>, alerts: map<nat, Alert>)
    ensures ViewOf(db.(status := status, alerts := alerts)) == ViewOf(db).(status := status, alerts := alerts)
  {
  }

  /** A failure changes job health and alerts only, and does so to the view as to the tables. */
  lemma {:induction false} FailureOnView(
      db: Db, job: Job, error: string, at: Wall, alertAfter: int, channels: seq<Channel>)
    ensures var r := AfterFailure(db, job, error, at, alertAfter, channels);
      && (r.Success? ==> r.value.0 == db.(status := r.value.0.status, alerts := r.value.0.alerts))
      && Step(ViewOf(db), RecordFailure(job, error, at, alertAfter, channels))
           == if r.Failure? then (ViewOf(db), Rejected(r.error))
              else (ViewOf(db).(status := r.value.0.status, alerts := r.value.0.alerts), Raised(r.value.1))
  {
  }

  lemma {:induction false} FailureRefines(
      db: Db, job: Job, error: string, at: Wall, alertAfter: int, channels: seq<Channel>)
    requires Consistent(db)
    ensures Refines(db, RecordFailure(job, error, at, alertAfter, channels))
  {
    FailureOnView(db, job, error, at, alertAfter, channels);
    var r := AfterFailure(db, job, error, at, alertAfter, channels);
    if r.Success? {
      FailureKeepsConsistent(db, job, error, at, alertAfter, channels);
      HealthIsInView(db, r.value.0.status, r.value.0.alerts);
    }
  }

  lemma {:induction false} BacklogRefines(db: Db, order: seq<Job>, at: Wall, alertAfter: int, channels: seq<Channel>)
    requires Consistent(db) && Lists(order, db.status)
    ensures Refines(db, RaiseBacklogAlerts(order, at, alertAfter, channels))
  {
    var r := EvaluateBacklog(db.status, db.alerts, Pending(db.outbox), order, at, alertAfter, channels);
    if r.Success? {
      BacklogKeepsConsistent(db, Pending(db.outbox), order, at, alertAfter, channels);
      HealthIsInView(db, r.value.status, r.value.alerts);
    }
  }

  lemma {:induction false} SettleAlertRefines(db: Db, id: nat, at: Wall, failure: Option<string>)
    requires Consistent(db)
    ensures Refines(db, SettleAlert(id, at, failure))
  {
    AlertAttemptKeepsConsistent(db, id, at, failure);
  }

  lemma {:induction false} QueryRefines(db: Db, op: Op)
    requires Consistent(db) && (op.GetLatest? || op.ListPending? || op.JobHealth?)
    ensures Refines(db, op)
  {
  }

  /** Every call acts on the view as `Step` says, and answers the same. */
  lemma {:induction false} ApplyRefinesStep(db: Db, op: Op)
    requires Consistent(db) && Applicable(db.status, op)
    ensures Refines(db, op)
  {
    match op
    case RecordSuccess(job, result, plan) => SuccessRefines(db, job, result, plan);
    case RecordFailure(job, error, at, alertAfter, channels) =>
      FailureRefines(db, job, error, at, alertAfter, channels);
    case RaiseBacklogAlerts(order, at, alertAfter, channels) => BacklogRefines(db, order, at, alertAfter, channels);
    case SettleDelivery(index, at, failure) => SettleRefines(db, index, at, failure);
    case SettleAlert(id, at, failure) => SettleAlertRefines(db, id, at, failure);
    case Prune(observationsBefore, notificationsBefore) => PruneRefines(db, observationsBefore, notificationsBefore);
    case GetLatest(_) => QueryRefines(db, op);
    case ListPending(_) => QueryRefines(db, op);
    case JobHealth(_) => QueryRefines(db, op);
  }

  /* ---------- whole runs ---------- */

  ghost predicate Legal(db: Db, ops: seq<Op>)
    decreases |ops|, 0
  {
    ops != [] ==> Legal(db, ops[..|ops| - 1]) && Applicable(Final(db, ops[..|ops| - 1]).status, ops[|ops| - 1])
  }

  /** The tables after a run of operations. */
  ghost function Final(db: Db, ops: seq<Op>): Db
    requires Legal(db, ops)
    decreases |ops|, 1
  {
    if ops == [] then db else Apply(Final(db, ops[..|ops| - 1]), ops[|ops| - 1]).0
  }

  /** The answers of all calls except prune, whose counts describe hidden history. */
  ghost function Answers(db: Db, ops: seq<Op>): seq<Answer>
    requires Legal(db, ops)
    decreases |ops|
  {
    if ops == [] then [] else
      var front, op := ops[..|ops| - 1], ops[|ops| - 1];
      Answers(db, front) + if op.Prune? then [] else [Apply(Final(db, front), op).1]
  }

  function WithoutPrunes(ops: seq<Op>): seq<Op> {
    if ops == [] then [] else
      WithoutPrunes(ops[..|ops| - 1]) + if ops[|ops| - 1].Prune? then [] else [ops[|ops| - 1]]
  }

  /** From a consistent store, whatever is called, the tables stay consistent. */
  lemma {:induction false} RunsStayConsistent(db: Db, ops: seq<Op>)
    requires Consistent(db) && Legal(db, ops)
    ensures Consistent(Final(db, ops))
    decreases |ops|
  {
    if ops != [] {
      var n := |ops| - 1;
      RunsStayConsistent(db, ops[..n]);
      ApplyRefinesStep(Final(db, ops[..n]), ops[n]);
    }
  }

  /** One more operation at the end of a run. */
  lemma {:induction false} OneMore(db: Db, ops: seq<Op>, op: Op)
    requires Legal(db, ops) && Applicable(Final(db, ops).status, op)
    ensures Legal(db, ops + [op])
    ensures Final(db, ops + [op]) == Apply(Final(db, ops), op).0
    ensures Answers(db, ops + [op]) == Answers(db, ops) + if op.Prune? then [] else [Apply(Final(db, ops), op).1]
  {
    assert (ops + [op])[..|ops|] == ops;
  }

  /**
   * Pruning is unobservable: two stores that look alike from outside keep
   * giving the same answers to any calls, when one of them is pruned at any
   * points with any cutoffs and the other never is.
   */
  lemma {:induction false} PruningIsUnobservable(pruned: Db, unpruned: Db, ops: seq<Op>)
    requires Consistent(pruned) && Consistent(unpruned) && ViewOf(pruned) == ViewOf(unpruned)
    requires Legal(pruned, ops)
    ensures Legal(unpruned, WithoutPrunes(ops))
    ensures Answers(pruned, ops) == Answers(unpruned, WithoutPrunes(ops))
    ensures ViewOf(Final(pruned, ops)) == ViewOf(Final(unpruned, WithoutPrunes(ops)))
    decreases |ops|
  {
    if ops != [] {
      var front, op := ops[..|ops| - 1], ops[|ops| - 1];
      PruningIsUnobservable(pruned, unpruned, front);
      RunsStayConsistent(pruned, front);
      RunsStayConsistent(unpruned, WithoutPrunes(front));
      var p, u := Final(pruned, front), Final(unpruned, WithoutPrunes(front));
      ApplyRefinesStep(p, op);
      if op.Prune? {
        assert Step(ViewOf(p), op).0 == ViewOf(p);
        assert WithoutPrunes(ops) == WithoutPrunes(front);
      } else {
        ApplyRefinesStep(u, op);
        OneMore(unpruned, WithoutPrunes(front), op);
      }
    }
  }

  /** In particular one prune of any store changes no later answer. */
  lemma {:induction false} OnePruneChangesNothing(
      db: Db, observationsBefore: Wall, notificationsBefore: Wall, ops: seq<Op>)
    requires Consistent(db) && Legal(AfterPrune(db, observationsBefore, notificationsBefore), ops)
    requires WithoutPrunes(ops) == ops
    ensures Legal(db, ops)
    ensures Answers(AfterPrune(db, observationsBefore, notificationsBefore), ops) == Answers(db, ops)
    ensures ViewOf(Final(AfterPrune(db, observationsBefore, notificationsBefore), ops)) == ViewOf(Final(db, ops))
  {
    PruneRefines(db, observationsBefore, notificationsBefore);
    PruningIsUnobservable(AfterPrune(db, observationsBefore, notificationsBefore), db, ops);
  }
}
