/**
 * The SQLite observation store. Each method is one transaction over the six
 * tables; its contract ties the tables and the answer to Refinement.Apply. An
 * INSERT demands its UNIQUE and PRIMARY KEY constraints as a precondition, so
 * verifying the callers shows that no constraint can fire.
 */
module Store {
  import opened Prelude
  import opened RowOrder
  import opened IsoTime
  import opened Snapshots
  import opened Tables
  import opened Integrity
  import opened Refinement

  datatype RecordOutcome = RecordOutcome(baselineCreated: bool, transitions: seq<Transition>)

  datatype RetentionResult = RetentionResult(checkRunsDeleted: nat, completedNotificationsDeleted: nat)

  datatype PendingNotification = PendingNotification(id: nat, item: Delivery)

  /* ---------- steps of the loops in record_success ---------- */

  lemma {:induction false} SnapshotStep(
      observations: map<(nat, nat), Opportunity>, run: nat, s: seq<Opportunity>, i: nat)
    requires i < |s|
    ensures WithSnapshot(observations, run, s[..i + 1]) == WithSnapshot(observations, run, s[..i])[(run, i) := s[i]]
  {
    assert s[..i + 1][..i] == s[..i];
  }

  /** The row about to be inserted clashes with no earlier row of the snapshot. */
  lemma {:induction false} ObservationFits(
      observations: map<(nat, nat), Opportunity>, run: nat, s: seq<Opportunity>, i: nat)
    requires i < |s| && UniqueIds(s) && forall k | k in observations :: k.0 != run
    ensures ObservationInsertable(WithSnapshot(observations, run, s[..i]), run, i, s[i])
  {
    var table := WithSnapshot(observations, run, s[..i]);
    SnapshotRows(observations, run, s[..i]);
    forall k | k in table && k.0 == run
      ensures table[k].id != s[i].id
    {
      assert table[k] == s[k.1];
    }
  }

  ghost predicate ObservationInsertable(
      observations: map<(nat, nat), Opportunity>, run: nat, position: nat, o: Opportunity)
  {
    && (run, position) !in observations
    && forall k | k in observations && k.0 == run :: observations[k].id != o.id
  }

  lemma {:induction false} NewTransitionsStep(run: nat, ts: seq<Transition>, i: nat)
    requires i < |ts|
    ensures NewTransitions(run, ts[..i + 1]) == NewTransitions(run, ts[..i]) + [NewTransition(run, ts[i])]
  {
  }

  lemma {:induction false} TransitionStep(table: map<nat, TransitionRow>, run: nat, ts: seq<Transition>, i: nat)
    requires i < |ts|
    ensures NextId(Append(table, NewTransitions(run, ts[..i])).Keys) == NextId(table.Keys) + i
    ensures Append(table, NewTransitions(run, ts[..i + 1]))
         == Append(table, NewTransitions(run, ts[..i]))[NextId(table.Keys) + i := NewTransition(run, ts[i])]
  {
    AppendOne(table, NewTransitions(run, ts[..i]), NewTransition(run, ts[i]));
    NewTransitionsStep(run, ts, i);
  }

  lemma {:induction false} NotificationStep(
      table: map<nat, Notification>, base: nat, es: seq<(nat, Delivery)>, e: (nat, Delivery))
    ensures var sofar := Append(table, NewNotifications(base, es));
            Append(table, NewNotifications(base, es + [e])) == sofar[NextId(sofar.Keys) := NewNotification(base, e)]
  {
    AppendOne(table, NewNotifications(base, es), NewNotification(base, e));
    assert NewNotifications(base, es + [e]) == NewNotifications(base, es) + [NewNotification(base, e)];
  }

  ghost predicate NotificationInsertable(outbox: map<nat, Notification>, row: Notification) {
    forall n | n in outbox && outbox[n].transition == row.transition :: outbox[n].item.channel != row.item.channel
  }

  lemma {:induction false} NotificationFits(
      outbox: map<nat, Notification>, t0: nat, es: seq<(nat, Delivery)>, e: (nat, Delivery))
    requires forall n | n in outbox :: outbox[n].transition < t0
    requires OncePerChannel(es + [e])
    ensures NotificationInsertable(Append(outbox, NewNotifications(t0, es)), NewNotification(t0, e))
  {
    var sofar, all := Append(outbox, NewNotifications(t0, es)), es + [e];
    AppendedRows(outbox, NewNotifications(t0, es));
    forall n | n in sofar && sofar[n].transition == t0 + e.0
      ensures sofar[n].item.channel != e.1.channel
    {
      assert sofar[n] == NewNotification(t0, es[n - NextId(outbox.Keys)]);
      assert all[n - NextId(outbox.Keys)].1.channel != all[|es|].1.channel;
    }
  }

  lemma {:induction false} EnqueuedStep(job: Job, at: Wall, ts: seq<Transition>, plan: Plan, i: nat)
    requires i < |ts|
    ensures Enqueued(job, at, ts[..i + 1], plan) == Enqueued(job, at, ts[..i], plan) + Fanout(i, job, at, ts[i], plan)
    ensures OncePerChannel(Enqueued(job, at, ts[..i + 1], plan))
  {
    EnqueuedOnce(job, at, ts[..i + 1], plan);
    assert ts[..i + 1][..i] == ts[..i];
  }

  lemma {:induction false} OncePrefix(es: seq<(nat, Delivery)>, c: nat)
    requires OncePerChannel(es) && c <= |es|
    ensures OncePerChannel(es[..c])
  {
    forall i, j | 0 <= i < j < c && es[..c][i].0 == es[..c][j].0
      ensures es[..c][i].1.channel != es[..c][j].1.channel
    {
      assert es[i].0 == es[j].0;
    }
  }

  ghost predicate AlertInsertable(alerts: map<nat, Alert>, row: Alert) {
    forall a | a in alerts && alerts[a].key == row.key :: alerts[a].channel != row.channel
  }

  lemma {:induction false} AlertStep(
      table: map<nat, Alert>, key: AlertKey, detail: AlertDetail, at: Wall, channels: seq<Channel>, c: nat)
    requires c < |channels|
    ensures var sofar := Append(table, NewAlerts(key, detail, at, channels[..c]));
            Append(table, NewAlerts(key, detail, at, channels[..c + 1]))
              == sofar[NextId(sofar.Keys) := Alert(key, channels[c], detail, at, 0, None, None)]
  {
    var row := Alert(key, channels[c], detail, at, 0, None, None);
    AppendOne(table, NewAlerts(key, detail, at, channels[..c]), row);
    assert NewAlerts(key, detail, at, channels[..c + 1]) == NewAlerts(key, detail, at, channels[..c]) + [row];
  }

  lemma {:induction false} DistinctStep(channels: seq<Channel>, c: nat)
    requires c < |channels| && Distinct(channels[..c])
    ensures Distinct(channels[..c + 1]) <==> channels[c] !in channels[..c]
    ensures channels[c] in channels[..c] ==> !Distinct(channels)
  {
    if channels[c] in channels[..c] {
      var i :| 0 <= i < c && channels[..c][i] == channels[c];
      assert channels[i] == channels[c];
    }
  }

  /** The UNIQUE check of the next row fails iff its channel was listed before. */
  lemma {:induction false} AlertFits(
      table: map<nat, Alert>, key: AlertKey, detail: AlertDetail, at: Wall, channels: seq<Channel>, channel: Channel)
    requires forall a | a in table :: table[a].key != key
    ensures var sofar := Append(table, NewAlerts(key, detail, at, channels));
            AlertInsertable(sofar, Alert(key, channel, detail, at, 0, None, None)) <==> channel !in channels
  {
    var rows := NewAlerts(key, detail, at, channels);
    var sofar := Append(table, rows);
    if channel in channels {
      var i :| 0 <= i < |channels| && channels[i] == channel;
      AppendedRow(table, rows, NextId(table.Keys) + i);
    } else {
      forall a | a in sofar && sofar[a].key == key
        ensures sofar[a].channel != channel
      {
        AppendedRow(table, rows, a);
      }
    }
  }

  lemma {:induction false} EvaluationFailsEarly(
      status: map<Job, JobRow>, alerts: map<nat, Alert>, pending: seq<Delivery>, order: seq<Job>, i: nat, at: Wall,
      alertAfter: int, channels: seq<Channel>)
    requires (forall j | j in order :: j in status) && i <= |order|
    requires EvaluateBacklog(status, alerts, pending, order[..i], at, alertAfter, channels).Failure?
    ensures EvaluateBacklog(status, alerts, pending, order, at, alertAfter, channels)
         == EvaluateBacklog(status, alerts, pending, order[..i], at, alertAfter, channels)
  {
    if i < |order| {
      assert order[..|order| - 1][..i] == order[..i];
      EvaluationFailsEarly(status, alerts, pending, order[..|order| - 1], i, at, alertAfter, channels);
    } else {
      assert order[..i] == order;
    }
  }

  lemma {:induction false} EvaluationStep(status: map<Job, JobRow>, alerts: map<nat, Alert>, pending: seq<Delivery>,
                       order: seq<Job>, i: nat, at: Wall, alertAfter: int, channels: seq<Channel>)
    requires (forall j | j in order :: j in status) && i < |order|
    requires EvaluateBacklog(status, alerts, pending, order[..i], at, alertAfter, channels).Success?
    ensures EvaluateBacklog(status, alerts, pending, order[..i + 1], at, alertAfter, channels)
         == EvaluateJob(EvaluateBacklog(status, alerts, pending, order[..i], at, alertAfter, channels).value,
                        pending, order[i], at, alertAfter, channels)
  {
    assert order[..i + 1][..i] == order[..i];
  }

  /** The tables hold what a recorded success leaves in them. */
  ghost predicate SuccessWritten(
      before: Db, after: Db, job: Job, result: CheckResult, plan: Plan, ts: seq<Transition>)
  {
    var run, t0 := NextId(before.runs.Keys), NextId(before.transitions.Keys);
    && after.runs == before.runs[run := Run(job, result.checkedAt)]
    && after.observations == WithSnapshot(before.observations, run, result.opportunities)
    && after.transitions == Append(before.transitions, NewTransitions(run, ts))
    && after.outbox == Append(before.outbox, NewNotifications(t0, Enqueued(job, result.checkedAt, ts, plan)))
    && after.status == before.status[job := SuccessRow(Get(before.status, job), result.checkedAt)]
    && after.alerts == WithoutKey(before.alerts, CheckFailure(job))
  }

  lemma {:induction false} WrittenIsAfterSuccess(
      before: Db, after: Db, job: Job, result: CheckResult, plan: Plan, ts: seq<Transition>)
    requires ts == TransitionsSince(Latest(before, job), result)
    requires SuccessWritten(before, after, job, result, plan, ts)
    ensures after == AfterSuccess(before, job, result, plan)
  {
  }

  lemma {:induction false} WrittenIsApplied(
      before: Db, after: Db, job: Job, result: CheckResult, plan: Plan, ts: seq<Transition>)
    requires Consistent(before) && UniqueIds(result.opportunities) && Storable(result.opportunities)
    requires ts == TransitionsSince(Latest(before, job), result)
    requires SuccessWritten(before, after, job, result, plan, ts)
    ensures Consistent(after)
    ensures Apply(before, Op.RecordSuccess(job, result, plan)) == (after, Recorded(Latest(before, job).None?, ts))
  {
    WrittenIsAfterSuccess(before, after, job, result, plan, ts);
    SuccessKeepsConsistent(before, job, result, plan);
  }

  lemma {:induction false} UnserializableIsRejected(db: Db, job: Job, result: CheckResult, plan: Plan)
    requires UniqueIds(result.opportunities) && !Storable(result.opportunities)
    ensures Apply(db, Op.RecordSuccess(job, result, plan)) == (db, Rejected(NotSerializable))
  {
  }

  /** An outcome was written back, or rejected because the row is not pending. */
  ghost predicate Written(before: map<nat, Notification>, after: map<nat, Notification>, r: Result<(), StoreError>,
                          id: nat, at: Wall, failure: Option<string>)
  {
    var settled := AfterAttempt(before, id, at, failure);
    && after == (if settled.Success? then settled.value else before)
    && r == (if settled.Success? then Success(()) else Failure(NotPending))
  }

  class SQLiteObservationStore {
    var runs: map<nat, Run>
    var observations: map<(nat, nat), Opportunity>
    var transitions: map<nat, TransitionRow>
    var outbox: map<nat, Notification>
    var status: map<Job, JobRow>
    var alerts: map<nat, Alert>

    ghost function Tables(): Db
      reads this
    {
      Db(runs, observations, transitions, outbox, status, alerts)
    }

    ghost predicate Valid()
      reads this
    {
      Consistent(Tables())
    }

    constructor ()
      ensures Valid() && Tables() == EMPTY
    {
      runs, observations, transitions := map[], map[], map[];
      outbox, status, alerts := map[], map[], map[];
    }

    /* ----- single statements ----- */

    method InsertObservation(run: nat, position: nat, o: Opportunity)
      requires ObservationInsertable(observations, run, position, o) && run in runs
      modifies this`observations
      ensures observations == old(observations)[(run, position) := o]
    {
      observations := observations[(run, position) := o];
    }

    method InsertTransition(row: TransitionRow) returns (id: nat)
      requires row.run in runs
      modifies this`transitions
      ensures id == NextId(old(transitions).Keys) && transitions == old(transitions)[id := row]
    {
      id := FreshRowId(transitions.Keys);
      transitions := transitions[id := row];
    }

    method InsertNotification(row: Notification)
      requires NotificationInsertable(outbox, row) && row.transition in transitions
      modifies this`outbox
      ensures outbox == old(outbox)[NextId(old(outbox).Keys) := row]
    {
      var id := FreshRowId(outbox.Keys);
      outbox := outbox[id := row];
    }

    /* ----- snapshots ----- */

    method ReadRun(run: nat) returns (opportunities: seq<Opportunity>)
      ensures opportunities == Observed(observations, run)
    {
      var positions := set k | k in observations && k.0 == run :: k.1;
      assert positions == Positions(observations, run);
      var order := OrderedById(positions);
      opportunities := [];
      for i := 0 to |order|
        invariant |Observed(observations, run)| == |order|
        invariant opportunities == Observed(observations, run)[..i]
      {
        ObservedAt(observations, run, i);
        opportunities := opportunities + [observations[(run, order[i])]];
      }
      assert opportunities == Observed(observations, run);
    }

    method GetLatest(job: Job) returns (latest: Option<CheckResult>)
      requires Valid()
      ensures latest == Latest(Tables(), job)
    {
      var ids := set r | r in runs && runs[r].job == job;
      assert ids == RunsOf(runs, job);
      if ids == {} { return None; }
      var run := MaxRowId(ids);
      var opportunities := ReadRun(run);
      return Some(CheckResult(runs[run].checkedAt, opportunities));
    }

    method WriteObservations(run: nat, s: seq<Opportunity>) returns (ok: bool)
      requires run in runs && UniqueIds(s) && forall k | k in observations :: k.0 != run
      modifies this`observations
      ensures ok <==> Storable(s)
      ensures ok ==> observations == WithSnapshot(old(observations), run, s)
    {
      assert s[..0] == [];
      for position := 0 to |s|
        invariant observations == WithSnapshot(old(observations), run, s[..position])
        invariant Storable(s[..position])
      {
        if !s[position].attributes.Json? { return false; }
        ObservationFits(old(observations), run, s, position);
        SnapshotStep(old(observations), run, s, position);
        InsertObservation(run, position, s[position]);
        assert s[..position + 1] == s[..position] + [s[position]];
      }
      assert s[..|s|] == s;
      return true;
    }

    /** The notifications one transition fans out to, one per channel of the plan. */
    method WriteFanout(
        id: nat, job: Job, at: Wall, t: Transition, plan: Plan, ghost table: map<nat, Notification>, ghost t0: nat,
        ghost index: nat, ghost es: seq<(nat, Delivery)>)
      requires id == t0 + index && t.kind in plan.on && id in transitions
      requires forall n | n in table :: table[n].transition < t0
      requires OncePerChannel(es + Fanout(index, job, at, t, plan))
      requires outbox == Append(table, NewNotifications(t0, es))
      modifies this`outbox
      ensures outbox == Append(table, NewNotifications(t0, es + Fanout(index, job, at, t, plan)))
    {
      ghost var fan := Fanout(index, job, at, t, plan);
      assert es + fan[..0] == es;
      for c := 0 to |plan.channels|
        invariant outbox == Append(table, NewNotifications(t0, es + fan[..c]))
      {
        ghost var sofar := es + fan[..c];
        assert sofar + [fan[c]] == es + fan[..c + 1] == (es + fan)[..|es| + c + 1];
        OncePrefix(es + fan, |es| + c + 1);
        NotificationFits(table, t0, sofar, fan[c]);
        NotificationStep(table, t0, sofar, fan[c]);
        InsertNotification(Notification(id, NewDelivery(job, at, t, plan.channels[c]), None));
      }
      assert fan[..|plan.channels|] == fan;
    }

    /** The notifications of one transition, if the plan selects its kind. */
    method WriteSelected(
        id: nat, job: Job, at: Wall, t: Transition, plan: Plan, ghost table: map<nat, Notification>, ghost t0: nat,
        ghost index: nat, ghost es: seq<(nat, Delivery)>)
      requires id == t0 + index && id in transitions
      requires forall n | n in table :: table[n].transition < t0
      requires OncePerChannel(es + Fanout(index, job, at, t, plan))
      requires outbox == Append(table, NewNotifications(t0, es))
      modifies this`outbox
      ensures outbox == Append(table, NewNotifications(t0, es + Fanout(index, job, at, t, plan)))
    {
      if t.kind in plan.on {
        WriteFanout(id, job, at, t, plan, table, t0, index, es);
      } else {
        assert es + [] == es;
      }
    }

    /** The row of one transition of a run, and its notifications. */
    method WriteTransition(job: Job, run: nat, at: Wall, ts: seq<Transition>, i: nat, plan: Plan,
                           ghost table: map<nat, TransitionRow>, ghost queue: map<nat, Notification>)
      requires run in runs
      requires i < |ts| && forall n | n in queue :: queue[n].transition < NextId(table.Keys)
      requires transitions == Append(table, NewTransitions(run, ts[..i]))
      requires outbox == Append(queue, NewNotifications(NextId(table.Keys), Enqueued(job, at, ts[..i], plan)))
      modifies this`transitions, this`outbox
      ensures transitions == Append(table, NewTransitions(run, ts[..i + 1]))
      ensures outbox == Append(queue, NewNotifications(NextId(table.Keys), Enqueued(job, at, ts[..i + 1], plan)))
    {
      TransitionStep(table, run, ts, i);
      EnqueuedStep(job, at, ts, plan, i);
      var id := InsertTransition(NewTransition(run, ts[i]));
      WriteSelected(id, job, at, ts[i], plan, queue, NextId(table.Keys), i, Enqueued(job, at, ts[..i], plan));
    }

    /** The transition rows of a run and the notifications its plan selects. */
    method WriteTransitions(job: Job, run: nat, at: Wall, ts: seq<Transition>, plan: Plan)
      requires run in runs
      requires forall n | n in outbox :: outbox[n].transition < NextId(transitions.Keys)
      modifies this`transitions, this`outbox
      ensures transitions == Append(old(transitions), NewTransitions(run, ts))
      ensures outbox
        == Append(old(outbox), NewNotifications(NextId(old(transitions).Keys), Enqueued(job, at, ts, plan)))
    {
      for i := 0 to |ts|
        invariant transitions == Append(old(transitions), NewTransitions(run, ts[..i]))
        invariant outbox
          == Append(old(outbox), NewNotifications(NextId(old(transitions).Keys), Enqueued(job, at, ts[..i], plan)))
      {
        WriteTransition(job, run, at, ts, i, plan, old(transitions), old(outbox));
      }
      assert ts[..|ts|] == ts;
    }

    /** The writes of a successful check; on failure the tables are left half written. */
    method WriteSuccess(job: Job, result: CheckResult, plan: Plan, ts: seq<Transition>) returns (ok: bool)
      requires Valid() && UniqueIds(result.opportunities)
      modifies this
      ensures ok <==> Storable(result.opportunities)
      ensures ok ==> SuccessWritten(old(Tables()), Tables(), job, result, plan, ts)
      ensures !ok ==> transitions == old(transitions) && outbox == old(outbox)
    {
      var run := FreshRowId(runs.Keys);
      runs := runs[run := Run(job, result.checkedAt)];
      status := status[job := SuccessRow(Get(status, job), result.checkedAt)];
      alerts := WithoutKey(alerts, CheckFailure(job));
      ok := WriteObservations(run, result.opportunities);
      if ok { WriteTransitions(job, run, result.checkedAt, ts, plan); }
    }

    method DetectSince(previous: Option<CheckResult>, result: CheckResult) returns (ts: seq<Transition>)
      ensures ts == TransitionsSince(previous, result)
    {
      if previous.None? {
        ts := DetectInitial(result.opportunities);
      } else {
        ts := DetectTransitions(previous.value, result);
      }
    }

    method RecordSuccess(job: Job, result: CheckResult, plan: Plan) returns (r: Result<RecordOutcome, StoreError>)
      requires Valid() && UniqueIds(result.opportunities)
      modifies this
      ensures Valid()
      ensures r.Success? <==> Storable(result.opportunities)
      ensures Apply(old(Tables()), Op.RecordSuccess(job, result, plan))
           == (Tables(), if r.Success? then Recorded(r.value.baselineCreated, r.value.transitions)
             else Rejected(r.error))
    {
      ghost var before := Tables();
      var previous := GetLatest(job);
      var ts := DetectSince(previous, result);
      var savedRuns, savedObservations, savedStatus, savedAlerts := runs, observations, status, alerts;
      var ok := WriteSuccess(job, result, plan, ts);
      if !ok {
        runs, observations, status, alerts := savedRuns, savedObservations, savedStatus, savedAlerts;
        UnserializableIsRejected(before, job, result, plan);
        return Failure(NotSerializable);
      }
      WrittenIsApplied(before, Tables(), job, result, plan, ts);
      return Success(RecordOutcome(previous.None?, ts));
    }

    /* ----- operational alerts ----- */

    /** One row per channel; false as soon as UNIQUE (alert_key, channel) would be violated. */
    method EnqueueOperationalAlert(
        key: AlertKey, detail: AlertDetail, at: Wall, channels: seq<Channel>)
      returns (ok: bool)
      requires forall a | a in alerts :: alerts[a].key != key
      modifies this`alerts
      ensures ok <==> Distinct(channels)
      ensures ok ==> alerts == Append(old(alerts), NewAlerts(key, detail, at, channels))
    {
      assert channels[..0] == [] && NewAlerts(key, detail, at, []) == [];
      for c := 0 to |channels|
        invariant Distinct(channels[..c])
        invariant alerts == Append(old(alerts), NewAlerts(key, detail, at, channels[..c]))
      {
        AlertFits(old(alerts), key, detail, at, channels[..c], channels[c]);
        if exists a | a in alerts && alerts[a].key == key :: alerts[a].channel == channels[c] {
          assert channels[c] in channels[..c];
          return false;
        }
        AlertStep(old(alerts), key, detail, at, channels, c);
        DistinctStep(channels, c);
        var id := FreshRowId(alerts.Keys);
        alerts := alerts[id := Alert(key, channels[c], detail, at, 0, None, None)];
      }
      assert channels[..|channels|] == channels;
      return true;
    }

    method RecordCheckFailure(job: Job, error: string, failedAt: Wall, alertAfter: int, channels: seq<Channel>)
      returns (r: Result<bool, StoreError>)
      requires Valid()
      modifies this
      ensures Valid()
      ensures Apply(old(Tables()), RecordFailure(job, error, failedAt, alertAfter, channels))
           == (Tables(), if r.Success? then Raised(r.value) else Rejected(r.error))
    {
      ghost var before := Tables();
      var savedStatus, savedAlerts := status, alerts;
      var raised, ok := WriteFailure(job, error, failedAt, alertAfter, channels);
      if !ok {
        status, alerts := savedStatus, savedAlerts;
        assert Tables() == before;
        return Failure(ConstraintViolated);
      }
      assert AfterFailure(before, job, error, failedAt, alertAfter, channels) == Success((Tables(), raised));
      FailureKeepsConsistent(before, job, error, failedAt, alertAfter, channels);
      return Success(raised);
    }

    method WriteFailure(job: Job, error: string, failedAt: Wall, alertAfter: int, channels: seq<Channel>)
      returns (raised: bool, ok: bool)
      requires AlertsFlagged(status, alerts)
      modifies this`status, this`alerts
      ensures AfterFailure(old(Tables()), job, error, failedAt, alertAfter, channels)
           == if ok then Success((Tables(), raised)) else Failure(ConstraintViolated)
    {
      var row := FailureRow(Get(status, job), error, failedAt);
      status := status[job := row];
      raised, ok := row.consecutiveFailures >= alertAfter && !row.failureAlertActive, true;
      if raised {
        assert forall a | a in alerts :: alerts[a].key != CheckFailure(job);
        ok := EnqueueOperationalAlert(CheckFailure(job), Failures(row.consecutiveFailures, Truncate(error, 1000)),
          failedAt, channels);
        if ok {
          status := status[job := row.(failureAlertActive := true)];
          assert status == old(status)[job := row.(failureAlertActive := true)];
        }
      }
    }

    /** The rows of job_status in whatever order the query returns them. */
    method StatusRows() returns (order: seq<Job>)
      ensures Lists(order, status)
    {
      order := [];
      var rest := status.Keys;
      while rest != {}
        invariant rest <= status.Keys && Distinct(order)
        invariant forall j :: j in order <==> j in status && j !in rest
        decreases rest
      {
        var j :| j in rest;
        rest, order := rest - {j}, order + [j];
      }
    }

    method RaiseDeliveryBacklogAlerts(at: Wall, alertAfter: int, channels: seq<Channel>)
      returns (r: Result<seq<Job>, StoreError>, ghost order: seq<Job>)
      requires Valid()
      modifies this
      ensures Valid()
      ensures Lists(order, old(status))
      ensures Apply(old(Tables()), RaiseBacklogAlerts(order, at, alertAfter, channels))
           == (Tables(), if r.Success? then RaisedFor(r.value) else Rejected(r.error))
    {
      ghost var before := Tables();
      var pending := PendingItems();
      var rows := StatusRows();
      order := rows;
      var savedStatus, savedAlerts := status, alerts;
      var ok, raised := WriteBacklog(rows, pending, at, alertAfter, channels);
      if !ok {
        status, alerts := savedStatus, savedAlerts;
        assert Tables() == before;
        return Failure(ConstraintViolated), order;
      }
      BacklogKeepsConsistent(before, pending, order, at, alertAfter, channels);
      assert Tables() == before.(status := status, alerts := alerts);
      return Success(raised), order;
    }

    method WriteBacklog(rows: seq<Job>, pending: seq<Delivery>, at: Wall, alertAfter: int, channels: seq<Channel>)
      returns (ok: bool, raised: seq<Job>)
      requires HealthConsistent(status, alerts) && forall j | j in rows :: j in status
      modifies this`status, this`alerts
      ensures EvaluateBacklog(old(status), old(alerts), pending, rows, at, alertAfter, channels)
           == if ok then Success(Health(status, alerts, raised)) else Failure(ConstraintViolated)
    {
      raised := [];
      for i := 0 to |rows|
        invariant EvaluateBacklog(old(status), old(alerts), pending, rows[..i], at, alertAfter, channels)
               == Success(Health(status, alerts, raised))
        invariant HealthConsistent(status, alerts) && status.Keys == old(status).Keys
      {
        EvaluationStep(old(status), old(alerts), pending, rows, i, at, alertAfter, channels);
        EvaluateJobKeeps(Health(status, alerts, raised), pending, rows[i], at, alertAfter, channels);
        ok, raised := EvaluateOne(rows[i], pending, raised, at, alertAfter, channels);
        if !ok {
          EvaluationFailsEarly(old(status), old(alerts), pending, rows, i + 1, at, alertAfter, channels);
          return;
        }
      }
      assert rows[..|rows|] == rows;
      ok := true;
    }

    method EvaluateOne(
        job: Job, pending: seq<Delivery>, raisedSoFar: seq<Job>, at: Wall, alertAfter: int, channels: seq<Channel>)
      returns (ok: bool, raised: seq<Job>)
      requires job in status && HealthConsistent(status, alerts)
      modifies this`status, this`alerts
      ensures EvaluateJob(Health(old(status), old(alerts), raisedSoFar), pending, job, at, alertAfter, channels)
           == if ok then Success(Health(status, alerts, raised)) else Failure(ConstraintViolated)
    {
      var row, count, most := status[job], CountFor(pending, job), MaxAttempts(pending, job);
      var active := count > 0 && most >= alertAfter;
      ok, raised := true, raisedSoFar;
      if active && !row.deliveryAlertActive {
        assert forall a | a in alerts :: alerts[a].key != DeliveryBacklog(job);
        ok := EnqueueOperationalAlert(DeliveryBacklog(job), Backlog(count, most), at, channels);
        if !ok { return; }
        raised := raised + [job];
      }
      if !active && row.deliveryAlertActive {
        alerts := WithoutKey(alerts, DeliveryBacklog(job));
      }
      status := status[job := row.(deliveryAlertActive := active)];
    }

    /**
     * Settles one alert; integrity is kept by AlertAttemptKeepsConsistent. Marks
     * delivered when `failure` is absent, otherwise records a failed attempt.
     */
    method UpdateOperationalAlert(id: nat, at: Wall, failure: Option<string>) returns (r: Result<(), StoreError>)
      modifies this`alerts
      ensures var after := AfterAlertAttempt(old(alerts), id, at, failure);
        && alerts == (if after.Success? then after.value else old(alerts))
        && r == (if after.Success? then Success(()) else Failure(NotPending))
      ensures r.Success? <==> id in old(alerts) && old(alerts)[id].deliveredAt.None?
      ensures r.Success? ==> alerts == old(alerts)[id := alerts[id]]
                             && AlertAttemptedOnce(old(alerts)[id], alerts[id], at, failure)
    {
      if id !in alerts || alerts[id].deliveredAt.Some? {
        return Failure(NotPending);
      }
      var a := alerts[id];
      if failure.None? {
        alerts := alerts[id := a.(deliveredAt := Some(at), attempts := a.attempts + 1, lastError := None)];
      } else {
        alerts := alerts[id := a.(attempts := a.attempts + 1, lastError := Some(Truncate(failure.value, 2000)))];
      }
      return Success(());
    }

    /* ----- the notification outbox ----- */

    method PendingItems() returns (items: seq<Delivery>)
      ensures items == Pending(outbox)
    {
      var ids := OrderedById(set n | n in outbox && outbox[n].deliveredAt.None?);
      items := [];
      for i := 0 to |ids|
        invariant ids == PendingIds(outbox) && items == Pending(outbox)[..i]
      {
        PendingItem(outbox, i);
        items := items + [outbox[ids[i]].item];
      }
    }

    method ListPendingNotifications(limit: int) returns (listed: seq<PendingNotification>)
      ensures |listed| == |FirstOf(Pending(outbox), limit)|
      ensures |listed| == if limit <= 0 then 0 else if limit < |Pending(outbox)| then limit else |Pending(outbox)|
      ensures forall i | 0 <= i < |listed| ::
        listed[i] == PendingNotification(PendingIds(outbox)[i], Pending(outbox)[i])
    {
      listed := [];
      if limit <= 0 { return; }
      var ids := OrderedById(set n | n in outbox && outbox[n].deliveredAt.None?);
      while |listed| < limit && |listed| < |ids|
        invariant ids == PendingIds(outbox) && |listed| <= limit && |listed| <= |ids|
        invariant forall i | 0 <= i < |listed| :: listed[i] == PendingNotification(ids[i], Pending(outbox)[i])
      {
        PendingItem(outbox, |listed|);
        var id := ids[|listed|];
        listed := listed + [PendingNotification(id, outbox[id].item)];
      }
    }

    /** Settles one notification; integrity is kept by AttemptKeepsConsistent. */
    method MarkNotificationDelivered(id: nat, at: Wall) returns (r: Result<(), StoreError>)
      modifies this`outbox
      ensures Written(old(outbox), outbox, r, id, at, None)
      ensures r.Success? <==> id in old(outbox) && old(outbox)[id].deliveredAt.None?
      ensures r.Success? ==> outbox == old(outbox)[id := outbox[id]] && outbox[id].deliveredAt == Some(at)
                             && AttemptedOnce(old(outbox)[id].item, outbox[id].item, at, None)
    {
      if id !in outbox || outbox[id].deliveredAt.Some? {
        return Failure(NotPending);
      }
      var row := outbox[id];
      var item := row.item.(lastAttemptAt := Some(at), attempts := row.item.attempts + 1, lastError := None);
      outbox := outbox[id := row.(item := item, deliveredAt := Some(at))];
      return Success(());
    }

    method RecordNotificationFailure(id: nat, at: Wall, error: string) returns (r: Result<(), StoreError>)
      modifies this`outbox
      ensures Written(old(outbox), outbox, r, id, at, Some(error))
      ensures r.Success? <==> id in old(outbox) && old(outbox)[id].deliveredAt.None?
      ensures r.Success? ==> outbox == old(outbox)[id := outbox[id]] && outbox[id].deliveredAt.None?
                             && AttemptedOnce(old(outbox)[id].item, outbox[id].item, at, Some(error))
    {
      if id !in outbox || outbox[id].deliveredAt.Some? {
        return Failure(NotPending);
      }
      var row := outbox[id];
      var item := row.item.(lastAttemptAt := Some(at), attempts := row.item.attempts + 1,
                            lastError := Some(Truncate(error, 2000)));
      outbox := outbox[id := row.(item := item)];
      return Success(());
    }

    /* ----- retention ----- */

    /** The text comparison of the DELETE statements. */
    static predicate OlderText(a: Wall, b: Wall)
      ensures OlderText(a, b) <==> Before(a, b)
    {
      TextOrderIsTimeOrder(a, b, 0);
      TextLess(Iso(a, 0), Iso(b, 0))
    }

    static predicate Completed(row: Notification, cutoff: Wall)
      ensures Completed(row, cutoff) <==> row.deliveredAt.Some? && Before(row.deliveredAt.value, cutoff)
    {
      row.deliveredAt.Some? && OlderText(row.deliveredAt.value, cutoff)
    }

    static lemma {:induction false} RemovedRows(table: map<nat, Notification>, gone: set<nat>)
      requires gone <= table.Keys
      ensures |gone| + |map n | n in table && n !in gone :: table[n]| == |table|
    {
      var left := map n | n in table && n !in gone :: table[n];
      assert left.Keys == table.Keys - gone;
      assert |left| == |left.Keys|;
    }

    static lemma {:induction false} CompletedRows(db: Db, gone: set<nat>, cutoff: Wall)
      requires forall n :: n in gone <==> n in db.outbox && Completed(db.outbox[n], cutoff)
      ensures (map n | n in db.outbox && n !in gone :: db.outbox[n]) == WithoutCompleted(db, cutoff).outbox
    {
    }

    method DeleteCompleted(cutoff: Wall) returns (deleted: nat)
      modifies this`outbox
      ensures Tables() == WithoutCompleted(old(Tables()), cutoff)
      ensures deleted + |outbox| == |old(outbox)|
      ensures deleted == |OldDeliveries(old(Tables()), cutoff)|
    {
      var completed := set n | n in outbox && Completed(outbox[n], cutoff);
      RemovedRows(outbox, completed);
      CompletedRows(Tables(), completed, cutoff);
      assert completed == OldDeliveries(Tables(), cutoff);
      outbox := map n | n in outbox && n !in completed :: outbox[n];
      return |completed|;
    }

    method RunsToDelete(cutoff: Wall) returns (doomed: set<nat>)
      ensures doomed == ExpiredRuns(Tables(), cutoff)
    {
      doomed := {};
      var rest := runs.Keys;
      while rest != {}
        invariant rest <= runs.Keys
        invariant forall r :: r in doomed <==> r in runs && r !in rest && Expired(Tables(), r, cutoff)
        decreases rest
      {
        var r :| r in rest;
        var newest := MaxRowId(set k | k in runs && runs[k].job == runs[r].job);
        assert (set k | k in runs && runs[k].job == runs[r].job) == RunsOf(runs, runs[r].job);
        if OlderText(runs[r].checkedAt, cutoff) && r != newest
           && !(exists n :: n in outbox && outbox[n].deliveredAt.None?
                            && outbox[n].transition in transitions && transitions[outbox[n].transition].run == r) {
          doomed := doomed + {r};
        }
        rest := rest - {r};
      }
    }

    method DeleteRuns(doomed: set<nat>) returns (deleted: nat)
      requires doomed <= runs.Keys
      modifies this
      ensures Tables() == WithoutRuns(old(Tables()), doomed)
      ensures deleted == |doomed|
    {
      runs := map r | r in runs && r !in doomed :: runs[r];
      observations := map k | k in observations && k.0 !in doomed :: observations[k];
      transitions := map t | t in transitions && transitions[t].run !in doomed :: transitions[t];
      outbox := map n | n in outbox && outbox[n].transition in transitions :: outbox[n];
      return |doomed|;
    }

    method Prune(observationsBefore: Wall, notificationsBefore: Wall) returns (r: RetentionResult)
      requires Valid()
      modifies this
      ensures Valid()
      ensures Tables() == AfterPrune(old(Tables()), observationsBefore, notificationsBefore)
      ensures r.completedNotificationsDeleted + |WithoutCompleted(old(Tables()), notificationsBefore).outbox|
        == |old(outbox)|
      ensures r.checkRunsDeleted == |DeletedRuns(old(Tables()), observationsBefore)|
      ensures r.completedNotificationsDeleted == |OldDeliveries(old(Tables()), notificationsBefore)|
    {
      ExpiredAreDeleted(Tables(), observationsBefore, notificationsBefore);
      PruneKeepsConsistent(Tables(), observationsBefore, notificationsBefore);
      var completed := DeleteCompleted(notificationsBefore);
      var doomed := RunsToDelete(observationsBefore);
      var deleted := DeleteRuns(doomed);
      return RetentionResult(deleted, completed);
    }
  }
}
