/** Properties of every run of store operations that starts from the fresh schema. */
module Runs {
  import opened Prelude
  import opened RowOrder
  import opened IsoTime
  import opened Snapshots
  import opened Tables
  import opened Integrity
  import opened Refinement

  lemma {:induction false} PrefixLegal(db: Db, ops: seq<Op>, n: nat)
    requires Legal(db, ops) && n <= |ops|
    ensures Legal(db, ops[..n])
    ensures n < |ops| ==> Applicable(Final(db, ops[..n]).status, ops[n])
    decreases |ops|
  {
    if n == |ops| {
      assert ops[..n] == ops;
    } else {
      var front := ops[..|ops| - 1];
      PrefixLegal(db, front, n);
      assert front[..n] == ops[..n];
    }
  }

  predicate IsRecording(op: Op, job: Job) {
    op.RecordSuccess? && op.job == job && Storable(op.result.opportunities)
  }

  /** The successful snapshots recorded for a job, oldest first. */
  function Recordings(ops: seq<Op>, job: Job): seq<CheckResult> {
    if ops == [] then [] else
      var op := ops[|ops| - 1];
      Recordings(ops[..|ops| - 1], job)
      + if IsRecording(op, job) then [op.result] else []
  }

  function Last<T>(s: seq<T>): Option<T> {
    if s == [] then None else Some(s[|s| - 1])
  }

  function LastSuccess(row: Option<JobRow>): Option<Wall> {
    if row.None? then None else row.value.lastSuccessAt
  }

  function TimeOf(r: Option<CheckResult>): Option<Wall> {
    if r.None? then None else Some(r.value.checkedAt)
  }

  lemma {:induction false} EvaluationKeepsRows(
      status: map<Job, JobRow>, alerts: map<nat, Alert>, pending: seq<Delivery>, order: seq<Job>, at: Wall,
      alertAfter: int, channels: seq<Channel>, j: Job)
    requires forall k | k in order :: k in status
    ensures var r := EvaluateBacklog(status, alerts, pending, order, at, alertAfter, channels);
            r.Success? && j in status ==>
              r.value.status[j] == status[j].(deliveryAlertActive := r.value.status[j].deliveryAlertActive)
  {
    if order != [] {
      EvaluationKeepsRows(status, alerts, pending, order[..|order| - 1], at, alertAfter, channels, j);
    }
  }

  /** One step of the view, as far as one job's baseline is concerned. */
  lemma {:induction false} StepOnBaseline(v: View, op: Op, job: Job)
    requires Applicable(v.status, op)
    ensures var after := Step(v, op).0;
      && Get(after.latest, job) == (if IsRecording(op, job) then Some(op.result) else Get(v.latest, job))
      && LastSuccess(Get(after.status, job))
           == (if IsRecording(op, job) then Some(op.result.checkedAt) else LastSuccess(Get(v.status, job)))
  {
    match op
    case RaiseBacklogAlerts(order, at, alertAfter, channels) =>
      EvaluationKeepsRows(v.status, v.alerts, v.pending, order, at, alertAfter, channels, job);
    case _ =>
  }

  lemma {:induction false} ApplyOnBaseline(db: Db, op: Op, job: Job)
    requires Consistent(db) && Applicable(db.status, op)
    ensures var after := Apply(db, op).0;
      && Consistent(after)
      && Latest(after, job) == (if IsRecording(op, job) then Some(op.result) else Latest(db, job))
      && LastSuccess(Get(after.status, job))
           == (if IsRecording(op, job) then Some(op.result.checkedAt) else LastSuccess(Get(db.status, job)))
  {
    ApplyRefinesStep(db, op);
    StepOnBaseline(ViewOf(db), op, job);
    var after := Apply(db, op).0;
    assert Latest(db, job) == Get(ViewOf(db).latest, job);
    assert Latest(after, job) == Get(ViewOf(after).latest, job);
  }

  lemma {:induction false} RecordingsSnoc(ops: seq<Op>, job: Job)
    requires ops != []
    ensures var op := ops[|ops| - 1];
      Last(Recordings(ops, job)) == if IsRecording(op, job) then Some(op.result)
        else Last(Recordings(ops[..|ops| - 1], job))
  {
  }

  /**
   * Over all runs the tables behave as a map from jobs to their last recorded
   * snapshot, rebuilt exactly, and the job's row remembers its time.
   */
  lemma {:induction false} LatestIsLastRecorded(ops: seq<Op>, job: Job)
    requires Legal(EMPTY, ops)
    ensures Consistent(Final(EMPTY, ops))
    ensures Latest(Final(EMPTY, ops), job) == Last(Recordings(ops, job))
    ensures LastSuccess(Get(Final(EMPTY, ops).status, job)) == TimeOf(Last(Recordings(ops, job)))
    decreases |ops|
  {
    if ops == [] {
      assert RunsOf(EMPTY.runs, job) == {};
    } else {
      var n := |ops| - 1;
      LatestIsLastRecorded(ops[..n], job);
      ApplyOnBaseline(Final(EMPTY, ops[..n]), ops[n], job);
      RecordingsSnoc(ops, job);
      assert Final(EMPTY, ops) == Apply(Final(EMPTY, ops[..n]), ops[n]).0;
    }
  }

  /** A job's history of snapshots, as far as its opportunities are concerned. */
  function HistoryOf(rs: seq<CheckResult>): (h: seq<seq<Opportunity>>)
    ensures |h| == |rs| && forall i | 0 <= i < |rs| :: h[i] == rs[i].opportunities
  {
    seq(|rs|, i requires 0 <= i < |rs| => rs[i].opportunities)
  }

  lemma {:induction false} RecordingsUnique(ops: seq<Op>, job: Job)
    requires Legal(EMPTY, ops)
    ensures forall r | r in Recordings(ops, job) :: UniqueIds(r.opportunities)
    decreases |ops|
  {
    if ops != [] {
      var n := |ops| - 1;
      RecordingsUnique(ops[..n], job);
    }
  }

  /**
   * Recording a snapshot answers with the transitions its place in the job's
   * history demands, and reports a baseline exactly for the first one ever.
   */
  lemma {:induction false} RecordingAnswersFromHistory(ops: seq<Op>, job: Job, result: CheckResult, plan: Plan)
    requires Legal(EMPTY, ops) && UniqueIds(result.opportunities) && Storable(result.opportunities)
    ensures var rs := Recordings(ops, job);
            Apply(Final(EMPTY, ops), RecordSuccess(job, result, plan)).1
              == Recorded(rs == [], Emitted(HistoryOf(rs + [result]), |rs|))
  {
    LatestIsLastRecorded(ops, job);
    var rs := Recordings(ops, job);
    var h := HistoryOf(rs + [result]);
    assert h[|rs|] == result.opportunities;
    if rs != [] { assert h[|rs| - 1] == rs[|rs| - 1].opportunities; }
  }

  /** The transitions reported by the operation at position `p` of a run. */
  ghost function ReportedAt(ops: seq<Op>, p: nat): seq<Transition>
    requires p < |ops| && Legal(EMPTY, ops)
  {
    PrefixLegal(EMPTY, ops, p);
    var answer := Apply(Final(EMPTY, ops[..p]), ops[p]).1;
    if answer.Recorded? then answer.transitions else []
  }

  lemma {:induction false} RecordingsGrow(ops: seq<Op>, p: nat, job: Job)
    requires p <= |ops|
    ensures Recordings(ops[..p], job) <= Recordings(ops, job)
    decreases |ops| - p
  {
    if p < |ops| {
      RecordingsGrow(ops, p + 1, job);
      assert ops[..p + 1][..p] == ops[..p];
    } else {
      assert ops[..p] == ops;
    }
  }

  /** A report is the one its snapshot's place in the history demands. */
  lemma {:induction false} ReportFromHistory(ops: seq<Op>, p: nat, job: Job)
    requires p < |ops| && Legal(EMPTY, ops)
    requires ops[p].RecordSuccess? && ops[p].job == job && ReportedAt(ops, p) != []
    ensures var rs := Recordings(ops[..p], job);
            IsRecording(ops[p], job) && ReportedAt(ops, p) == Emitted(HistoryOf(rs + [ops[p].result]), |rs|)
  {
    PrefixLegal(EMPTY, ops, p);
    var op := ops[p];
    assert Storable(op.result.opportunities);
    RecordingAnswersFromHistory(ops[..p], job, op.result, op.plan);
  }

  lemma {:induction false} EmittedInLonger(rs: seq<CheckResult>, longer: seq<CheckResult>, m: nat)
    requires m < |rs| && rs <= longer
    ensures Emitted(HistoryOf(rs), m) == Emitted(HistoryOf(longer), m)
  {
    assert HistoryOf(rs)[m] == HistoryOf(longer)[m];
    if m > 0 { assert HistoryOf(rs)[m - 1] == HistoryOf(longer)[m - 1]; }
  }

  lemma {:induction false} ReportIsEmitted(ops: seq<Op>, p: nat, job: Job)
    requires p < |ops| && Legal(EMPTY, ops)
    requires ops[p].RecordSuccess? && ops[p].job == job && ReportedAt(ops, p) != []
    ensures var m := |Recordings(ops[..p], job)|;
      && |Recordings(ops[..p + 1], job)| == m + 1 <= |Recordings(ops, job)|
      && ReportedAt(ops, p) == Emitted(HistoryOf(Recordings(ops, job)), m)
  {
    ReportFromHistory(ops, p, job);
    var rs := Recordings(ops[..p], job);
    assert Recordings(ops[..p + 1], job) == rs + [ops[p].result] by {
      assert ops[..p + 1][..p] == ops[..p];
    }
    RecordingsGrow(ops, p + 1, job);
    EmittedInLonger(rs + [ops[p].result], Recordings(ops, job), |rs|);
  }

  lemma {:induction false} RecordingsBetween(ops: seq<Op>, p: nat, q: nat, job: Job)
    requires p <= q <= |ops|
    ensures |Recordings(ops[..p], job)| <= |Recordings(ops[..q], job)|
  {
    assert ops[..q][..p] == ops[..p];
    RecordingsGrow(ops[..q], p, job);
  }

  ghost function HistoryIn(ops: seq<Op>, job: Job): History
    requires Legal(EMPTY, ops)
  {
    RecordingsUnique(ops, job);
    HistoryOf(Recordings(ops, job))
  }

  /**
   * In any run, two reports that an opportunity of a job became available are
   * separated by a recorded snapshot of that job in which it was not available,
   * no matter what else (failures, deliveries, pruning) happens in between.
   */
  lemma {:induction false} NoRepeatedAvailability(ops: seq<Op>, p: nat, q: nat, job: Job, t: Transition, u: Transition)
    requires p < q < |ops| && Legal(EMPTY, ops)
    requires ops[p].RecordSuccess? && ops[p].job == job && t in ReportedAt(ops, p)
    requires ops[q].RecordSuccess? && ops[q].job == job && u in ReportedAt(ops, q)
    requires t.kind == u.kind == BecameAvailable && t.id == u.id
    ensures exists k :: |Recordings(ops[..p + 1], job)| <= k < |Recordings(ops[..q], job)| <= |HistoryIn(ops, job)|
                        && Status(HistoryIn(ops, job)[k], t.id) != Some(Available)
  {
    ReportIsEmitted(ops, p, job);
    ReportIsEmitted(ops, q, job);
    RecordingsBetween(ops, p + 1, q, job);
    var h := HistoryIn(ops, job);
    var m, n := |Recordings(ops[..p], job)|, |Recordings(ops[..q], job)|;
    AvailableReportsAreSeparated(h, m, n, t, u);
  }

  lemma {:induction false} InitialKindMarksTheFirst(h: History, m: nat, t: Transition)
    requires m < |h| && t in Emitted(h, m)
    ensures t.kind == InitiallyAvailable <==> m == 0
  {
    if m == 0 {
      InitialExact(h[0]);
    } else {
      DetectExact(h[m - 1], h[m]);
      assert Records(t, h[m - 1], h[m]);
    }
  }

  /** Only a job's first snapshot ever reports initially available opportunities. */
  lemma {:induction false} InitialOnlyOnce(ops: seq<Op>, p: nat, job: Job, t: Transition)
    requires p < |ops| && Legal(EMPTY, ops)
    requires ops[p].RecordSuccess? && ops[p].job == job && t in ReportedAt(ops, p)
    ensures t.kind == InitiallyAvailable <==> Recordings(ops[..p], job) == []
  {
    ReportIsEmitted(ops, p, job);
    InitialKindMarksTheFirst(HistoryIn(ops, job), |Recordings(ops[..p], job)|, t);
  }

  /* ---------- what a success enqueues ---------- */

  function CountSelected(ts: seq<Transition>, plan: Plan): nat {
    if ts == [] then 0 else
      CountSelected(ts[..|ts| - 1], plan) + if ts[|ts| - 1].kind in plan.on then 1 else 0
  }

  ghost predicate SelectedAs(e: (nat, Delivery), job: Job, at: Wall, ts: seq<Transition>, plan: Plan) {
    && e.0 < |ts| && ts[e.0].kind in plan.on
    && e.1.channel in plan.channels && e.1 == NewDelivery(job, at, ts[e.0], e.1.channel)
  }

  lemma {:induction false} EnqueuedSound(job: Job, at: Wall, ts: seq<Transition>, plan: Plan)
    ensures forall e | e in Enqueued(job, at, ts, plan) :: SelectedAs(e, job, at, ts, plan)
  {
    if ts != [] {
      var last := |ts| - 1;
      EnqueuedSound(job, at, ts[..last], plan);
      var before, step := Enqueued(job, at, ts[..last], plan), Fanout(last, job, at, ts[last], plan);
      forall e | e in before + step
        ensures SelectedAs(e, job, at, ts, plan)
      {
        if e in before { assert SelectedAs(e, job, at, ts[..last], plan); }
      }
    }
  }

  /** The rows the selected transitions fan out to, added up one by one. */
  function FanoutTotal(ts: seq<Transition>, plan: Plan): nat {
    if ts == [] then 0 else
      FanoutTotal(ts[..|ts| - 1], plan) + if ts[|ts| - 1].kind in plan.on then |plan.channels| else 0
  }

  lemma {:induction false} EnqueuedTotal(job: Job, at: Wall, ts: seq<Transition>, plan: Plan)
    ensures |Enqueued(job, at, ts, plan)| == FanoutTotal(ts, plan)
  {
    if ts != [] { EnqueuedTotal(job, at, ts[..|ts| - 1], plan); }
  }

  lemma {:induction false} OneMoreTimes(n: nat, c: nat)
    ensures (n + 1) * c == n * c + c
  {
  }

  lemma {:induction false} FanoutIsProduct(ts: seq<Transition>, plan: Plan)
    ensures FanoutTotal(ts, plan) == CountSelected(ts, plan) * |plan.channels|
  {
    if ts != [] {
      FanoutIsProduct(ts[..|ts| - 1], plan);
      OneMoreTimes(CountSelected(ts[..|ts| - 1], plan), |plan.channels|);
    }
  }

  lemma {:induction false} EnqueuedComplete(
      job: Job, at: Wall, ts: seq<Transition>, plan: Plan, i: nat, channel: Channel)
    requires i < |ts| && ts[i].kind in plan.on && channel in plan.channels
    ensures (i, NewDelivery(job, at, ts[i], channel)) in Enqueued(job, at, ts, plan)
  {
    var last := |ts| - 1;
    if i < last {
      EnqueuedComplete(job, at, ts[..last], plan, i, channel);
    } else {
      var c :| 0 <= c < |plan.channels| && plan.channels[c] == channel;
      assert Fanout(last, job, at, ts[last], plan)[c] == (i, NewDelivery(job, at, ts[i], channel));
    }
  }

  /**
   * A success enqueues exactly one fresh delivery per selected transition and
   * channel, behind everything already pending, and nothing else.
   */
  lemma {:induction false} SuccessEnqueuesExactly(db: Db, job: Job, result: CheckResult, plan: Plan)
    requires Consistent(db) && UniqueIds(result.opportunities) && Storable(result.opportunities)
    ensures var ts := TransitionsSince(Latest(db, job), result);
            var es := Enqueued(job, result.checkedAt, ts, plan);
      && Pending(Apply(db, RecordSuccess(job, result, plan)).0.outbox) == Pending(db.outbox) + Items(es)
      && (forall i, c :: 0 <= i < |ts| && ts[i].kind in plan.on && c in plan.channels ==>
            (i, NewDelivery(job, result.checkedAt, ts[i], c)) in es)
      && (forall e | e in es :: SelectedAs(e, job, result.checkedAt, ts, plan))
      && Distinct(es) && |es| == CountSelected(ts, plan) * |plan.channels|
  {
    ApplyRefinesStep(db, RecordSuccess(job, result, plan));
    var ts := TransitionsSince(Latest(db, job), result);
    assert Latest(db, job) == Get(ViewOf(db).latest, job);
    EnqueuedSound(job, result.checkedAt, ts, plan);
    EnqueuedTotal(job, result.checkedAt, ts, plan);
    FanoutIsProduct(ts, plan);
    EnqueuedOnce(job, result.checkedAt, ts, plan);
    forall i, c | 0 <= i < |ts| && ts[i].kind in plan.on && c in plan.channels
      ensures (i, NewDelivery(job, result.checkedAt, ts[i], c)) in Enqueued(job, result.checkedAt, ts, plan)
    {
      EnqueuedComplete(job, result.checkedAt, ts, plan, i, c);
    }
  }

  /** A rebuilt snapshot has unique ids, because the observations of its run have. */
  lemma {:induction false} LatestIdsAreUnique(db: Db, job: Job)
    requires Consistent(db) && Latest(db, job).Some?
    ensures UniqueIds(Latest(db, job).value.opportunities)
  {
    var run := MaxId(RunsOf(db.runs, job));
    var ps, s := Ascending(Positions(db.observations, run)), Observed(db.observations, run);
    forall i, j | 0 <= i < j < |s| ensures s[i].id != s[j].id {
      ObservedAt(db.observations, run, i);
      ObservedAt(db.observations, run, j);
      assert ps[i] < ps[j];
    }
  }

  /** Recording a snapshot with unchanged availabilities enqueues nothing. */
  lemma {:induction false} UnchangedEnqueuesNothing(db: Db, job: Job, result: CheckResult, plan: Plan)
    requires Consistent(db) && UniqueIds(result.opportunities) && Storable(result.opportunities)
    requires Latest(db, job).Some?
    requires Statuses(Latest(db, job).value.opportunities) == Statuses(result.opportunities)
    ensures Pending(Apply(db, RecordSuccess(job, result, plan)).0.outbox) == Pending(db.outbox)
    ensures Apply(db, RecordSuccess(job, result, plan)).1 == Recorded(false, [])
  {
    LatestIdsAreUnique(db, job);
    SilentIffUnchanged(Latest(db, job).value.opportunities, result.opportunities);
    SuccessEnqueuesExactly(db, job, result, plan);
    var none: seq<Transition> := [];
    assert Enqueued(job, result.checkedAt, none, plan) == [];
    assert Items([]) == [];
  }
}
