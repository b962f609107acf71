/**
 * The six tables of the store as values, and what each transaction leaves in
 * them. Times are UTC wall-clock readings; row ids follow RowOrder.
 */
module Tables {
  import opened Prelude
  import opened RowOrder
  import opened IsoTime
  import opened Snapshots

  type Job = string
  type Channel = string

  datatype PlanData = PlanData(channels: seq<Channel>, on: set<Kind>)

  /** Plans reject repeated channels when they are built. */
  type Plan = p: PlanData | Distinct(p.channels) witness PlanData([], {})

  datatype Run = Run(job: Job, checkedAt: Wall)

  datatype TransitionRow = TransitionRow(
    run: nat, id: string, kind: Kind, previous: Option<Availability>, current: Option<Availability>)

  datatype Delivery = Delivery(
    channel: Channel, job: Job, kind: Kind, opportunity: string, title: string,
    current: Option<Availability>, bookingUrl: Option<string>, checkedAt: Wall,
    attempts: nat, lastAttemptAt: Option<Wall>, lastError: Option<string>)

  datatype Notification = Notification(transition: nat, item: Delivery, deliveredAt: Option<Wall>)

  datatype JobRow = JobRow(
    lastSuccessAt: Option<Wall>, lastFailureAt: Option<Wall>, consecutiveFailures: nat,
    lastError: Option<string>, failureAlertActive: bool, deliveryAlertActive: bool)

  /** The texts "check-failure:<job>" and "delivery-backlog:<job>". */
  datatype AlertKey = CheckFailure(job: Job) | DeliveryBacklog(job: Job)

  datatype AlertDetail = Failures(count: nat, error: string) | Backlog(count: nat, maxAttempts: nat)

  datatype Alert = Alert(
    key: AlertKey, channel: Channel, detail: AlertDetail, createdAt: Wall,
    attempts: nat, lastError: Option<string>, deliveredAt: Option<Wall>)

  /** `observations` is keyed by (run id, position). */
  datatype Db = Db(
    runs: map<nat, Run>,
    observations: map<(nat, nat), Opportunity>,
    transitions: map<nat, TransitionRow>,
    outbox: map<nat, Notification>,
    status: map<Job, JobRow>,
    alerts: map<nat, Alert>)

  const EMPTY: Db := Db(map[], map[], map[], map[], map[], map[])

  datatype StoreError = NotSerializable | ConstraintViolated | NotPending

  function Get<K, V>(m: map<K, V>, k: K): Option<V> {
    if k in m then Some(m[k]) else None
  }

  /* ---------- integrity: keys, references and alert flags ---------- */

  ghost predicate RunsTracked(db: Db) {
    forall r | r in db.runs :: db.runs[r].job in db.status
  }

  ghost predicate ObservationsOwned(db: Db) {
    forall k | k in db.observations :: k.0 in db.runs
  }

  /** PRIMARY KEY (run_id, opportunity_id); UNIQUE (run_id, position) is the map key. */
  ghost predicate ObservationsUnique(db: Db) {
    forall k, l | k in db.observations && l in db.observations && k.0 == l.0 && k != l ::
      db.observations[k].id != db.observations[l].id
  }

  ghost predicate TransitionsOwned(db: Db) {
    forall t | t in db.transitions :: db.transitions[t].run in db.runs
  }

  ghost predicate OutboxOwned(db: Db)
    requires TransitionsOwned(db)
  {
    forall n | n in db.outbox ::
      && db.outbox[n].transition in db.transitions
      && db.runs[db.transitions[db.outbox[n].transition].run].job == db.outbox[n].item.job
  }

  /** UNIQUE (transition_id, channel). */
  ghost predicate OutboxUnique(outbox: map<nat, Notification>) {
    forall m, n | m in outbox && n in outbox && m != n && outbox[m].transition == outbox[n].transition ::
      outbox[m].item.channel != outbox[n].item.channel
  }

  /** UNIQUE (alert_key, channel). */
  ghost predicate AlertsUnique(alerts: map<nat, Alert>) {
    forall a, b | a in alerts && b in alerts && a != b && alerts[a].key == alerts[b].key ::
      alerts[a].channel != alerts[b].channel
  }

  predicate Active(row: JobRow, key: AlertKey) {
    if key.CheckFailure? then row.failureAlertActive else row.deliveryAlertActive
  }

  /** Alert rows exist only while the matching flag of their job is set. */
  ghost predicate AlertsFlagged(status: map<Job, JobRow>, alerts: map<nat, Alert>) {
    forall a | a in alerts :: alerts[a].key.job in status && Active(status[alerts[a].key.job], alerts[a].key)
  }

  ghost predicate Consistent(db: Db) {
    && RunsTracked(db) && ObservationsOwned(db) && ObservationsUnique(db)
    && TransitionsOwned(db) && OutboxOwned(db) && OutboxUnique(db.outbox)
    && AlertsUnique(db.alerts) && AlertsFlagged(db.status, db.alerts)
  }

  /* ---------- reading ---------- */

  ghost function RunsOf(runs: map<nat, Run>, job: Job): set<nat> {
    set r | r in runs && runs[r].job == job
  }

  ghost function Positions(observations: map<(nat, nat), Opportunity>, run: nat): set<nat> {
    set k | k in observations && k.0 == run :: k.1
  }

  /** The observations of a run ordered by position. */
  ghost function Observed(observations: map<(nat, nat), Opportunity>, run: nat): seq<Opportunity> {
    var ps := Ascending(Positions(observations, run));
    seq(|ps|, i requires 0 <= i < |ps| => assert ps[i] in ps; observations[(run, ps[i])])
  }

  /** The snapshot of a job's run with the highest id. */
  ghost function LatestIn(
      runs: map<nat, Run>, observations: map<(nat, nat), Opportunity>, job: Job): Option<CheckResult>
  {
    var ids := RunsOf(runs, job);
    if ids == {} then None
    else Some(CheckResult(runs[MaxId(ids)].checkedAt, Observed(observations, MaxId(ids))))
  }

  ghost function Latest(db: Db, job: Job): Option<CheckResult> {
    LatestIn(db.runs, db.observations, job)
  }

  ghost function PendingIds(outbox: map<nat, Notification>): seq<nat> {
    Ascending(set n | n in outbox && outbox[n].deliveredAt.None?)
  }

  /** The undelivered notifications in id order. */
  ghost function Pending(outbox: map<nat, Notification>): (p: seq<Delivery>)
    ensures |p| == |PendingIds(outbox)|
  {
    var ids := PendingIds(outbox);
    seq(|ids|, i requires 0 <= i < |ids| => assert ids[i] in ids; outbox[ids[i]].item)
  }

  /* ---------- record_success ---------- */

  predicate Storable(opportunities: seq<Opportunity>) {
    forall i :: 0 <= i < |opportunities| ==> opportunities[i].attributes.Json?
  }

  /** The availability of an id in the last snapshot, if there is one. */
  function StatusIn(previous: Option<CheckResult>, id: string): Option<Availability> {
    if previous.None? then None else Status(previous.value.opportunities, id)
  }

  ghost function TransitionsSince(previous: Option<CheckResult>, result: CheckResult): seq<Transition> {
    if previous.None? then DetectInitial(result.opportunities)
    else Detect(previous.value.opportunities, result.opportunities)
  }

  function NewTransition(run: nat, t: Transition): TransitionRow {
    TransitionRow(run, t.id, t.kind, AvailabilityOf(t.previous), AvailabilityOf(t.current))
  }

  function NewTransitions(run: nat, ts: seq<Transition>): (rows: seq<TransitionRow>)
    ensures |rows| == |ts| && forall i | 0 <= i < |ts| :: rows[i] == NewTransition(run, ts[i])
  {
    seq(|ts|, i requires 0 <= i < |ts| => NewTransition(run, ts[i]))
  }

  /** Title and link come from the current state, or the previous one if vanished. */
  function NewDelivery(job: Job, at: Wall, t: Transition, channel: Channel): Delivery {
    var shown := if t.current.Some? then t.current else t.previous;
    Delivery(channel, job, t.kind, t.id,
             if shown.Some? then shown.value.title else "",
             AvailabilityOf(t.current),
             if shown.Some? then shown.value.bookingUrl else None,
             at, 0, None, None)
  }

  function Fanout(index: nat, job: Job, at: Wall, t: Transition, plan: Plan): (s: seq<(nat, Delivery)>)
    ensures if t.kind in plan.on
            then |s| == |plan.channels|
              && forall c | 0 <= c < |s| :: s[c] == (index, NewDelivery(job, at, t, plan.channels[c]))
            else s == []
  {
    if t.kind !in plan.on then [] else
      seq(|plan.channels|, c requires 0 <= c < |plan.channels| => (index, NewDelivery(job, at, t, plan.channels[c])))
  }

  /** What a plan selects: pairs of transition index and delivery. */
  function Enqueued(job: Job, at: Wall, ts: seq<Transition>, plan: Plan): seq<(nat, Delivery)> {
    if ts == [] then [] else
      var last := |ts| - 1;
      Enqueued(job, at, ts[..last], plan) + Fanout(last, job, at, ts[last], plan)
  }

  ghost function NewDeliveries(db: Db, job: Job, result: CheckResult, plan: Plan): seq<(nat, Delivery)> {
    Enqueued(job, result.checkedAt, TransitionsSince(Latest(db, job), result), plan)
  }

  function NewNotification(base: nat, e: (nat, Delivery)): Notification {
    Notification(base + e.0, e.1, None)
  }

  function NewNotifications(base: nat, es: seq<(nat, Delivery)>): (rows: seq<Notification>)
    ensures |rows| == |es| && forall i | 0 <= i < |es| :: rows[i] == NewNotification(base, es[i])
  {
    seq(|es|, i requires 0 <= i < |es| => NewNotification(base, es[i]))
  }

  function SuccessRow(row: Option<JobRow>, at: Wall): JobRow {
    if row.None? then JobRow(Some(at), None, 0, None, false, false)
    else row.value.(lastSuccessAt := Some(at), consecutiveFailures := 0, lastError := None, failureAlertActive := false)
  }

  function WithoutKey(alerts: map<nat, Alert>, key: AlertKey): map<nat, Alert> {
    map a | a in alerts && alerts[a].key != key :: alerts[a]
  }

  ghost function WithSnapshot(observations: map<(nat, nat), Opportunity>, run: nat, s: seq<Opportunity>)
    : map<(nat, nat), Opportunity>
  {
    if s == [] then observations else
      var last := |s| - 1;
      WithSnapshot(observations, run, s[..last])[(run, last) := s[last]]
  }

  lemma {:induction false} SnapshotRows(observations: map<(nat, nat), Opportunity>, run: nat, s: seq<Opportunity>)
    ensures forall k: (nat, nat) ::
      k in WithSnapshot(observations, run, s) <==> k in observations || (k.0 == run && k.1 < |s|)
    ensures forall k: (nat, nat) | k in WithSnapshot(observations, run, s) ::
              WithSnapshot(observations, run, s)[k] == if k.0 == run && k.1 < |s| then s[k.1] else observations[k]
  {
    if s != [] { SnapshotRows(observations, run, s[..|s| - 1]); }
  }

  ghost function AfterSuccess(db: Db, job: Job, result: CheckResult, plan: Plan): Db {
    var run := NextId(db.runs.Keys);
    var ts := TransitionsSince(Latest(db, job), result);
    Db(db.runs[run := Run(job, result.checkedAt)],
       WithSnapshot(db.observations, run, result.opportunities),
       Append(db.transitions, NewTransitions(run, ts)),
       Append(db.outbox, NewNotifications(NextId(db.transitions.Keys), Enqueued(job, result.checkedAt, ts, plan))),
       db.status[job := SuccessRow(Get(db.status, job), result.checkedAt)],
       WithoutKey(db.alerts, CheckFailure(job)))
  }

  /* ---------- record_check_failure ---------- */

  function FailureRow(row: Option<JobRow>, error: string, at: Wall): JobRow {
    if row.None? then JobRow(None, Some(at), 1, Some(Truncate(error, 2000)), false, false)
    else row.value.(lastFailureAt := Some(at), consecutiveFailures := row.value.consecutiveFailures + 1,
                    lastError := Some(Truncate(error, 2000)))
  }

  predicate Raises(row: JobRow, alertAfter: int) {
    row.consecutiveFailures >= alertAfter && !row.failureAlertActive
  }

  function NewAlerts(key: AlertKey, detail: AlertDetail, at: Wall, channels: seq<Channel>): (rows: seq<Alert>)
    ensures |rows| == |channels|
    ensures forall c | 0 <= c < |channels| :: rows[c] == Alert(key, channels[c], detail, at, 0, None, None)
  {
    seq(|channels|, c requires 0 <= c < |channels| => Alert(key, channels[c], detail, at, 0, None, None))
  }

  /**
   * The new row and whether an alert was raised. Repeated operational channels
   * violate UNIQUE (alert_key, channel) as soon as an alert is raised.
   */
  ghost function AfterFailure(db: Db, job: Job, error: string, at: Wall, alertAfter: int, channels: seq<Channel>)
    : Result<(Db, bool), StoreError>
  {
    var row := FailureRow(Get(db.status, job), error, at);
    if !Raises(row, alertAfter) then Success((db.(status := db.status[job := row]), false))
    else if !Distinct(channels) then Failure(ConstraintViolated)
    else
      var detail := Failures(row.consecutiveFailures, Truncate(error, 1000));
      Success((db.(status := db.status[job := row.(failureAlertActive := true)],
                   alerts := Append(db.alerts, NewAlerts(CheckFailure(job), detail, at, channels))), true))
  }

  /* ---------- raise_delivery_backlog_alerts ---------- */

  function CountFor(pending: seq<Delivery>, job: Job): nat {
    if pending == [] then 0 else
      var last := |pending| - 1;
      CountFor(pending[..last], job) + if pending[last].job == job then 1 else 0
  }

  function MaxAttempts(pending: seq<Delivery>, job: Job): nat {
    if pending == [] then 0 else
      var last := |pending| - 1;
      var m := MaxAttempts(pending[..last], job);
      if pending[last].job == job && pending[last].attempts > m then pending[last].attempts else m
  }

  predicate Backlogged(pending: seq<Delivery>, job: Job, alertAfter: int) {
    CountFor(pending, job) > 0 && MaxAttempts(pending, job) >= alertAfter
  }

  datatype Health = Health(status: map<Job, JobRow>, alerts: map<nat, Alert>, raised: seq<Job>)

  ghost function EvaluateJob(
      h: Health, pending: seq<Delivery>, job: Job, at: Wall, alertAfter: int, channels: seq<Channel>)
    : Result<Health, StoreError>
    requires job in h.status
  {
    var active, row := Backlogged(pending, job, alertAfter), h.status[job];
    var status := h.status[job := row.(deliveryAlertActive := active)];
    if active && !row.deliveryAlertActive then
      if !Distinct(channels) then Failure(ConstraintViolated) else
        var detail := Backlog(CountFor(pending, job), MaxAttempts(pending, job));
        Success(Health(status, Append(h.alerts, NewAlerts(DeliveryBacklog(job), detail, at, channels)),
                       h.raised + [job]))
    else if !active && row.deliveryAlertActive then
      Success(Health(status, WithoutKey(h.alerts, DeliveryBacklog(job)), h.raised))
    else Success(Health(status, h.alerts, h.raised))
  }

  /** Evaluates the jobs in the order in which the query returned their rows. */
  ghost function EvaluateBacklog(
      status: map<Job, JobRow>, alerts: map<nat, Alert>, pending: seq<Delivery>, order: seq<Job>, at: Wall,
      alertAfter: int, channels: seq<Channel>)
    : (r: Result<Health, StoreError>)
    requires forall j | j in order :: j in status
    ensures r.Success? ==> r.value.status.Keys == status.Keys
  {
    if order == [] then Success(Health(status, alerts, [])) else
      var last := |order| - 1;
      var before := EvaluateBacklog(status, alerts, pending, order[..last], at, alertAfter, channels);
      if before.Failure? then before
      else EvaluateJob(before.value, pending, order[last], at, alertAfter, channels)
  }

  /** `order` lists every job with a status row once. */
  ghost predicate Lists(order: seq<Job>, status: map<Job, JobRow>) {
    Distinct(order) && forall j :: j in order <==> j in status
  }

  /* ---------- delivery outcomes ---------- */

  function SettledItem(item: Delivery, at: Wall, error: Option<string>): Delivery {
    item.(attempts := item.attempts + 1, lastAttemptAt := Some(at),
          lastError := if error.None? then None else Some(Truncate(error.value, 2000)))
  }

  /** Marks delivered (`error` absent) or records a failed attempt, for pending rows only. */
  function AfterAttempt(outbox: map<nat, Notification>, id: nat, at: Wall, error: Option<string>)
    : Result<map<nat, Notification>, StoreError>
  {
    if id !in outbox || outbox[id].deliveredAt.Some? then Failure(NotPending)
    else Success(outbox[id := Notification(outbox[id].transition, SettledItem(outbox[id].item, at, error),
                                           if error.None? then Some(at) else None)])
  }

  /** One more attempt at this time; of the error the first 2000 characters are kept. Nothing else changes. */
  ghost predicate AttemptedOnce(before: Delivery, after: Delivery, at: Wall, failure: Option<string>) {
    && after.attempts == before.attempts + 1 && after.lastAttemptAt == Some(at)
    && (after.lastError.Some? <==> failure.Some?)
    && (failure.Some? ==> IsCut(after.lastError.value, failure.value, 2000))
    && before == after.(
         attempts := before.attempts, lastAttemptAt := before.lastAttemptAt, lastError := before.lastError)
  }

  /** A write-back is accepted iff the row is pending, and then settles that row and no other. */
  lemma {:induction false} WriteBackExact(outbox: map<nat, Notification>, id: nat, at: Wall, failure: Option<string>)
    ensures var r := AfterAttempt(outbox, id, at, failure);
      if id in outbox && outbox[id].deliveredAt.None?
      then
        && r.Success? && r.value.Keys == outbox.Keys
        && AttemptedOnce(outbox[id].item, r.value[id].item, at, failure)
        && r.value[id].deliveredAt == (if failure.None? then Some(at) else None)
        && r.value[id].transition == outbox[id].transition
        && forall n | n in outbox && n != id :: r.value[n] == outbox[n]
      else r == Failure(NotPending)
  {
  }

  function AfterAlertAttempt(alerts: map<nat, Alert>, id: nat, at: Wall, error: Option<string>)
    : Result<map<nat, Alert>, StoreError>
  {
    if id !in alerts || alerts[id].deliveredAt.Some? then Failure(NotPending)
    else
      var a := alerts[id];
      Success(alerts[id := a.(attempts := a.attempts + 1,
                              lastError := if error.None? then None else Some(Truncate(error.value, 2000)),
                              deliveredAt := if error.None? then Some(at) else None)])
  }

  /** The same for an alert, which does not remember when it was tried. */
  ghost predicate AlertAttemptedOnce(before: Alert, after: Alert, at: Wall, failure: Option<string>) {
    && after.attempts == before.attempts + 1
    && (after.lastError.Some? <==> failure.Some?)
    && (failure.Some? ==> IsCut(after.lastError.value, failure.value, 2000))
    && after.deliveredAt == (if failure.None? then Some(at) else None)
    && before == after.(attempts := before.attempts, lastError := before.lastError, deliveredAt := before.deliveredAt)
  }

  lemma {:induction false} AlertWriteBackExact(alerts: map<nat, Alert>, id: nat, at: Wall, failure: Option<string>)
    ensures var r := AfterAlertAttempt(alerts, id, at, failure);
      if id in alerts && alerts[id].deliveredAt.None?
      then
        && r.Success? && r.value.Keys == alerts.Keys && AlertAttemptedOnce(alerts[id], r.value[id], at, failure)
        && forall a | a in alerts && a != id :: r.value[a] == alerts[a]
      else r == Failure(NotPending)
  {
  }

  /* ---------- prune ---------- */

  ghost predicate Before(a: Wall, b: Wall) {
    WallMicros(a) < WallMicros(b)
  }

  /** Without the deliveries completed before the cutoff. */
  ghost function WithoutCompleted(db: Db, cutoff: Wall): Db {
    db.(outbox := map n | n in db.outbox
                          && !(db.outbox[n].deliveredAt.Some?
                            && Before(db.outbox[n].deliveredAt.value, cutoff)) :: db.outbox[n])
  }

  ghost predicate AwaitsDelivery(db: Db, run: nat) {
    exists n :: n in db.outbox && db.outbox[n].deliveredAt.None?
                && db.outbox[n].transition in db.transitions && db.transitions[db.outbox[n].transition].run == run
  }

  ghost predicate Expired(db: Db, run: nat, cutoff: Wall)
    requires run in db.runs
  {
    && Before(db.runs[run].checkedAt, cutoff)
    && run != MaxId(RunsOf(db.runs, db.runs[run].job))
    && !AwaitsDelivery(db, run)
  }

  /** Without some runs and, by cascade, everything they own. */
  ghost function WithoutRuns(db: Db, doomed: set<nat>): Db {
    var transitions := map t | t in db.transitions && db.transitions[t].run !in doomed :: db.transitions[t];
    db.(runs := map r | r in db.runs && r !in doomed :: db.runs[r],
        observations := map k | k in db.observations && k.0 !in doomed :: db.observations[k],
        transitions := transitions,
        outbox := map n | n in db.outbox && db.outbox[n].transition in transitions :: db.outbox[n])
  }

  ghost function ExpiredRuns(db: Db, cutoff: Wall): set<nat> {
    set r | r in db.runs && Expired(db, r, cutoff)
  }

  /** Deletes old completed deliveries, then expired runs with all they own. */
  ghost function AfterPrune(db: Db, observationsBefore: Wall, notificationsBefore: Wall): Db {
    var rest := WithoutCompleted(db, notificationsBefore);
    WithoutRuns(rest, ExpiredRuns(rest, observationsBefore))
  }
}
