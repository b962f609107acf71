/**
 * What a recorded success writes besides the snapshot, told by the two
 * snapshots: one transition row per change and one pending delivery per
 * selected change and channel.
 */
module Deliveries {
  import opened Prelude
  import opened RowOrder
  import opened IsoTime
  import opened Snapshots
  import opened Tables
  import opened Integrity
  import opened Refinement
  import opened Runs

  /** How the change of one id is reported; a first snapshot reports what is available. */
  predicate ReportedAs(kind: Kind, first: bool, before: Option<Availability>, now: Option<Availability>) {
    if first then kind == InitiallyAvailable && now == Some(Available)
    else
      before != now &&
      match kind
      case Appeared => before.None?
      case Disappeared => now.None?
      case BecameAvailable => before.Some? && now == Some(Available)
      case BecameUnavailable => before.Some? && now == Some(Unavailable)
      case AvailabilityUnknown => before.Some? && now == Some(Unknown)
      case InitiallyAvailable => false
  }

  ghost predicate Changed(previous: Option<CheckResult>, result: CheckResult, id: string, kind: Kind) {
    ReportedAs(kind, previous.None?, StatusIn(previous, id), Status(result.opportunities, id))
  }

  /** Snapshots as drivers and the store give them: no id twice. */
  predicate Proper(previous: Option<CheckResult>, result: CheckResult) {
    (previous.Some? ==> UniqueIds(previous.value.opportunities)) && UniqueIds(result.opportunities)
  }

  /** The opportunity that title and link are taken from. */
  function Shown(previous: Option<CheckResult>, result: CheckResult, id: string): Option<Opportunity> {
    if At(result.opportunities, id).Some? || previous.None? then At(result.opportunities, id)
    else At(previous.value.opportunities, id)
  }

  lemma {:induction false} TransitionTells(previous: Option<CheckResult>, result: CheckResult, t: Transition)
    requires Proper(previous, result) && t in TransitionsSince(previous, result)
    ensures Changed(previous, result, t.id, t.kind)
    ensures AvailabilityOf(t.previous) == StatusIn(previous, t.id)
    ensures AvailabilityOf(t.current) == Status(result.opportunities, t.id)
    ensures Shown(previous, result, t.id).Some?
    ensures Shown(previous, result, t.id) == if t.current.Some? then t.current else t.previous
  {
    if previous.None? {
      InitialExact(result.opportunities);
      assert Mentions(TransitionsSince(previous, result), t.id);
    } else {
      DetectExact(previous.value.opportunities, result.opportunities);
      KindMeans(previous.value.opportunities, result.opportunities, t);
      assert Records(t, previous.value.opportunities, result.opportunities);
    }
  }

  lemma {:induction false} KindIsDetermined(
      first: bool, before: Option<Availability>, now: Option<Availability>, k: Kind, l: Kind)
    requires ReportedAs(k, first, before, now) && ReportedAs(l, first, before, now)
    ensures k == l
  {
    match k
    case Appeared =>
    case Disappeared =>
    case BecameAvailable =>
    case BecameUnavailable =>
    case AvailabilityUnknown =>
    case InitiallyAvailable =>
  }

  lemma {:induction false} TransitionFor(
      previous: Option<CheckResult>, result: CheckResult, id: string, kind: Kind) returns (i: nat)
    requires Proper(previous, result) && Changed(previous, result, id, kind)
    ensures i < |TransitionsSince(previous, result)|
    ensures TransitionsSince(previous, result)[i].id == id && TransitionsSince(previous, result)[i].kind == kind
  {
    var ts := TransitionsSince(previous, result);
    if previous.None? { InitialExact(result.opportunities); }
    else { DetectExact(previous.value.opportunities, result.opportunities); }
    assert Mentions(ts, id);
    i :| 0 <= i < |ts| && ts[i].id == id;
    TransitionTells(previous, result, ts[i]);
    KindIsDetermined(previous.None?, StatusIn(previous, id), Status(result.opportunities, id), ts[i].kind, kind);
  }

  /* ---------- deliveries ---------- */

  /** A fresh delivery about a selected change. */
  ghost predicate Tells(item: Delivery, job: Job, previous: Option<CheckResult>, result: CheckResult, plan: Plan) {
    var shown := Shown(previous, result, item.opportunity);
    && item.job == job && item.channel in plan.channels && item.kind in plan.on
    && item.checkedAt == result.checkedAt
    && Changed(previous, result, item.opportunity, item.kind)
    && item.current == Status(result.opportunities, item.opportunity)
    && shown.Some? && item.title == shown.value.title && item.bookingUrl == shown.value.bookingUrl
    && item.attempts == 0 && item.lastAttemptAt.None? && item.lastError.None?
  }

  lemma {:induction false} SelectedTells(
      e: (nat, Delivery), job: Job, previous: Option<CheckResult>, result: CheckResult, plan: Plan)
    requires Proper(previous, result)
    requires SelectedAs(e, job, result.checkedAt, TransitionsSince(previous, result), plan)
    ensures Tells(e.1, job, previous, result, plan)
    ensures var t := TransitionsSince(previous, result)[e.0]; e.1.opportunity == t.id && e.1.kind == t.kind
  {
    TransitionTells(previous, result, TransitionsSince(previous, result)[e.0]);
  }

  lemma {:induction false} LatestIsProper(db: Db, job: Job, result: CheckResult)
    requires Consistent(db) && UniqueIds(result.opportunities)
    ensures Proper(Latest(db, job), result)
  {
    if Latest(db, job).Some? { LatestIdsAreUnique(db, job); }
  }

  /** A success leaves what was pending and adds these deliveries behind it. */
  ghost predicate Adds(db: Db, job: Job, result: CheckResult, plan: Plan, added: seq<Delivery>)
    requires UniqueIds(result.opportunities)
  {
    Pending(Apply(db, RecordSuccess(job, result, plan)).0.outbox) == Pending(db.outbox) + added
  }

  lemma {:induction false} AddsEnqueued(db: Db, job: Job, result: CheckResult, plan: Plan, added: seq<Delivery>)
    requires Consistent(db) && UniqueIds(result.opportunities) && Storable(result.opportunities)
    requires Adds(db, job, result, plan, added)
    ensures added == Items(NewDeliveries(db, job, result, plan))
  {
    SuccessEnqueuesExactly(db, job, result, plan);
    var queue := Pending(db.outbox) + added;
    assert queue[|Pending(db.outbox)|..] == added;
    assert queue[|Pending(db.outbox)|..] == Items(NewDeliveries(db, job, result, plan));
  }

  lemma {:induction false} ItemsTell(job: Job, previous: Option<CheckResult>, result: CheckResult, plan: Plan)
    requires Proper(previous, result)
    ensures forall item | item in Items(Enqueued(job, result.checkedAt, TransitionsSince(previous, result), plan)) ::
              Tells(item, job, previous, result, plan)
  {
    var es := Enqueued(job, result.checkedAt, TransitionsSince(previous, result), plan);
    EnqueuedSound(job, result.checkedAt, TransitionsSince(previous, result), plan);
    forall item | item in Items(es) ensures Tells(item, job, previous, result, plan) {
      var i :| 0 <= i < |es| && Items(es)[i] == item;
      assert es[i] in es;
      SelectedTells(es[i], job, previous, result, plan);
    }
  }

  /** An item about this change on this channel. */
  predicate IsAbout(item: Delivery, id: string, kind: Kind, channel: Channel) {
    item.opportunity == id && item.kind == kind && item.channel == channel
  }

  lemma {:induction false} ItemFor(
      job: Job, previous: Option<CheckResult>, result: CheckResult, plan: Plan,
      id: string, kind: Kind, channel: Channel)
    returns (item: Delivery)
    requires Proper(previous, result) && Changed(previous, result, id, kind)
    requires kind in plan.on && channel in plan.channels
    ensures item in Items(Enqueued(job, result.checkedAt, TransitionsSince(previous, result), plan))
    ensures IsAbout(item, id, kind, channel)
  {
    var ts := TransitionsSince(previous, result);
    var es := Enqueued(job, result.checkedAt, ts, plan);
    var k := TransitionFor(previous, result, id, kind);
    item := NewDelivery(job, result.checkedAt, ts[k], channel);
    EnqueuedComplete(job, result.checkedAt, ts, plan, k, channel);
    var m :| 0 <= m < |es| && es[m] == (k, item);
    assert Items(es)[m] == item;
  }

  /**
   * What a recorded success adds to the queue: deliveries about selected changes
   * only, each telling the current state (or the last one of what is gone), and
   * one about every selected change on every channel.
   */
  lemma {:induction false} NewDeliveriesTell(db: Db, job: Job, result: CheckResult, plan: Plan, added: seq<Delivery>)
    requires Consistent(db) && UniqueIds(result.opportunities) && Storable(result.opportunities)
    requires Adds(db, job, result, plan, added)
    ensures forall item | item in added :: Tells(item, job, Latest(db, job), result, plan)
    ensures forall id, kind, channel |
              Changed(Latest(db, job), result, id, kind) && kind in plan.on && channel in plan.channels ::
              exists item :: item in added && IsAbout(item, id, kind, channel)
  {
    AddsEnqueued(db, job, result, plan, added);
    LatestIsProper(db, job, result);
    ItemsTell(job, Latest(db, job), result, plan);
    forall id, kind, channel |
      Changed(Latest(db, job), result, id, kind) && kind in plan.on && channel in plan.channels
      ensures exists item :: item in added && IsAbout(item, id, kind, channel)
    {
      var item := ItemFor(job, Latest(db, job), result, plan, id, kind, channel);
    }
  }

  /** One transition after the other, each on the channels in their order. */
  ghost predicate InPlanOrder(es: seq<(nat, Delivery)>, plan: Plan) {
    forall i, j | 0 <= i < j < |es| :: ComesBefore(es[i], es[j], plan)
  }

  ghost predicate ComesBefore(e: (nat, Delivery), f: (nat, Delivery), plan: Plan) {
    e.0 < f.0 || (e.0 == f.0 && exists c, d ::
      0 <= c < d < |plan.channels| && plan.channels[c] == e.1.channel && plan.channels[d] == f.1.channel)
  }

  lemma {:induction false} EnqueuedInOrder(job: Job, at: Wall, ts: seq<Transition>, plan: Plan)
    ensures InPlanOrder(Enqueued(job, at, ts, plan), plan)
  {
    if ts != [] {
      var last := |ts| - 1;
      EnqueuedInOrder(job, at, ts[..last], plan);
      EnqueuedOwners(job, at, ts[..last], plan);
      FanoutInOrder(Enqueued(job, at, ts[..last], plan), job, at, last, ts[last], plan);
    }
  }

  lemma {:induction false} FanoutInOrder(
      before: seq<(nat, Delivery)>, job: Job, at: Wall, last: nat, t: Transition, plan: Plan)
    requires InPlanOrder(before, plan) && forall e | e in before :: e.0 < last
    ensures InPlanOrder(before + Fanout(last, job, at, t, plan), plan)
  {
    var step := Fanout(last, job, at, t, plan);
    var es := before + step;
    forall i, j | 0 <= i < j < |es| ensures ComesBefore(es[i], es[j], plan) {
      if |before| <= i {
        var c, d := i - |before|, j - |before|;
        assert plan.channels[c] == es[i].1.channel && plan.channels[d] == es[j].1.channel;
      } else {
        assert es[i] in before;
      }
    }
  }

  /** One channel of the plan comes before the other. */
  ghost predicate ChannelBefore(plan: Plan, one: Channel, other: Channel) {
    exists c, d :: 0 <= c < d < |plan.channels| && plan.channels[c] == one && plan.channels[d] == other
  }

  /** One opportunity is reported before the other. */
  ghost predicate ReportedBefore(ts: seq<Transition>, one: string, other: string) {
    exists k, l :: 0 <= k < l < |ts| && ts[k].id == one && ts[l].id == other
  }

  /**
   * Two deliveries about one opportunity go to different channels, in the order
   * of the plan; others follow the order of the report.
   */
  ghost predicate DeliveredBefore(one: Delivery, other: Delivery, ts: seq<Transition>, plan: Plan) {
    if one.opportunity == other.opportunity then ChannelBefore(plan, one.channel, other.channel)
    else ReportedBefore(ts, one.opportunity, other.opportunity)
  }

  lemma {:induction false} PairInOrder(
      e: (nat, Delivery), f: (nat, Delivery), job: Job, at: Wall, ts: seq<Transition>, plan: Plan)
    requires DistinctSubjects(ts) && ComesBefore(e, f, plan)
    requires SelectedAs(e, job, at, ts, plan) && SelectedAs(f, job, at, ts, plan)
    ensures DeliveredBefore(e.1, f.1, ts, plan)
  {
    assert ts[e.0].id == e.1.opportunity && ts[f.0].id == f.1.opportunity;
  }

  lemma {:induction false} EnqueuedPair(job: Job, at: Wall, ts: seq<Transition>, plan: Plan, i: nat, j: nat)
    requires DistinctSubjects(ts) && i < j < |Enqueued(job, at, ts, plan)|
    ensures DeliveredBefore(Enqueued(job, at, ts, plan)[i].1, Enqueued(job, at, ts, plan)[j].1, ts, plan)
  {
    var es := Enqueued(job, at, ts, plan);
    assert es[i] in es && es[j] in es;
    EnqueuedSound(job, at, ts, plan);
    EnqueuedInOrder(job, at, ts, plan);
    PairInOrder(es[i], es[j], job, at, ts, plan);
  }

  /** These deliveries come in this order. */
  ghost predicate DeliveredInOrder(items: seq<Delivery>, ts: seq<Transition>, plan: Plan) {
    forall i, j | 0 <= i < j < |items| :: DeliveredBefore(items[i], items[j], ts, plan)
  }

  lemma {:induction false} EnqueuedAreInOrder(job: Job, at: Wall, ts: seq<Transition>, plan: Plan)
    requires DistinctSubjects(ts)
    ensures DeliveredInOrder(Items(Enqueued(job, at, ts, plan)), ts, plan)
  {
    var es := Enqueued(job, at, ts, plan);
    forall i, j | 0 <= i < j < |Items(es)| ensures DeliveredBefore(Items(es)[i], Items(es)[j], ts, plan) {
      EnqueuedPair(job, at, ts, plan, i, j);
    }
  }

  /** The new deliveries of a success come in this order, none of them twice. */
  lemma {:induction false} DeliveriesInOrder(db: Db, job: Job, result: CheckResult, plan: Plan, added: seq<Delivery>)
    requires Consistent(db) && UniqueIds(result.opportunities) && Storable(result.opportunities)
    requires Adds(db, job, result, plan, added)
    ensures DeliveredInOrder(added, TransitionsSince(Latest(db, job), result), plan)
  {
    AddsEnqueued(db, job, result, plan, added);
    LatestIsProper(db, job, result);
    SubjectsDiffer(Latest(db, job), result);
    EnqueuedAreInOrder(job, result.checkedAt, TransitionsSince(Latest(db, job), result), plan);
  }

  /** A success always adds to the queue, if only nothing. */
  lemma {:induction false} SuccessAdds(db: Db, job: Job, result: CheckResult, plan: Plan) returns (added: seq<Delivery>)
    requires Consistent(db) && UniqueIds(result.opportunities) && Storable(result.opportunities)
    ensures Adds(db, job, result, plan, added)
  {
    SuccessEnqueuesExactly(db, job, result, plan);
    added := Items(NewDeliveries(db, job, result, plan));
  }

  lemma {:induction false} SubjectsDiffer(previous: Option<CheckResult>, result: CheckResult)
    requires Proper(previous, result)
    ensures DistinctSubjects(TransitionsSince(previous, result))
  {
    if previous.None? { InitialExact(result.opportunities); }
    else { DetectExact(previous.value.opportunities, result.opportunities); }
  }

  /* ---------- persisted transitions ---------- */

  /** A row of the new run about one change. */
  ghost predicate RowTells(row: TransitionRow, run: nat, previous: Option<CheckResult>, result: CheckResult) {
    && row.run == run && Changed(previous, result, row.id, row.kind)
    && row.previous == StatusIn(previous, row.id) && row.current == Status(result.opportunities, row.id)
  }

  lemma {:induction false} AppendedRowTells(
      table: map<nat, TransitionRow>, run: nat, previous: Option<CheckResult>, result: CheckResult, t: nat)
    requires Proper(previous, result)
    ensures var after := Append(table, NewTransitions(run, TransitionsSince(previous, result)));
      && (t in table ==> t in after && after[t] == table[t])
      && (t in after && t !in table ==> RowTells(after[t], run, previous, result))
  {
    var ts := TransitionsSince(previous, result);
    AppendedRow(table, NewTransitions(run, ts), t);
    var i := t - NextId(table.Keys);
    if 0 <= i < |ts| { TransitionTells(previous, result, ts[i]); }
  }

  /** The new transition rows are those of the changes, and the old ones stay. */
  lemma {:induction false} TransitionRowsTell(db: Db, job: Job, result: CheckResult, plan: Plan, t: nat)
    requires Consistent(db) && UniqueIds(result.opportunities)
    ensures var after := AfterSuccess(db, job, result, plan).transitions;
      && (t in db.transitions ==> t in after && after[t] == db.transitions[t])
      && (t in after && t !in db.transitions ==>
            RowTells(after[t], NextId(db.runs.Keys), Latest(db, job), result))
  {
    LatestIsProper(db, job, result);
    AppendedRowTells(db.transitions, NextId(db.runs.Keys), Latest(db, job), result, t);
  }

  lemma {:induction false} RowFor(
      table: map<nat, TransitionRow>, run: nat, previous: Option<CheckResult>, result: CheckResult,
      id: string, kind: Kind)
    returns (t: nat)
    requires Proper(previous, result) && Changed(previous, result, id, kind)
    ensures var after := Append(table, NewTransitions(run, TransitionsSince(previous, result)));
            t in after && t !in table && after[t].id == id && after[t].kind == kind
  {
    var i := TransitionFor(previous, result, id, kind);
    t := NextId(table.Keys) + i;
    TransitionRowAt(table, run, TransitionsSince(previous, result), i);
  }

  /** Every change has its row. */
  lemma {:induction false} EveryChangeIsPersisted(
      db: Db, job: Job, result: CheckResult, plan: Plan, id: string, kind: Kind) returns (t: nat)
    requires Consistent(db) && UniqueIds(result.opportunities) && Changed(Latest(db, job), result, id, kind)
    ensures var after := AfterSuccess(db, job, result, plan).transitions;
            t in after && t !in db.transitions && after[t].id == id && after[t].kind == kind
  {
    LatestIsProper(db, job, result);
    t := RowFor(db.transitions, NextId(db.runs.Keys), Latest(db, job), result, id, kind);
  }

  ghost predicate RefersToItsChange(
      row: Notification, before: map<nat, TransitionRow>, after: map<nat, TransitionRow>)
  {
    && row.deliveredAt.None? && row.transition in after && row.transition !in before
    && after[row.transition].id == row.item.opportunity && after[row.transition].kind == row.item.kind
  }

  lemma {:induction false} TransitionRowAt(table: map<nat, TransitionRow>, run: nat, ts: seq<Transition>, i: nat)
    requires i < |ts|
    ensures var after, t := Append(table, NewTransitions(run, ts)), NextId(table.Keys) + i;
            t in after && t !in table && after[t].id == ts[i].id && after[t].kind == ts[i].kind
  {
    AppendedRow(table, NewTransitions(run, ts), NextId(table.Keys) + i);
  }

  lemma {:induction false} NewRowRefers(
      table: map<nat, TransitionRow>, run: nat, job: Job, at: Wall, ts: seq<Transition>, plan: Plan, e: (nat, Delivery))
    requires SelectedAs(e, job, at, ts, plan)
    ensures RefersToItsChange(NewNotification(NextId(table.Keys), e), table, Append(table, NewTransitions(run, ts)))
  {
    TransitionRowAt(table, run, ts, e.0);
  }

  lemma {:induction false} AppendedRefer(
      table: map<nat, TransitionRow>, queue: map<nat, Notification>, run: nat, job: Job, at: Wall,
      ts: seq<Transition>, plan: Plan, n: nat)
    requires n in Append(queue, NewNotifications(NextId(table.Keys), Enqueued(job, at, ts, plan))) && n !in queue
    ensures RefersToItsChange(Append(queue, NewNotifications(NextId(table.Keys), Enqueued(job, at, ts, plan)))[n],
                              table, Append(table, NewTransitions(run, ts)))
  {
    var es := Enqueued(job, at, ts, plan);
    AppendedRow(queue, NewNotifications(NextId(table.Keys), es), n);
    var e := es[n - NextId(queue.Keys)];
    assert e in es;
    EnqueuedSound(job, at, ts, plan);
    NewRowRefers(table, run, job, at, ts, plan, e);
  }

  /** A new notification refers to the row of the change it tells. */
  lemma {:induction false} NotificationsReferToTheirChange(db: Db, job: Job, result: CheckResult, plan: Plan, n: nat)
    requires n in AfterSuccess(db, job, result, plan).outbox && n !in db.outbox
    ensures var after := AfterSuccess(db, job, result, plan);
            RefersToItsChange(after.outbox[n], db.transitions, after.transitions)
  {
    AppendedRefer(db.transitions, db.outbox, NextId(db.runs.Keys), job, result.checkedAt,
                  TransitionsSince(Latest(db, job), result), plan, n);
  }
}
