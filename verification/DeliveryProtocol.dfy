/**
 * Dispatch passes interleaved at `await notifier.send`, with store calls,
 * cancelled passes and crashes anywhere in between. Row ids are reused, so
 * every inserted notification also gets a fresh token that names it in the
 * properties; the program sees ids only.
 */
module DeliveryProtocol {
  import opened Prelude
  import opened RowOrder
  import opened IsoTime
  import opened Snapshots
  import opened Tables
  import opened Integrity
  import opened Refinement
  import opened Dispatch

  /** A row a pass has listed: the id it will use and the row it meant. */
  datatype Flight = Flight(id: nat, token: nat)

  /** Between items, or past `send` with its outcome, about to write it back. */
  datatype Phase = Idle | SendReturned(ok: bool)

  datatype PassState = PassState(queue: seq<Flight>, phase: Phase)

  datatype World = World(
    db: Db, births: map<nat, nat>, issued: set<nat>, minted: nat,
    passes: map<nat, PassState>, sent: seq<nat>, done: set<nat>)

  datatype Event =
    | Call(op: Op)
    | Begin(pass: nat, limit: int)
    | Send(pass: nat, ok: bool)
    | Settle(pass: nat, at: Wall, error: string)
    | Die(pass: nat)
    | Crash

  ghost function Start(): World {
    World(EMPTY, map[], {}, 0, map[], [], {})
  }

  ghost predicate Enabled(w: World, e: Event) {
    match e
    case Call(op) => !op.SettleDelivery? && Applicable(w.db.status, op)
    case Begin(p, _) => p !in w.passes
    case Send(p, _) => p in w.passes && w.passes[p].queue != [] && w.passes[p].phase.Idle?
    case Settle(p, _, _) => p in w.passes && w.passes[p].queue != [] && w.passes[p].phase.SendReturned?
    case Die(p) => p in w.passes
    case Crash => true
  }

  ghost function BirthsAfter(w: World, after: map<nat, Notification>): map<nat, nat> {
    map n | n in after :: if n in w.births then w.births[n] else w.minted + n
  }

  function TokenOf(births: map<nat, nat>, id: nat): nat {
    if id in births then births[id] else 0
  }

  function Flights(ids: seq<nat>, births: map<nat, nat>): (q: seq<Flight>)
    ensures |q| == |ids| && forall i | 0 <= i < |ids| :: q[i] == Flight(ids[i], TokenOf(births, ids[i]))
  {
    seq(|ids|, i requires 0 <= i < |ids| => Flight(ids[i], TokenOf(births, ids[i])))
  }

  ghost function AfterCall(w: World, op: Op): World
    requires Applicable(w.db.status, op)
  {
    var db := Apply(w.db, op).0;
    var births := BirthsAfter(w, db.outbox);
    w.(db := db, births := births, issued := w.issued + births.Values, minted := w.minted + NextId(db.outbox.Keys))
  }

  ghost function AfterSettle(w: World, p: nat, at: Wall, error: string): World
    requires Enabled(w, Settle(p, at, error))
  {
    var s := w.passes[p];
    var head, ok := s.queue[0], s.phase.ok;
    var r := AfterAttempt(w.db.outbox, head.id, at, if ok then None else Some(error));
    if r.Failure? then w.(passes := w.passes - {p})  // the pass ends with StorageError
    else
      w.(db := w.db.(outbox := r.value),
         passes := w.passes[p := PassState(s.queue[1..], Idle)],
         done := if ok then w.done + {TokenOf(w.births, head.id)} else w.done)
  }

  ghost function Next(w: World, e: Event): World
    requires Enabled(w, e)
  {
    match e
    case Call(op) => AfterCall(w, op)
    case Begin(p, limit) =>
      w.(passes := w.passes[p := PassState(Flights(Listed(w.db.outbox, limit), w.births), Idle)])
    case Send(p, ok) =>
      var s := w.passes[p];
      w.(passes := w.passes[p := s.(phase := SendReturned(ok))],
         sent := if ok then w.sent + [s.queue[0].token] else w.sent)
    case Settle(p, at, error) => AfterSettle(w, p, at, error)
    case Die(p) => w.(passes := w.passes - {p})
    case Crash => w.(passes := map[])
  }

  /* ---------- safety ---------- */

  ghost predicate Named(w: World) {
    && w.births.Keys == w.db.outbox.Keys
    && Injective(w.births)
    && (forall n | n in w.births :: w.births[n] in w.issued)
    && (forall t | t in w.issued :: t < w.minted)
  }

  ghost predicate Injective(births: map<nat, nat>) {
    forall m, n | m in births && n in births && m != n :: births[m] != births[n]
  }

  ghost predicate PendingAs(outbox: map<nat, Notification>, births: map<nat, nat>, t: nat) {
    exists n :: n in outbox && n in births && births[n] == t && outbox[n].deliveredAt.None?
  }

  /** Every enqueued delivery is still pending or has been marked delivered. */
  ghost predicate Accounted(outbox: map<nat, Notification>, births: map<nat, nat>, issued: set<nat>, done: set<nat>) {
    && (forall t | t in issued :: t in done || PendingAs(outbox, births, t))
    && (forall n | n in births && n in outbox :: births[n] in done <==> outbox[n].deliveredAt.Some?)
    && done <= issued
  }

  ghost predicate QueueIssued(q: seq<Flight>, issued: set<nat>) {
    forall i | 0 <= i < |q| :: q[i].token in issued
  }

  /** Passes hold and send issued notifications only; a pass past a successful send has sent its head. */
  ghost predicate Known(w: World) {
    && (forall t | t in w.sent :: t in w.issued)
    && (forall p | p in w.passes :: QueueIssued(w.passes[p].queue, w.issued))
    && (forall p | p in w.passes && w.passes[p].phase == SendReturned(true) ::
          w.passes[p].queue != [] && w.passes[p].queue[0].token in w.sent)
  }

  /** What every run keeps, whatever interleaves: nothing enqueued is lost. */
  ghost predicate Sound(w: World) {
    Consistent(w.db) && Named(w) && Accounted(w.db.outbox, w.births, w.issued, w.done) && Known(w)
  }

  /** Whatever is marked delivered was sent. */
  ghost predicate AllSent(w: World) {
    forall t | t in w.done :: t in w.sent
  }

  /** What a store call does to the notification rows. */
  ghost predicate RowsFramed(before: map<nat, Notification>, after: map<nat, Notification>, prune: bool) {
    && (forall n | n in before && n in after :: after[n] == before[n])
    && (forall n | n in before && n !in after :: prune && before[n].deliveredAt.Some?)
    && (forall n | n in after && n !in before :: after[n].deliveredAt.None?)
  }

  lemma {:induction false} SuccessFrames(db: Db, job: Job, result: CheckResult, plan: Plan)
    ensures RowsFramed(db.outbox, AfterSuccess(db, job, result, plan).outbox, false)
  {
    var ts := TransitionsSince(Latest(db, job), result);
    AppendedRows(db.outbox, NewNotifications(NextId(db.transitions.Keys), Enqueued(job, result.checkedAt, ts, plan)));
  }

  lemma {:induction false} CallFrames(db: Db, op: Op)
    requires Consistent(db) && Applicable(db.status, op) && !op.SettleDelivery?
    ensures RowsFramed(db.outbox, Apply(db, op).0.outbox, op.Prune?)
  {
    if op.RecordSuccess? { SuccessFrames(db, op.job, op.result, op.plan); }
    else if op.Prune? { PruneKeepsWhatMatters(db, op.observationsBefore, op.notificationsBefore); }
    else { OutboxUntouched(db, op); }
  }

  lemma {:induction false} OutboxUntouched(db: Db, op: Op)
    requires Applicable(db.status, op) && !op.SettleDelivery? && !op.RecordSuccess? && !op.Prune?
    ensures Apply(db, op).0.outbox == db.outbox
  {
  }

  lemma {:induction false} CallKeepsNamed(w: World, op: Op)
    requires Sound(w) && Enabled(w, Call(op))
    ensures Named(AfterCall(w, op))
  {
    var outbox := Apply(w.db, op).0.outbox;
    NewNames(w, outbox);
    forall t | t in w.issued + BirthsAfter(w, outbox).Values
      ensures t < w.minted + NextId(outbox.Keys)
    {
      if t !in w.issued { NewNamesBounded(w, outbox, t); }
    }
  }

  /** Whatever rows a call leaves, their names are distinct and among those issued by then. */
  lemma {:induction false} NewNames(w: World, outbox: map<nat, Notification>)
    requires Named(w)
    ensures Injective(BirthsAfter(w, outbox))
    ensures var births := BirthsAfter(w, outbox); forall n | n in births :: births[n] in w.issued + births.Values
  {
    var births := BirthsAfter(w, outbox);
    forall n | n in births ensures births[n] in births.Values {
      assert n in births.Keys;
    }
  }

  lemma {:induction false} NewNamesBounded(w: World, outbox: map<nat, Notification>, t: nat)
    requires Named(w) && t in BirthsAfter(w, outbox).Values
    ensures t < w.minted + NextId(outbox.Keys)
  {
    var n :| n in BirthsAfter(w, outbox) && BirthsAfter(w, outbox)[n] == t;
    assert n in outbox.Keys;
  }

  lemma {:induction false} CallKeepsAccounted(w: World, op: Op)
    requires Sound(w) && Enabled(w, Call(op))
    ensures var after := AfterCall(w, op); Accounted(after.db.outbox, after.births, after.issued, after.done)
  {
    CallFrames(w.db, op);
    var after := AfterCall(w, op);
    forall t | t in after.issued && t !in after.done
      ensures PendingAs(after.db.outbox, after.births, t)
    {
      if t in w.issued {
        var n :| n in w.db.outbox && n in w.births && w.births[n] == t && w.db.outbox[n].deliveredAt.None?;
        assert n in after.db.outbox && after.births[n] == t;
      } else {
        var n :| n in after.births && after.births[n] == t;
        assert n !in w.births;
      }
    }
    forall n | n in after.births && n in after.db.outbox
      ensures after.births[n] in after.done <==> after.db.outbox[n].deliveredAt.Some?
    {
      assert n in w.births || after.births[n] >= w.minted;
    }
  }

  lemma {:induction false} CallKeepsSound(w: World, op: Op)
    requires Sound(w) && Enabled(w, Call(op))
    ensures Sound(AfterCall(w, op))
  {
    ApplyRefinesStep(w.db, op);
    CallKeepsNamed(w, op);
    CallKeepsAccounted(w, op);
    IssuedGrows(w, w.issued + AfterCall(w, op).births.Values);
  }

  lemma {:induction false} IssuedGrows(w: World, issued: set<nat>)
    requires Known(w) && w.issued <= issued
    ensures Known(w.(issued := issued))
  {
    forall p | p in w.passes ensures QueueIssued(w.passes[p].queue, issued) {
      assert QueueIssued(w.passes[p].queue, w.issued);
    }
  }

  lemma {:induction false} ListedAreIssued(w: World, limit: int)
    requires Named(w)
    ensures QueueIssued(Flights(Listed(w.db.outbox, limit), w.births), w.issued)
    ensures QueueCurrent(w.births, Flights(Listed(w.db.outbox, limit), w.births))
  {
    var ids := Listed(w.db.outbox, limit);
    ListedFacts(w.db.outbox, limit);
    forall i | 0 <= i < |ids|
      ensures ids[i] in w.births
    {
      assert ids[i] in ids;
    }
  }

  /** Writing back an outcome keeps the account, with the token moved to done on delivery. */
  lemma {:induction false} AttemptKeepsAccounted(
      outbox: map<nat, Notification>, births: map<nat, nat>, issued: set<nat>, done: set<nat>, id: nat, at: Wall,
      failure: Option<string>)
    requires Accounted(outbox, births, issued, done) && Injective(births)
    requires id in births && births[id] in issued && AfterAttempt(outbox, id, at, failure).Success?
    ensures Accounted(AfterAttempt(outbox, id, at, failure).value, births, issued,
                      if failure.None? then done + {births[id]} else done)
  {
    var after := AfterAttempt(outbox, id, at, failure).value;
    forall t | t in issued && t !in done && (failure.None? ==> t != births[id])
      ensures PendingAs(after, births, t)
    {
      var n :| n in outbox && n in births && births[n] == t && outbox[n].deliveredAt.None?;
      assert n in after && after[n].deliveredAt.None?;
    }
  }

  lemma {:induction false} SettleKeepsAccounted(w: World, p: nat, at: Wall, error: string)
    requires Sound(w) && Enabled(w, Settle(p, at, error))
    ensures var after := AfterSettle(w, p, at, error);
            Accounted(after.db.outbox, after.births, after.issued, after.done)
  {
    var s := w.passes[p];
    var failure := if s.phase.ok then None else Some(error);
    if AfterAttempt(w.db.outbox, s.queue[0].id, at, failure).Success? {
      AttemptKeepsAccounted(w.db.outbox, w.births, w.issued, w.done, s.queue[0].id, at, failure);
    }
  }

  lemma {:induction false} SettleKeepsKnown(w: World, p: nat, at: Wall, error: string)
    requires Known(w) && Enabled(w, Settle(p, at, error))
    ensures Known(AfterSettle(w, p, at, error))
  {
    assert QueueIssued(w.passes[p].queue, w.issued);
  }

  lemma {:induction false} SettleKeepsNamed(w: World, p: nat, at: Wall, error: string)
    requires Named(w) && Enabled(w, Settle(p, at, error))
    ensures Named(AfterSettle(w, p, at, error))
  {
  }

  lemma {:induction false} SettleKeepsConsistent(w: World, p: nat, at: Wall, error: string)
    requires Consistent(w.db) && Enabled(w, Settle(p, at, error))
    ensures Consistent(AfterSettle(w, p, at, error).db)
  {
    var s := w.passes[p];
    AttemptKeepsConsistent(w.db, s.queue[0].id, at, if s.phase.ok then None else Some(error));
  }

  lemma {:induction false} SettleKeepsSound(w: World, p: nat, at: Wall, error: string)
    requires Sound(w) && Enabled(w, Settle(p, at, error))
    ensures Sound(AfterSettle(w, p, at, error))
  {
    SettleKeepsConsistent(w, p, at, error);
    SettleKeepsNamed(w, p, at, error);
    SettleKeepsAccounted(w, p, at, error);
    SettleKeepsKnown(w, p, at, error);
  }

  /** Every step keeps the account, whatever interleaves, is pruned, is cancelled or crashes. */
  lemma {:induction false} StepKeepsSound(w: World, e: Event)
    requires Sound(w) && Enabled(w, e)
    ensures Sound(Next(w, e))
  {
    match e
    case Call(op) => CallKeepsSound(w, op);
    case Begin(p, limit) => ListedAreIssued(w, limit);
    case Send(p, ok) => assert QueueIssued(w.passes[p].queue, w.issued);
    case Settle(p, at, error) => SettleKeepsSound(w, p, at, error);
    case Die(p) =>
    case Crash =>
  }

  /* ---------- retention beside open passes ---------- */

  /** The listed rows are still the rows they meant. */
  ghost predicate QueueCurrent(births: map<nat, nat>, q: seq<Flight>) {
    forall i | 0 <= i < |q| :: q[i].id in births && births[q[i].id] == q[i].token
  }

  ghost predicate FlightsCurrent(w: World) {
    forall p | p in w.passes :: QueueCurrent(w.births, w.passes[p].queue)
  }

  ghost predicate QueueRetained(db: Db, q: seq<Flight>, op: Op)
    requires Consistent(db) && op.Prune?
  {
    forall i | 0 <= i < |q| :: RetainsRow(db, op.observationsBefore, op.notificationsBefore, q[i].id)
  }

  /** Every row an open pass holds is undelivered, or recently delivered and of a run that is kept. */
  ghost predicate Spares(w: World, op: Op)
    requires Consistent(w.db) && op.Prune?
  {
    forall p | p in w.passes :: QueueRetained(w.db, w.passes[p].queue, op)
  }

  ghost predicate Fair(w: World, e: Event)
    requires Consistent(w.db)
  {
    e.Call? && e.op.Prune? ==> Spares(w, e.op)
  }

  lemma {:induction false} QueueAfterPrune(w: World, op: Op, q: seq<Flight>)
    requires Sound(w) && op.Prune? && QueueCurrent(w.births, q)
    ensures QueueCurrent(AfterCall(w, op).births, q) <==> QueueRetained(w.db, q, op)
  {
    CallFrames(w.db, op);
    var after := AfterCall(w, op);
    forall i | 0 <= i < |q|
      ensures (q[i].id in after.births && after.births[q[i].id] == q[i].token)
         <==> RetainsRow(w.db, op.observationsBefore, op.notificationsBefore, q[i].id)
    {
      PruneKeepsRowIff(w.db, op.observationsBefore, op.notificationsBefore, q[i].id);
    }
  }

  /** After a prune the ids that open passes hold still mean their rows exactly when the prune spares those rows. */
  lemma {:induction false} FlightsStayCurrentIffSpared(w: World, op: Op)
    requires Sound(w) && FlightsCurrent(w) && op.Prune?
    ensures FlightsCurrent(AfterCall(w, op)) <==> Spares(w, op)
  {
    var after := AfterCall(w, op);
    forall p | p in w.passes
      ensures QueueCurrent(after.births, after.passes[p].queue) <==> QueueRetained(w.db, w.passes[p].queue, op)
    {
      QueueAfterPrune(w, op, w.passes[p].queue);
    }
  }

  lemma {:induction false} CallKeepsFlights(w: World, op: Op)
    requires Sound(w) && FlightsCurrent(w) && Enabled(w, Call(op)) && !op.Prune?
    ensures FlightsCurrent(AfterCall(w, op))
  {
    CallFrames(w.db, op);
    var after := AfterCall(w, op);
    forall p | p in after.passes
      ensures QueueCurrent(after.births, after.passes[p].queue)
    {
      assert QueueCurrent(w.births, w.passes[p].queue);
    }
  }

  lemma {:induction false} BeginKeepsFlights(w: World, p: nat, limit: int)
    requires Named(w) && FlightsCurrent(w) && p !in w.passes
    ensures FlightsCurrent(Next(w, Begin(p, limit)))
  {
    ListedAreIssued(w, limit);
  }

  lemma {:induction false} SettleKeepsFlights(w: World, p: nat, at: Wall, error: string)
    requires FlightsCurrent(w) && Enabled(w, Settle(p, at, error))
    ensures FlightsCurrent(AfterSettle(w, p, at, error))
  {
    assert QueueCurrent(w.births, w.passes[p].queue);
  }

  lemma {:induction false} StepKeepsFlights(w: World, e: Event)
    requires Sound(w) && FlightsCurrent(w) && Enabled(w, e) && Fair(w, e)
    ensures FlightsCurrent(Next(w, e))
  {
    match e
    case Call(op) =>
      if op.Prune? { FlightsStayCurrentIffSpared(w, op); } else { CallKeepsFlights(w, op); }
    case Begin(p, limit) => BeginKeepsFlights(w, p, limit);
    case Settle(p, at, error) => SettleKeepsFlights(w, p, at, error);
    case _ =>
  }

  /* ---------- runs ---------- */

  /** Any interleaving whatsoever. */
  ghost predicate RunFrom(w: World, es: seq<Event>)
    decreases |es|
  {
    es != [] ==> Enabled(w, es[0]) && RunFrom(Next(w, es[0]), es[1..])
  }

  ghost function After(w: World, es: seq<Event>): World
    requires RunFrom(w, es)
    decreases |es|
  {
    if es == [] then w else After(Next(w, es[0]), es[1..])
  }

  lemma {:induction false} Prepend(w: World, e: Event, es: seq<Event>)
    requires Enabled(w, e) && RunFrom(Next(w, e), es)
    ensures RunFrom(w, [e] + es) && After(w, [e] + es) == After(Next(w, e), es)
  {
    assert ([e] + es)[1..] == es;
  }

  lemma {:induction false} RunsConcatenate(w: World, es: seq<Event>, fs: seq<Event>)
    requires RunFrom(w, es) && RunFrom(After(w, es), fs)
    ensures RunFrom(w, es + fs) && After(w, es + fs) == After(After(w, es), fs)
    decreases |es|
  {
    if es == [] {
      assert es + fs == fs;
    } else {
      RunsConcatenate(Next(w, es[0]), es[1..], fs);
      Prepend(w, es[0], es[1..] + fs);
      assert [es[0]] + (es[1..] + fs) == es + fs;
    }
  }

  /** In all runs every enqueued delivery is still pending or was marked delivered. */
  lemma {:induction false} NothingIsLost(w: World, es: seq<Event>)
    requires Sound(w) && RunFrom(w, es)
    ensures Sound(After(w, es))
    decreases |es|
  {
    if es != [] {
      StepKeepsSound(w, es[0]);
      NothingIsLost(Next(w, es[0]), es[1..]);
    }
  }

  /** Once delivered, a notification never changes again and never becomes pending. */
  ghost predicate Frozen(w: World, token: nat, row: Notification) {
    && token in w.done
    && forall n | n in w.births && n in w.db.outbox && w.births[n] == token :: w.db.outbox[n] == row
  }

  lemma {:induction false} SettleKeepsFrozen(
      w: World, p: nat, at: Wall, error: string, token: nat, row: Notification)
    requires Sound(w) && Enabled(w, Settle(p, at, error)) && Frozen(w, token, row)
    ensures Frozen(AfterSettle(w, p, at, error), token, row)
  {
  }

  lemma {:induction false} StepKeepsFrozen(w: World, e: Event, token: nat, row: Notification)
    requires Sound(w) && Enabled(w, e) && Frozen(w, token, row)
    ensures Frozen(Next(w, e), token, row)
  {
    match e
    case Call(op) => CallKeepsFrozen(w, op, token, row);
    case Settle(p, at, error) => SettleKeepsFrozen(w, p, at, error, token, row);
    case _ =>
  }

  lemma {:induction false} CallKeepsFrozen(w: World, op: Op, token: nat, row: Notification)
    requires Sound(w) && Enabled(w, Call(op)) && Frozen(w, token, row)
    ensures Frozen(AfterCall(w, op), token, row)
  {
    CallFrames(w.db, op);
    var after := AfterCall(w, op);
    forall n | n in after.births && n in after.db.outbox && after.births[n] == token
      ensures after.db.outbox[n] == row
    {
      assert n in w.births || token >= w.minted;
    }
  }

  /** What is delivered stays delivered and unchanged for the rest of every run. */
  lemma {:induction false} DeliveredIsFinal(w: World, es: seq<Event>, token: nat, row: Notification)
    requires Sound(w) && RunFrom(w, es) && Frozen(w, token, row)
    ensures Frozen(After(w, es), token, row)
    decreases |es|
  {
    if es != [] {
      StepKeepsSound(w, es[0]);
      StepKeepsFrozen(w, es[0], token, row);
      DeliveredIsFinal(Next(w, es[0]), es[1..], token, row);
    }
  }

  lemma {:induction false} StartIsSound()
    ensures Sound(Start()) && AllSent(Start()) && FlightsCurrent(Start())
  {
  }
}
