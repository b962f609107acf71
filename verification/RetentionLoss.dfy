/**
 * Every prune that endangers an open pass can be followed by a loss: one
 * success gives the freed ids out again, and the pass works its queue off up to
 * such an id and marks the new notification delivered without having sent it.
 */
module RetentionLoss {
  import opened Prelude
  import opened RowOrder
  import opened IsoTime
  import opened Snapshots
  import opened Tables
  import opened Refinement
  import opened DeliveryProtocol
  import opened RetentionSafety

  predicate PruneFree(es: seq<Event>) {
    forall i | 0 <= i < |es| :: !(es[i].Call? && es[i].op.Prune?)
  }

  /** A continuation without prunes after which something is marked delivered that was never sent. */
  ghost predicate Loses(w: World, es: seq<Event>) {
    PruneFree(es) && RunFrom(w, es) && !AllSent(After(w, es))
  }

  /** Everything that has a time happens at this one. */
  predicate AllAt(es: seq<Event>, at: Wall) {
    forall i | 0 <= i < |es| ::
      && (es[i].Settle? ==> es[i].at == at)
      && (es[i].Call? ==> es[i].op.RecordSuccess? && es[i].op.result.checkedAt == at)
  }

  /* ---------- a success that gives out as many ids as wanted ---------- */

  const EVERY_KIND: set<Kind> :=
    {Appeared, Disappeared, BecameAvailable, BecameUnavailable, AvailabilityUnknown, InitiallyAvailable}

  function Name(i: nat): (name: string)
    ensures |name| == i + 1
  {
    seq(i + 1, _ => 'x')
  }

  /** An opportunity whose availability is not the one last recorded. */
  function Changed(previous: Option<CheckResult>, id: string): (o: Opportunity)
    ensures o.id == id && StatusIn(previous, id) != Some(o.availability) && o.attributes.Json?
    ensures previous.None? ==> o.availability == Available
  {
    var availability := if StatusIn(previous, id) == Some(Available) then Unavailable else Available;
    Opportunity(id, id, availability, None, None, Json("{}"))
  }

  function AllChanged(previous: Option<CheckResult>, m: nat): (s: seq<Opportunity>)
    ensures |s| == m && UniqueIds(s) && Storable(s)
    ensures forall i | 0 <= i < m :: StatusIn(previous, s[i].id) != Some(s[i].availability)
    ensures forall i | 0 <= i < m :: previous.None? ==> s[i].availability == Available
  {
    var s := seq(m, i requires 0 <= i < m => Changed(previous, Name(i)));
    assert forall i | 0 <= i < m :: |s[i].id| == i + 1;
    s
  }

  /** A snapshot of m changed opportunities, each reported on one channel. */
  ghost function Filling(db: Db, m: nat, at: Wall): Op {
    RecordSuccess("job", CheckResult(at, AllChanged(Latest(db, "job"), m)), PlanData(["channel"], EVERY_KIND))
  }

  lemma {:induction false} EachIsAChange(previous: seq<Opportunity>, s: seq<Opportunity>)
    requires forall i | 0 <= i < |s| :: Status(previous, s[i].id) != Some(s[i].availability)
    ensures |Changes(previous, s)| == |s|
  {
    if s != [] { EachIsAChange(previous, s[..|s| - 1]); }
  }

  lemma {:induction false} EachIsInitial(s: seq<Opportunity>)
    requires forall i | 0 <= i < |s| :: s[i].availability == Available
    ensures |DetectInitial(s)| == |s|
  {
    if s != [] { EachIsInitial(s[..|s| - 1]); }
  }

  lemma {:induction false} AllAreReported(previous: Option<CheckResult>, m: nat, at: Wall)
    ensures |TransitionsSince(previous, CheckResult(at, AllChanged(previous, m)))| >= m
  {
    var s := AllChanged(previous, m);
    if previous.None? { EachIsInitial(s); } else { EachIsAChange(previous.value.opportunities, s); }
  }

  lemma {:induction false} EveryKindIsThere(kind: Kind)
    ensures kind in EVERY_KIND
  {
    match kind
    case Appeared =>
    case Disappeared =>
    case BecameAvailable =>
    case BecameUnavailable =>
    case AvailabilityUnknown =>
    case InitiallyAvailable =>
  }

  lemma {:induction false} EachIsEnqueued(job: Job, at: Wall, ts: seq<Transition>, plan: Plan)
    requires |plan.channels| == 1 && plan.on == EVERY_KIND
    ensures |Enqueued(job, at, ts, plan)| == |ts|
  {
    if ts != [] {
      EachIsEnqueued(job, at, ts[..|ts| - 1], plan);
      EveryKindIsThere(ts[|ts| - 1].kind);
    }
  }

  /** The ids that a success gives out, read off the tables before it. */
  lemma {:induction false} SuccessGivesOut(db: Db, job: Job, result: CheckResult, plan: Plan, n: nat)
    ensures n in AfterSuccess(db, job, result, plan).outbox
       <==> n in db.outbox || 0 <= n - NextId(db.outbox.Keys) < |NewDeliveries(db, job, result, plan)|
  {
    var es := NewDeliveries(db, job, result, plan);
    AppendedRow(db.outbox, NewNotifications(NextId(db.transitions.Keys), es), n);
  }

  lemma {:induction false} FillingGivesOut(db: Db, m: nat, at: Wall)
    ensures var op := Filling(db, m, at); |NewDeliveries(db, op.job, op.result, op.plan)| >= m
  {
    var op := Filling(db, m, at);
    AllAreReported(Latest(db, op.job), m, at);
    EachIsEnqueued(op.job, at, TransitionsSince(Latest(db, op.job), op.result), op.plan);
  }

  lemma {:induction false} FillingApplies(db: Db, m: nat, at: Wall)
    ensures var op := Filling(db, m, at);
            Applicable(db.status, op) && Apply(db, op).0 == AfterSuccess(db, op.job, op.result, op.plan)
  {
  }

  /** The call is no prune and gives out all ids from the next free one up to this one. */
  ghost predicate GivesOutUpTo(db: Db, op: Op, id: nat) {
    && Applicable(db.status, op) && !op.Prune? && !op.SettleDelivery?
    && forall n: nat | NextId(db.outbox.Keys) <= n <= id :: n in Apply(db, op).0.outbox
  }

  lemma {:induction false} FillingFills(db: Db, id: nat, at: Wall) returns (op: Op)
    ensures GivesOutUpTo(db, op, id) && op.RecordSuccess? && op.result.checkedAt == at
  {
    var m := if id < NextId(db.outbox.Keys) then 0 else id - NextId(db.outbox.Keys) + 1;
    op := Filling(db, m, at);
    FillingApplies(db, m, at);
    FillingGivesOut(db, m, at);
    forall n: nat | NextId(db.outbox.Keys) <= n <= id ensures n in Apply(db, op).0.outbox {
      SuccessGivesOut(db, op.job, op.result, op.plan, n);
    }
  }

  /* ---------- a pass that works its queue off ---------- */

  ghost predicate Undelivered(outbox: map<nat, Notification>, id: nat) {
    id in outbox && outbox[id].deliveredAt.None?
  }

  /** Everything the pass lists up to position k is undelivered. */
  ghost predicate Ready(w: World, p: nat, k: nat) {
    && p in w.passes && k < |w.passes[p].queue| && !FailedHead(w.passes[p], k)
    && Ascends(w.passes[p].queue) && w.births.Keys == w.db.outbox.Keys
    && forall j | 0 <= j <= k :: Undelivered(w.db.outbox, w.passes[p].queue[j].id)
  }

  /** The rest of the pass's turn with its head. */
  function Turn(s: PassState, p: nat, ok: bool, at: Wall): seq<Event> {
    if s.phase.Idle? then [Send(p, ok), Settle(p, at, "")] else [Settle(p, at, "")]
  }

  lemma {:induction false} TurnIsRun(w: World, p: nat, ok: bool, at: Wall)
    requires p in w.passes && w.passes[p].queue != []
    ensures var s := w.passes[p]; var sent := if s.phase.Idle? then Next(w, Send(p, ok)) else w;
            Enabled(sent, Settle(p, at, "")) && RunFrom(w, Turn(s, p, ok, at))
            && After(w, Turn(s, p, ok, at)) == AfterSettle(sent, p, at, "")
  {
    var s := w.passes[p];
    var sent := if s.phase.Idle? then Next(w, Send(p, ok)) else w;
    Prepend(sent, Settle(p, at, ""), []);
    assert [Settle(p, at, "")] + [] == [Settle(p, at, "")];
    if s.phase.Idle? {
      Prepend(w, Send(p, ok), [Settle(p, at, "")]);
      assert [Send(p, ok)] + [Settle(p, at, "")] == Turn(s, p, ok, at);
    }
  }

  /** The pass has settled its head and goes on with the next row; no successful send was added. */
  ghost predicate WentOn(w: World, after: World, p: nat)
    requires p in w.passes && w.passes[p].queue != []
  {
    && after.births == w.births && after.sent == w.sent && p in after.passes
    && after.passes[p] == PassState(w.passes[p].queue[1..], Idle) && after.db.outbox.Keys == w.db.outbox.Keys
    && forall n | n in w.db.outbox && n != w.passes[p].queue[0].id :: after.db.outbox[n] == w.db.outbox[n]
  }

  lemma {:induction false} SettleGoesOn(w: World, p: nat, at: Wall)
    requires Enabled(w, Settle(p, at, "")) && Undelivered(w.db.outbox, w.passes[p].queue[0].id)
    ensures WentOn(w, AfterSettle(w, p, at, ""), p)
  {
  }

  lemma {:induction false} HeadIsSettled(w: World, p: nat, at: Wall)
    requires p in w.passes && w.passes[p].queue != [] && Undelivered(w.db.outbox, w.passes[p].queue[0].id)
    ensures RunFrom(w, Turn(w.passes[p], p, false, at)) && PruneFree(Turn(w.passes[p], p, false, at))
    ensures WentOn(w, After(w, Turn(w.passes[p], p, false, at)), p)
  {
    TurnIsRun(w, p, false, at);
    SettleGoesOn(if w.passes[p].phase.Idle? then Next(w, Send(p, false)) else w, p, at);
  }

  lemma {:induction false} SettlingKeepsReady(w: World, p: nat, k: nat, at: Wall)
    requires Ready(w, p, k) && k > 0
    ensures RunFrom(w, Turn(w.passes[p], p, false, at)) && PruneFree(Turn(w.passes[p], p, false, at))
    ensures Ready(After(w, Turn(w.passes[p], p, false, at)), p, k - 1)
  {
    var q := w.passes[p].queue;
    HeadIsSettled(w, p, at);
    var after := After(w, Turn(w.passes[p], p, false, at));
    forall j | 0 <= j <= k - 1 ensures Undelivered(after.db.outbox, q[1..][j].id) {
      assert Undelivered(w.db.outbox, q[j + 1].id) && q[0].id < q[j + 1].id;
    }
  }

  /** A turn with a successful send marks the row that the head's id means now. */
  lemma {:induction false} TurnMarksHead(w: World, p: nat, at: Wall, token: nat)
    requires p in w.passes && w.passes[p].queue != [] && !FailedHead(w.passes[p], 0)
    requires var head := w.passes[p].queue[0];
             Undelivered(w.db.outbox, head.id) && head.id in w.births && token == w.births[head.id]
             && token != head.token && token !in w.sent
    ensures var turn := Turn(w.passes[p], p, true, at);
            RunFrom(w, turn) && token in After(w, turn).done && token !in After(w, turn).sent
  {
    TurnIsRun(w, p, true, at);
  }

  /** The pass comes to position k and marks the row that is there now. */
  lemma {:induction false} Drive(w: World, p: nat, k: nat, token: nat, at: Wall) returns (es: seq<Event>)
    requires Ready(w, p, k) && token == w.births[w.passes[p].queue[k].id]
    requires token !in w.sent && token != w.passes[p].queue[k].token
    ensures Loses(w, es) && AllAt(es, at)
    decreases k
  {
    if k == 0 {
      es := Turn(w.passes[p], p, true, at);
      TurnMarksHead(w, p, at, token);
    } else {
      var turn := Turn(w.passes[p], p, false, at);
      HeadIsSettled(w, p, at);
      SettlingKeepsReady(w, p, k, at);
      var rest := Drive(After(w, turn), p, k - 1, token, at);
      RunsConcatenate(w, turn, rest);
      es := turn + rest;
    }
  }

  /* ---------- from the prune to the loss ---------- */

  lemma {:induction false} GivenOutIsUndelivered(db: Db, op: Op, id: nat, n: nat)
    requires Consistent(db) && GivesOutUpTo(db, op, id) && n <= id
    requires n >= NextId(db.outbox.Keys) || Undelivered(db.outbox, n)
    ensures Undelivered(Apply(db, op).0.outbox, n)
  {
    CallFrames(db, op);
  }

  /** Once the endangered id is given out, everything the pass lists up to it is undelivered. */
  lemma {:induction false} EndangeredGetsReady(w: World, p: nat, k: nat, op: Op)
    requires Sound(w) && p in w.passes && Ascends(w.passes[p].queue)
    requires Reaches(w.db.outbox, NextId(w.db.outbox.Keys), w.passes[p], k)
    requires GivesOutUpTo(w.db, op, w.passes[p].queue[k].id) && w.passes[p].queue[k].id >= NextId(w.db.outbox.Keys)
    ensures Ready(AfterCall(w, op), p, k)
  {
    var q, free := w.passes[p].queue, NextId(w.db.outbox.Keys);
    forall j | 0 <= j <= k ensures Undelivered(AfterCall(w, op).db.outbox, q[j].id) {
      assert j < k ==> LetsPass(w.db.outbox, free, q[j]) && q[j].id < q[k].id;
      GivenOutIsUndelivered(w.db, op, q[k].id, q[j].id);
    }
  }

  lemma {:induction false} NewNameUnsent(w: World, op: Op, id: nat)
    requires Sound(w) && Enabled(w, Call(op)) && id !in w.db.outbox && id in AfterCall(w, op).db.outbox
    ensures AfterCall(w, op).births[id] !in w.issued && AfterCall(w, op).births[id] !in w.sent
  {
    assert AfterCall(w, op).births[id] == w.minted + id;
  }

  lemma {:induction false} SuccessThenLoses(w: World, op: Op, rest: seq<Event>, at: Wall)
    requires Enabled(w, Call(op)) && op.RecordSuccess? && op.result.checkedAt == at
    requires Loses(AfterCall(w, op), rest) && AllAt(rest, at)
    ensures Loses(w, [Call(op)] + rest) && AllAt([Call(op)] + rest, at)
  {
    Prepend(w, Call(op), rest);
  }

  lemma {:induction false} EndangeredPassLoses(w: World, p: nat, k: nat, at: Wall) returns (es: seq<Event>)
    requires Sound(w) && p in w.passes && Ascends(w.passes[p].queue)
    requires Reaches(w.db.outbox, NextId(w.db.outbox.Keys), w.passes[p], k)
    requires w.passes[p].queue[k].id >= NextId(w.db.outbox.Keys)
    ensures Loses(w, es) && AllAt(es, at)
  {
    var op := FillingFills(w.db, w.passes[p].queue[k].id, at);
    EndangeredGetsReady(w, p, k, op);
    NewNameUnsent(w, op, w.passes[p].queue[k].id);
    assert QueueIssued(w.passes[p].queue, w.issued);
    var rest := Drive(AfterCall(w, op), p, k, AfterCall(w, op).births[w.passes[p].queue[k].id], at);
    SuccessThenLoses(w, op, rest, at);
    es := [Call(op)] + rest;
  }

  /** A prune that endangers an open pass can be followed by a loss, at any time. */
  lemma {:induction false} EndangeringPruneLoses(w: World, op: Op, at: Wall) returns (es: seq<Event>)
    requires Sound(w) && Calm(w) && op.Prune? && Endangers(w, op)
    ensures Loses(AfterCall(w, op), es) && AllAt(es, at)
  {
    var p :| p in w.passes && EndangersPass(w.db, op, w.passes[p]);
    var k: nat :| Reaches(w.db.outbox, FirstFree(w.db, op), w.passes[p], k)
                  && w.passes[p].queue[k].id >= FirstFree(w.db, op);
    RetainedAreKept(w.db, op);
    ReachesAfterPrune(w.db, op, FirstFree(w.db, op), w.passes[p], k);
    CallKeepsSound(w, op);
    es := EndangeredPassLoses(AfterCall(w, op), p, k, at);
  }

  lemma {:induction false} PruneFreeIsHarmless(w: World, es: seq<Event>)
    requires Sound(w) && RunFrom(w, es) && PruneFree(es)
    ensures HarmlessRun(w, es)
    decreases |es|
  {
    if es != [] {
      StepKeepsSound(w, es[0]);
      PruneFreeIsHarmless(Next(w, es[0]), es[1..]);
    }
  }

  /**
   * After a harmless run, a prune can be followed by a loss without any further
   * prune exactly when it endangers an open pass.
   */
  lemma {:induction false} PruneCanLoseIff(es: seq<Event>, op: Op)
    requires RunFrom(Start(), es) && HarmlessRun(Start(), es) && op.Prune?
    ensures Consistent(After(Start(), es).db)
    ensures (exists rest :: Loses(AfterCall(After(Start(), es), op), rest)) <==> Endangers(After(Start(), es), op)
  {
    var w := After(Start(), es);
    StartIsSound();
    HarmlessRunsMarkSent(Start(), es);
    if Endangers(w, op) {
      var rest := EndangeringPruneLoses(w, op, op.observationsBefore);
    } else {
      forall rest ensures !Loses(AfterCall(w, op), rest) {
        HarmlessPruneLosesNothing(w, op, rest);
      }
    }
  }

  lemma {:induction false} HarmlessPruneLosesNothing(w: World, op: Op, rest: seq<Event>)
    requires Sound(w) && Calm(w) && AllSent(w) && op.Prune? && !Endangers(w, op)
    ensures !Loses(AfterCall(w, op), rest)
  {
    if PruneFree(rest) && RunFrom(AfterCall(w, op), rest) {
      CallKeepsSound(w, op);
      PruneKeepsCalmIff(w, op);
      PruneFreeIsHarmless(AfterCall(w, op), rest);
      HarmlessRunsMarkSent(AfterCall(w, op), rest);
    }
  }
}
