/**
 * Delivered means sent, with retention running beside open passes. A prune
 * endangers an open pass when it frees an id that the pass will still reach and
 * that later successes can give out again; this is read off the tables and the
 * passes before the prune. At-least-once holds in every run without such a
 * prune, and every such prune can be followed by a loss.
 */
module RetentionSafety {
  import opened RowOrder
  import opened IsoTime
  import opened Snapshots
  import opened Tables
  import opened Integrity
  import opened Refinement
  import opened Dispatch
  import opened DeliveryProtocol

  /* ---------- which prunes endanger a pass ---------- */

  ghost function RetainedIds(db: Db, op: Op): set<nat>
    requires Consistent(db) && op.Prune?
  {
    set id | id in db.outbox && RetainsRow(db, op.observationsBefore, op.notificationsBefore, id)
  }

  /** The first id that is given out after the prune. */
  ghost function FirstFree(db: Db, op: Op): nat
    requires Consistent(db) && op.Prune?
  {
    NextId(RetainedIds(db, op))
  }

  /** A row that is undelivered, or gone with an id that is given out again, does not end the pass. */
  ghost predicate LetsPass(outbox: map<nat, Notification>, free: nat, f: Flight) {
    f.id >= free || (f.id in outbox && outbox[f.id].deliveredAt.None?)
  }

  /** The pass has already failed to send its head and will only record that. */
  predicate FailedHead(s: PassState, k: nat) {
    k == 0 && s.phase == SendReturned(false)
  }

  /** The pass can still come to mark the row at position k of its queue. */
  ghost predicate Reaches(outbox: map<nat, Notification>, free: nat, s: PassState, k: nat) {
    k < |s.queue| && !FailedHead(s, k) && forall j | 0 <= j < k :: LetsPass(outbox, free, s.queue[j])
  }

  /** The pass lists, at a position it can reach, an id above every retained one. */
  ghost predicate EndangersPass(db: Db, op: Op, s: PassState)
    requires Consistent(db) && op.Prune?
  {
    exists k: nat :: Reaches(db.outbox, FirstFree(db, op), s, k) && s.queue[k].id >= FirstFree(db, op)
  }

  ghost predicate Endangers(w: World, op: Op)
    requires Consistent(w.db) && op.Prune?
  {
    exists p :: p in w.passes && EndangersPass(w.db, op, w.passes[p])
  }

  lemma {:induction false} RetainedAreKept(db: Db, op: Op)
    requires Consistent(db) && op.Prune?
    ensures AfterPrune(db, op.observationsBefore, op.notificationsBefore).outbox.Keys == RetainedIds(db, op)
  {
    forall id: nat
      ensures id in AfterPrune(db, op.observationsBefore, op.notificationsBefore).outbox <==> id in RetainedIds(db, op)
    {
      PruneKeepsRowIff(db, op.observationsBefore, op.notificationsBefore, id);
    }
  }

  /** A pass that ended is endangered by no prune any more, and a crash ends all of them. */
  lemma {:induction false} EndedPassesAreSafe(w: World, op: Op, p: nat)
    requires Consistent(w.db) && op.Prune? && p in w.passes
    ensures !Endangers(Next(w, Crash), op)
    ensures Endangers(Next(w, Die(p)), op) <==>
      exists q :: q in w.passes && q != p && EndangersPass(w.db, op, w.passes[q])
  {
    var after := Next(w, Die(p));
    if q :| q in w.passes && q != p && EndangersPass(w.db, op, w.passes[q]) {
      assert q in after.passes && EndangersPass(after.db, op, after.passes[q]);
    }
    if q :| q in after.passes && EndangersPass(after.db, op, after.passes[q]) {
      assert q in w.passes && q != p;
    }
  }

  /* ---------- calm worlds ---------- */

  ghost predicate Ascends(q: seq<Flight>) {
    forall i, j | 0 <= i < j < |q| :: q[i].id < q[j].id
  }

  /** The id names the row it meant, or is gone and not given out again. */
  ghost predicate MeansRow(free: nat, births: map<nat, nat>, f: Flight) {
    f.id < free && (f.id in births ==> births[f.id] == f.token)
  }

  ghost predicate CalmPass(outbox: map<nat, Notification>, births: map<nat, nat>, s: PassState) {
    && Ascends(s.queue)
    && forall k: nat | Reaches(outbox, NextId(outbox.Keys), s, k) :: MeansRow(NextId(outbox.Keys), births, s.queue[k])
  }

  /** No pass reaches an id that names another row or may come to do so. */
  ghost predicate Calm(w: World) {
    forall p | p in w.passes :: CalmPass(w.db.outbox, w.births, w.passes[p])
  }

  /* ---------- prunes ---------- */

  ghost function Pruned(db: Db, op: Op): map<nat, Notification>
    requires op.Prune?
  {
    AfterPrune(db, op.observationsBefore, op.notificationsBefore).outbox
  }

  lemma {:induction false} ReachesAfterPrune(db: Db, op: Op, free: nat, s: PassState, k: nat)
    requires Consistent(db) && op.Prune?
    ensures Reaches(Pruned(db, op), free, s, k) <==> Reaches(db.outbox, free, s, k)
  {
    PruneKeepsWhatMatters(db, op.observationsBefore, op.notificationsBefore);
    forall f: Flight ensures LetsPass(Pruned(db, op), free, f) <==> LetsPass(db.outbox, free, f) {
    }
  }

  /** In front of an id below `free`, the queue lists only such ids. */
  lemma {:induction false} ReachedBelow(outbox: map<nat, Notification>, free: nat, above: nat, s: PassState, k: nat)
    requires Ascends(s.queue) && Reaches(outbox, free, s, k) && s.queue[k].id < free
    ensures Reaches(outbox, above, s, k)
  {
    forall j | 0 <= j < k ensures LetsPass(outbox, above, s.queue[j]) {
      assert LetsPass(outbox, free, s.queue[j]);
      assert s.queue[j].id < s.queue[k].id;
    }
  }

  lemma {:induction false} CalmIffNothingAbove(
      before: map<nat, Notification>, after: map<nat, Notification>, free: nat, births: map<nat, nat>, s: PassState)
    requires Ascends(s.queue) && NextId(after.Keys) == free
    requires forall k: nat :: Reaches(after, free, s, k) <==> Reaches(before, free, s, k)
    requires forall k: nat | Reaches(before, free, s, k) && s.queue[k].id < free :: MeansRow(free, births, s.queue[k])
    ensures CalmPass(after, births, s) <==> !exists k: nat :: Reaches(before, free, s, k) && s.queue[k].id >= free
  {
  }

  lemma {:induction false} PruneKeepsCalmPassIff(w: World, op: Op, s: PassState)
    requires Sound(w) && op.Prune? && CalmPass(w.db.outbox, w.births, s)
    ensures CalmPass(Pruned(w.db, op), AfterCall(w, op).births, s) <==> !EndangersPass(w.db, op, s)
  {
    var births, free := AfterCall(w, op).births, FirstFree(w.db, op);
    RetainedAreKept(w.db, op);
    forall k: nat | Reaches(w.db.outbox, free, s, k) && s.queue[k].id < free
      ensures MeansRow(free, births, s.queue[k])
    {
      RetainedMeansRow(w, op, s, k);
    }
    forall k: nat ensures Reaches(Pruned(w.db, op), free, s, k) <==> Reaches(w.db.outbox, free, s, k) {
      ReachesAfterPrune(w.db, op, free, s, k);
    }
    CalmIffNothingAbove(w.db.outbox, Pruned(w.db, op), free, births, s);
  }

  lemma {:induction false} RetainedMeansRow(w: World, op: Op, s: PassState, k: nat)
    requires Sound(w) && op.Prune? && CalmPass(w.db.outbox, w.births, s)
    requires Reaches(w.db.outbox, FirstFree(w.db, op), s, k) && s.queue[k].id < FirstFree(w.db, op)
    ensures MeansRow(FirstFree(w.db, op), AfterCall(w, op).births, s.queue[k])
  {
    ReachedBelow(w.db.outbox, FirstFree(w.db, op), NextId(w.db.outbox.Keys), s, k);
    CallFrames(w.db, op);
  }

  /** A prune keeps a calm world calm exactly when it endangers no open pass. */
  lemma {:induction false} PruneKeepsCalmIff(w: World, op: Op)
    requires Sound(w) && Calm(w) && op.Prune?
    ensures Calm(AfterCall(w, op)) <==> !Endangers(w, op)
  {
    forall p | p in w.passes
      ensures CalmPass(Pruned(w.db, op), AfterCall(w, op).births, w.passes[p])
        <==> !EndangersPass(w.db, op, w.passes[p])
    {
      PruneKeepsCalmPassIff(w, op, w.passes[p]);
    }
  }

  /* ---------- all other steps ---------- */

  /** Rows change or join only where the next free ids are. */
  ghost predicate GrowsAbove(before: map<nat, Notification>, after: map<nat, Notification>) {
    && before.Keys <= after.Keys
    && (forall n | n in after && n !in before :: n >= NextId(before.Keys))
    && (forall n | n in before && after[n].deliveredAt.None? :: before[n].deliveredAt.None?)
  }

  lemma {:induction false} NextIdGrows(before: set<nat>, after: set<nat>)
    requires before <= after
    ensures NextId(before) <= NextId(after)
  {
    if before != {} { assert MaxId(before) in after; }
  }

  lemma {:induction false} GrowthKeepsReached(
      before: map<nat, Notification>, after: map<nat, Notification>, s: PassState, k: nat)
    requires GrowsAbove(before, after) && Reaches(after, NextId(after.Keys), s, k)
    ensures Reaches(before, NextId(before.Keys), s, k)
  {
    NextIdGrows(before.Keys, after.Keys);
    forall j | 0 <= j < k ensures LetsPass(before, NextId(before.Keys), s.queue[j]) {
      assert LetsPass(after, NextId(after.Keys), s.queue[j]);
    }
  }

  /** Growth of the table does not disturb a calm pass. */
  lemma {:induction false} GrowthKeepsCalm(
      before: map<nat, Notification>, after: map<nat, Notification>,
      births: map<nat, nat>, later: map<nat, nat>, s: PassState)
    requires GrowsAbove(before, after) && CalmPass(before, births, s)
    requires births.Keys == before.Keys && later.Keys == after.Keys
    requires forall n | n in births :: later[n] == births[n]
    ensures CalmPass(after, later, s)
  {
    NextIdGrows(before.Keys, after.Keys);
    forall k: nat | Reaches(after, NextId(after.Keys), s, k)
      ensures MeansRow(NextId(after.Keys), later, s.queue[k])
    {
      GrowthKeepsReached(before, after, s, k);
      assert MeansRow(NextId(before.Keys), births, s.queue[k]);
    }
  }

  lemma {:induction false} CallGrows(db: Db, op: Op)
    requires Consistent(db) && Applicable(db.status, op) && !op.SettleDelivery? && !op.Prune?
    ensures GrowsAbove(db.outbox, Apply(db, op).0.outbox)
  {
    if op.RecordSuccess? { SuccessGrows(db, op.job, op.result, op.plan); } else { OutboxUntouched(db, op); }
  }

  lemma {:induction false} SuccessGrows(db: Db, job: Job, result: CheckResult, plan: Plan)
    ensures GrowsAbove(db.outbox, AfterSuccess(db, job, result, plan).outbox)
  {
    var ts := TransitionsSince(Latest(db, job), result);
    AppendedRows(db.outbox, NewNotifications(NextId(db.transitions.Keys), Enqueued(job, result.checkedAt, ts, plan)));
  }

  lemma {:induction false} CallKeepsCalm(w: World, op: Op)
    requires Sound(w) && Calm(w) && Enabled(w, Call(op)) && !op.Prune?
    ensures Calm(AfterCall(w, op))
  {
    var after := AfterCall(w, op);
    CallGrows(w.db, op);
    forall p | p in after.passes ensures CalmPass(after.db.outbox, after.births, after.passes[p]) {
      GrowthKeepsCalm(w.db.outbox, after.db.outbox, w.births, after.births, w.passes[p]);
    }
  }

  lemma {:induction false} ListedAscend(outbox: map<nat, Notification>, births: map<nat, nat>, limit: int)
    ensures Ascends(Flights(Listed(outbox, limit), births))
  {
    ListedFacts(outbox, limit);
    assert StrictlyAscending(PendingIds(outbox));
  }

  lemma {:induction false} BeginKeepsCalm(w: World, p: nat, limit: int)
    requires Sound(w) && Calm(w) && p !in w.passes
    ensures Calm(Next(w, Begin(p, limit)))
  {
    ListedAreIssued(w, limit);
    ListedAscend(w.db.outbox, w.births, limit);
  }

  lemma {:induction false} SendKeepsCalm(w: World, p: nat, ok: bool)
    requires Calm(w) && Enabled(w, Send(p, ok))
    ensures Calm(Next(w, Send(p, ok)))
  {
    var s := w.passes[p];
    forall k: nat | Reaches(w.db.outbox, NextId(w.db.outbox.Keys), s.(phase := SendReturned(ok)), k)
      ensures Reaches(w.db.outbox, NextId(w.db.outbox.Keys), s, k)
    {
    }
  }

  /** The rest of the queue of a pass that has settled its head. */
  lemma {:induction false} RestIsCalm(
      before: map<nat, Notification>, after: map<nat, Notification>, births: map<nat, nat>, s: PassState)
    requires CalmPass(before, births, s) && s.queue != []
    requires s.queue[0].id in before && before[s.queue[0].id].deliveredAt.None?
    requires after.Keys == before.Keys
    requires forall n | n in after && after[n].deliveredAt.None? :: before[n].deliveredAt.None?
    ensures CalmPass(after, births, PassState(s.queue[1..], Idle))
  {
    var free, rest := NextId(before.Keys), PassState(s.queue[1..], Idle);
    forall k: nat | Reaches(after, free, rest, k) ensures MeansRow(free, births, rest.queue[k]) {
      forall j | 0 <= j < k + 1 ensures LetsPass(before, free, s.queue[j]) {
        if j > 0 { assert LetsPass(after, free, rest.queue[j - 1]); }
      }
      assert Reaches(before, free, s, k + 1);
    }
  }

  lemma {:induction false} SettleKeepsCalm(w: World, p: nat, at: Wall, error: string)
    requires Sound(w) && Calm(w) && Enabled(w, Settle(p, at, error))
    ensures Calm(AfterSettle(w, p, at, error))
  {
    var after := AfterSettle(w, p, at, error);
    if p in after.passes {
      RestIsCalm(w.db.outbox, after.db.outbox, w.births, w.passes[p]);
      forall q | q in after.passes && q != p ensures CalmPass(after.db.outbox, after.births, after.passes[q]) {
        GrowthKeepsCalm(w.db.outbox, after.db.outbox, w.births, after.births, w.passes[q]);
      }
    }
  }

  /** A step that is no prune, or a prune that endangers no open pass. */
  ghost predicate Harmless(w: World, e: Event)
    requires Consistent(w.db)
  {
    e.Call? && e.op.Prune? ==> !Endangers(w, e.op)
  }

  lemma {:induction false} StepKeepsCalm(w: World, e: Event)
    requires Sound(w) && Calm(w) && Enabled(w, e) && Harmless(w, e)
    ensures Calm(Next(w, e))
  {
    match e
    case Call(op) => if op.Prune? { PruneKeepsCalmIff(w, op); } else { CallKeepsCalm(w, op); }
    case Begin(p, limit) => BeginKeepsCalm(w, p, limit);
    case Send(p, ok) => SendKeepsCalm(w, p, ok);
    case Settle(p, at, error) => SettleKeepsCalm(w, p, at, error);
    case Die(_) =>
    case Crash =>
  }

  /** In a calm world a write-back marks the row that the pass has sent. */
  lemma {:induction false} CalmStepMarksSent(w: World, e: Event)
    requires Sound(w) && Calm(w) && AllSent(w) && Enabled(w, e)
    ensures AllSent(Next(w, e))
  {
    if e.Settle? && w.passes[e.pass].phase.ok {
      assert Reaches(w.db.outbox, NextId(w.db.outbox.Keys), w.passes[e.pass], 0);
    }
  }

  /* ---------- runs ---------- */

  /** No prune of the run endangers a pass that is open at that time. */
  ghost predicate HarmlessRun(w: World, es: seq<Event>)
    requires Sound(w) && RunFrom(w, es)
    decreases |es|
  {
    es != [] ==> Harmless(w, es[0]) && (StepKeepsSound(w, es[0]); HarmlessRun(Next(w, es[0]), es[1..]))
  }

  lemma {:induction false} HarmlessRunsMarkSent(w: World, es: seq<Event>)
    requires Sound(w) && Calm(w) && AllSent(w) && RunFrom(w, es) && HarmlessRun(w, es)
    ensures Sound(After(w, es)) && Calm(After(w, es)) && AllSent(After(w, es))
    decreases |es|
  {
    if es != [] {
      StepKeepsSound(w, es[0]);
      StepKeepsCalm(w, es[0]);
      CalmStepMarksSent(w, es[0]);
      HarmlessRunsMarkSent(Next(w, es[0]), es[1..]);
    }
  }

  /**
   * At least once: from the empty store, in every run whose prunes endanger no
   * open pass, whatever was enqueued was sent or is still pending.
   */
  lemma {:induction false} AtLeastOnce(es: seq<Event>, token: nat)
    requires RunFrom(Start(), es) && HarmlessRun(Start(), es)
    requires token in After(Start(), es).issued
    ensures token in After(Start(), es).sent
         || PendingAs(After(Start(), es).db.outbox, After(Start(), es).births, token)
  {
    StartIsSound();
    HarmlessRunsMarkSent(Start(), es);
  }

  /* ---------- retention that spares what open passes hold ---------- */

  /** Every prune of the run spares the rows that open passes hold. */
  ghost predicate FairRun(w: World, es: seq<Event>)
    requires Sound(w) && RunFrom(w, es)
    decreases |es|
  {
    es != [] ==> Fair(w, es[0]) && (StepKeepsSound(w, es[0]); FairRun(Next(w, es[0]), es[1..]))
  }

  /** A retained row has an id below those given out after the prune. */
  lemma {:induction false} SparedIsHarmless(w: World, e: Event)
    requires Consistent(w.db) && Fair(w, e)
    ensures Harmless(w, e)
  {
    if e.Call? && e.op.Prune? {
      forall p, k: nat | p in w.passes && Reaches(w.db.outbox, FirstFree(w.db, e.op), w.passes[p], k)
        ensures w.passes[p].queue[k].id < FirstFree(w.db, e.op)
      {
        assert QueueRetained(w.db, w.passes[p].queue, e.op);
        assert w.passes[p].queue[k].id in RetainedIds(w.db, e.op);
      }
    }
  }

  lemma {:induction false} FairRunsAreHarmless(w: World, es: seq<Event>)
    requires Sound(w) && RunFrom(w, es) && FairRun(w, es)
    ensures HarmlessRun(w, es)
    decreases |es|
  {
    if es != [] {
      StepKeepsSound(w, es[0]);
      SparedIsHarmless(w, es[0]);
      FairRunsAreHarmless(Next(w, es[0]), es[1..]);
    }
  }

  /** At least once whenever retention spares the rows that open passes hold. */
  lemma {:induction false} SparingRunsDeliverAtLeastOnce(es: seq<Event>, token: nat)
    requires RunFrom(Start(), es) && FairRun(Start(), es)
    requires token in After(Start(), es).issued
    ensures token in After(Start(), es).sent
         || PendingAs(After(Start(), es).db.outbox, After(Start(), es).births, token)
  {
    FairRunsAreHarmless(Start(), es);
    AtLeastOnce(es, token);
  }
}
