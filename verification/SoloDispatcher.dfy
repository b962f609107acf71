/** Exactly-once delivery for one dispatcher that does not stop between send and mark. */
module SoloDispatcher {
  import opened Prelude
  import opened IsoTime
  import opened Tables
  import opened Dispatch
  import opened DeliveryProtocol

  /** A new pass begins only when none is open, and nothing stops after a successful send. */
  ghost predicate Solo(w: World, e: Event)
    requires Enabled(w, e)
  {
    && (e.Begin? ==> w.passes == map[])
    && (e.Die? || e.Crash? ==> forall p | p in w.passes :: w.passes[p].phase != SendReturned(true))
  }

  ghost predicate SoloRun(w: World, es: seq<Event>)
    decreases |es|
  {
    es != [] ==> Enabled(w, es[0]) && Solo(w, es[0]) && SoloRun(Next(w, es[0]), es[1..])
  }

  lemma {:induction false} SoloRunsAreRuns(w: World, es: seq<Event>)
    requires SoloRun(w, es)
    ensures RunFrom(w, es)
    decreases |es|
  {
    if es != [] { SoloRunsAreRuns(Next(w, es[0]), es[1..]); }
  }

  /** The rows still listed are undelivered and listed once. */
  ghost predicate FreshQueue(q: seq<Flight>, done: set<nat>) {
    && (forall i | 0 <= i < |q| :: q[i].token !in done)
    && (forall i, j | 0 <= i < j < |q| :: q[i].token != q[j].token)
  }

  ghost predicate AtMostOnePass(passes: map<nat, PassState>) {
    forall p, q | p in passes && q in passes :: p == q
  }

  /** Sent successfully but not yet marked. */
  ghost predicate InFlight(passes: map<nat, PassState>, t: nat) {
    exists p :: p in passes && passes[p].phase == SendReturned(true) && passes[p].queue != []
      && passes[p].queue[0].token == t
  }

  ghost predicate SentOnce(w: World) {
    forall t :: multiset(w.sent)[t] == if t in w.done || InFlight(w.passes, t) then 1 else 0
  }

  ghost predicate Once(w: World) {
    && Sound(w) && FlightsCurrent(w) && AtMostOnePass(w.passes) && SentOnce(w)
    && (forall p | p in w.passes :: FreshQueue(w.passes[p].queue, w.done))
  }

  /** A lone pass holds undelivered rows only, so every prune spares it. */
  lemma {:induction false} LonePassIsSpared(w: World, e: Event)
    requires Once(w) && Enabled(w, e)
    ensures Fair(w, e)
  {
    if e.Call? && e.op.Prune? {
      forall p | p in w.passes ensures QueueRetained(w.db, w.passes[p].queue, e.op) {
        assert QueueCurrent(w.births, w.passes[p].queue) && FreshQueue(w.passes[p].queue, w.done);
      }
    }
  }

  lemma {:induction false} StepKeepsBase(w: World, e: Event)
    requires Once(w) && Enabled(w, e)
    ensures Sound(Next(w, e)) && FlightsCurrent(Next(w, e))
  {
    LonePassIsSpared(w, e);
    StepKeepsSound(w, e);
    StepKeepsFlights(w, e);
  }

  lemma {:induction false} BeginIsFresh(w: World, limit: int)
    requires Sound(w)
    ensures FreshQueue(Flights(Listed(w.db.outbox, limit), w.births), w.done)
  {
    var ids := Listed(w.db.outbox, limit);
    ListedFacts(w.db.outbox, limit);
    forall i | 0 <= i < |ids|
      ensures ids[i] in w.births && w.births[ids[i]] !in w.done
    {
      assert ids[i] in ids;
    }
  }

  lemma {:induction false} IdleIsNotInFlight(passes: map<nat, PassState>)
    requires forall p | p in passes :: passes[p].phase.Idle?
    ensures forall t :: !InFlight(passes, t)
  {
  }

  lemma {:induction false} BeginOnce(w: World, p: nat, limit: int)
    requires Once(w) && w.passes == map[]
    ensures Once(Next(w, Begin(p, limit)))
  {
    StepKeepsBase(w, Begin(p, limit));
    BeginIsFresh(w, limit);
    IdleIsNotInFlight(w.passes);
    IdleIsNotInFlight(Next(w, Begin(p, limit)).passes);
  }

  lemma {:induction false} SendOnce(w: World, p: nat, ok: bool)
    requires Once(w) && Enabled(w, Send(p, ok))
    ensures Once(Next(w, Send(p, ok)))
  {
    StepKeepsBase(w, Send(p, ok));
    assert FreshQueue(w.passes[p].queue, w.done);
    SendKeepsCount(w, p, ok);
  }

  lemma {:induction false} SendKeepsCount(w: World, p: nat, ok: bool)
    requires SentOnce(w) && AtMostOnePass(w.passes) && Enabled(w, Send(p, ok)) && FreshQueue(w.passes[p].queue, w.done)
    ensures SentOnce(Next(w, Send(p, ok))) && AtMostOnePass(Next(w, Send(p, ok)).passes)
  {
    SendInFlight(w.passes, p, ok);
  }

  lemma {:induction false} SendInFlight(passes: map<nat, PassState>, p: nat, ok: bool)
    requires AtMostOnePass(passes) && p in passes && passes[p].phase.Idle? && passes[p].queue != []
    ensures var after := passes[p := passes[p].(phase := SendReturned(ok))];
      && AtMostOnePass(after)
      && forall t :: !InFlight(passes, t) && (InFlight(after, t) <==> ok && t == passes[p].queue[0].token)
  {
    var after := passes[p := passes[p].(phase := SendReturned(ok))];
    if ok { assert after[p].phase == SendReturned(true); }
  }

  lemma {:induction false} SettleSucceeds(w: World, p: nat, at: Wall, error: string)
    requires Once(w) && Enabled(w, Settle(p, at, error))
    ensures var s := w.passes[p];
            AfterAttempt(w.db.outbox, s.queue[0].id, at, if s.phase.ok then None else Some(error)).Success?
    ensures TokenOf(w.births, w.passes[p].queue[0].id) == w.passes[p].queue[0].token
  {
    var q := w.passes[p].queue;
    assert QueueCurrent(w.births, q) && FreshQueue(q, w.done);
    assert q[0].id in w.births && q[0].token !in w.done;
  }

  lemma {:induction false} TailIsFresh(q: seq<Flight>, done: set<nat>, ok: bool)
    requires q != [] && FreshQueue(q, done)
    ensures FreshQueue(q[1..], if ok then done + {q[0].token} else done)
  {
  }

  lemma {:induction false} SettledPasses(passes: map<nat, PassState>, p: nat)
    requires AtMostOnePass(passes) && p in passes && passes[p].phase.SendReturned? && passes[p].queue != []
    ensures var after := passes[p := PassState(passes[p].queue[1..], Idle)];
      && AtMostOnePass(after)
      && forall t ::
        !InFlight(after, t) && (InFlight(passes, t) <==> passes[p].phase.ok && t == passes[p].queue[0].token)
  {
    if passes[p].phase.ok { assert passes[p].phase == SendReturned(true); }
  }

  ghost predicate WroteBack(w: World, after: World, p: nat) {
    && p in w.passes && w.passes[p].phase.SendReturned? && w.passes[p].queue != []
    && after.passes == w.passes[p := PassState(w.passes[p].queue[1..], Idle)] && after.sent == w.sent
    && after.done == if w.passes[p].phase.ok then w.done + {w.passes[p].queue[0].token} else w.done
  }

  lemma {:induction false} SettleSettles(w: World, p: nat, at: Wall, error: string)
    requires Once(w) && Enabled(w, Settle(p, at, error))
    ensures WroteBack(w, AfterSettle(w, p, at, error), p)
  {
    SettleSucceeds(w, p, at, error);
  }

  lemma {:induction false} OnceWhenSettled(w: World, after: World, p: nat)
    requires Once(w) && Sound(after) && FlightsCurrent(after) && WroteBack(w, after, p)
    ensures Once(after)
  {
    SettledPasses(w.passes, p);
    TailIsFresh(w.passes[p].queue, w.done, w.passes[p].phase.ok);
  }

  lemma {:induction false} SettleOnce(w: World, p: nat, at: Wall, error: string)
    requires Once(w) && Enabled(w, Settle(p, at, error))
    ensures Once(Next(w, Settle(p, at, error)))
  {
    StepKeepsBase(w, Settle(p, at, error));
    SettleSettles(w, p, at, error);
    OnceWhenSettled(w, Next(w, Settle(p, at, error)), p);
  }

  lemma {:induction false} StopOnce(w: World, e: Event)
    requires Once(w) && (e.Die? || e.Crash?) && Enabled(w, e) && Solo(w, e)
    ensures Once(Next(w, e))
  {
    StepKeepsBase(w, e);
    forall t
      ensures !InFlight(w.passes, t) && !InFlight(Next(w, e).passes, t)
    {
    }
  }

  lemma {:induction false} StepOnce(w: World, e: Event)
    requires Once(w) && Enabled(w, e) && Solo(w, e)
    ensures Once(Next(w, e))
  {
    match e
    case Call(op) => StepKeepsBase(w, e);
    case Begin(p, limit) => BeginOnce(w, p, limit);
    case Send(p, ok) => SendOnce(w, p, ok);
    case Settle(p, at, error) => SettleOnce(w, p, at, error);
    case _ => StopOnce(w, e);
  }

  lemma {:induction false} SoloRunsOnce(w: World, es: seq<Event>)
    requires Once(w) && SoloRun(w, es) && RunFrom(w, es)
    ensures Once(After(w, es))
    decreases |es|
  {
    if es != [] {
      StepOnce(w, es[0]);
      SoloRunsOnce(Next(w, es[0]), es[1..]);
    }
  }

  /**
   * With one dispatcher and no stop between send and mark, every delivered
   * notification was sent successfully exactly once, and an undelivered one
   * was never sent unless its mark is about to be written. Retention may run
   * at any time.
   */
  lemma {:induction false} ExactlyOnce(es: seq<Event>, token: nat)
    requires SoloRun(Start(), es)
    ensures RunFrom(Start(), es)
    ensures var w := After(Start(), es);
      && (token in w.done ==> multiset(w.sent)[token] == 1)
      && (token !in w.done && !InFlight(w.passes, token) ==> multiset(w.sent)[token] == 0)
  {
    SoloRunsAreRuns(Start(), es);
    StartIsSound();
    SoloRunsOnce(Start(), es);
  }
}
