/**
 * The shortest way in which retention beside an open pass loses a notification,
 * with its exact condition, and a run of this kind from the empty store.
 */
module RetentionRace {
  import opened Prelude
  import opened RowOrder
  import opened IsoTime
  import opened Snapshots
  import opened Tables
  import opened Integrity
  import opened Refinement
  import opened Dispatch
  import opened DeliveryProtocol
  import opened RetentionSafety
  import opened RetentionLoss

  /** A notification that is marked delivered, was never sent and is no longer pending. */
  ghost predicate Lost(w: World, token: nat) {
    token in w.issued && token in w.done && token !in w.sent && !PendingAs(w.db.outbox, w.births, token)
  }

  lemma {:induction false} DoneIsNotPending(w: World, token: nat)
    requires Sound(w) && token in w.done
    ensures !PendingAs(w.db.outbox, w.births, token)
  {
  }

  /* ---------- one prune, one success, one turn ---------- */

  /** The prune, the success after it, and the pass's turn with its head. */
  function Race(p: nat, prune: Op, success: Op, at: Wall): seq<Event> {
    [Call(prune), Call(success), Send(p, true), Settle(p, at, "")]
  }

  /** The success gives an id out that the prune leaves free, read off the tables before both. */
  ghost predicate Reissues(db: Db, prune: Op, success: Op, id: nat)
    requires Consistent(db) && prune.Prune? && success.RecordSuccess?
  {
    && Storable(success.result.opportunities)
    && 0 <= id - FirstFree(db, prune) < |NewDeliveries(db, success.job, success.result, success.plan)|
  }

  lemma {:induction false} ReissuesMeans(db: Db, prune: Op, success: Op, id: nat)
    requires Consistent(db) && prune.Prune? && success.RecordSuccess? && Applicable(db.status, success)
    ensures id in Apply(Apply(db, prune).0, success).0.outbox
      <==> id in Pruned(db, prune) || Reissues(db, prune, success, id)
    ensures id in Pruned(db, prune) ==> !Reissues(db, prune, success, id)
  {
    RetainedAreKept(db, prune);
    LatestAfterPrune(db, prune.observationsBefore, prune.notificationsBefore, success.job);
    SuccessGivesOut(Apply(db, prune).0, success.job, success.result, success.plan, id);
  }

  /** The id at the head of the pass's queue means its row, or no row. */
  ghost predicate HeadMeansRow(w: World, p: nat)
    requires p in w.passes && w.passes[p].queue != []
  {
    var head := w.passes[p].queue[0];
    head.id in w.births ==> w.births[head.id] == head.token
  }

  lemma {:induction false} TurnMarksSent(w: World, p: nat, at: Wall)
    requires Sound(w) && AllSent(w) && p in w.passes && w.passes[p].queue != [] && w.passes[p].phase.Idle?
    requires HeadMeansRow(w, p)
    ensures RunFrom(w, [Send(p, true), Settle(p, at, "")])
    ensures AllSent(After(w, [Send(p, true), Settle(p, at, "")]))
  {
    TurnIsRun(w, p, true, at);
  }

  lemma {:induction false} TurnMarksUnsent(w: World, p: nat, at: Wall, token: nat)
    requires Sound(w) && p in w.passes && w.passes[p].queue != [] && w.passes[p].phase.Idle?
    requires var head := w.passes[p].queue[0];
             Undelivered(w.db.outbox, head.id) && token == w.births[head.id] && token != head.token && token !in w.sent
    ensures RunFrom(w, [Send(p, true), Settle(p, at, "")])
    ensures Lost(After(w, [Send(p, true), Settle(p, at, "")]), token)
  {
    TurnMarksHead(w, p, at, token);
    NothingIsLost(w, [Send(p, true), Settle(p, at, "")]);
    DoneIsNotPending(After(w, [Send(p, true), Settle(p, at, "")]), token);
  }

  /** What the pass's head means when prune and success are over. */
  lemma {:induction false} HeadAfterBoth(w: World, p: nat, prune: Op, success: Op)
    requires Sound(w) && p in w.passes && w.passes[p].queue != [] && HeadMeansRow(w, p)
    requires prune.Prune? && success.RecordSuccess? && UniqueIds(success.result.opportunities)
    ensures var v, head := AfterCall(AfterCall(w, prune), success), w.passes[p].queue[0];
            Sound(v) && if !Reissues(w.db, prune, success, head.id) then HeadMeansRow(v, p)
            else Undelivered(v.db.outbox, head.id) && v.births[head.id] != head.token && v.births[head.id] !in v.sent
  {
    var pruned, head := AfterCall(w, prune), w.passes[p].queue[0];
    ReissuesMeans(w.db, prune, success, head.id);
    CallKeepsSound(w, prune);
    CallKeepsSound(pruned, success);
    if Reissues(w.db, prune, success, head.id) {
      CallFrames(pruned.db, success);
      NewNameUnsent(pruned, success, head.id);
      assert QueueIssued(pruned.passes[p].queue, pruned.issued);
    } else {
      CallFrames(w.db, prune);
    }
  }

  /**
   * After prune, success and turn something is marked delivered that was never
   * sent exactly when the success gives out the id at the head of the queue as
   * one that the prune leaves free; the new notification is then lost.
   */
  lemma {:induction false} ReissuedIdLosesDelivery(w: World, p: nat, prune: Op, success: Op, at: Wall)
    returns (token: nat)
    requires Sound(w) && AllSent(w) && p in w.passes && w.passes[p].queue != [] && w.passes[p].phase.Idle?
    requires HeadMeansRow(w, p)
    requires prune.Prune? && success.RecordSuccess? && UniqueIds(success.result.opportunities)
    ensures RunFrom(w, Race(p, prune, success, at))
    ensures !AllSent(After(w, Race(p, prune, success, at))) <==> Reissues(w.db, prune, success, w.passes[p].queue[0].id)
    ensures !AllSent(After(w, Race(p, prune, success, at))) ==> Lost(After(w, Race(p, prune, success, at)), token)
  {
    var v, id := AfterCall(AfterCall(w, prune), success), w.passes[p].queue[0].id;
    HeadAfterBoth(w, p, prune, success);
    if Reissues(w.db, prune, success, id) {
      token := v.births[id];
      TurnMarksUnsent(v, p, at, token);
    } else {
      token := 0;
      TurnMarksSent(v, p, at);
    }
    RaceSteps(w, p, prune, success, at);
  }

  lemma {:induction false} PrependTwo(w: World, e: Event, f: Event, es: seq<Event>)
    requires Enabled(w, e) && Enabled(Next(w, e), f) && RunFrom(Next(Next(w, e), f), es)
    ensures RunFrom(w, [e, f] + es) && After(w, [e, f] + es) == After(Next(Next(w, e), f), es)
  {
    Prepend(Next(w, e), f, es);
    Prepend(w, e, [f] + es);
    assert [e] + ([f] + es) == [e, f] + es;
  }

  lemma {:induction false} RaceSteps(w: World, p: nat, prune: Op, success: Op, at: Wall)
    requires Enabled(w, Call(prune)) && Enabled(AfterCall(w, prune), Call(success))
    requires RunFrom(AfterCall(AfterCall(w, prune), success), [Send(p, true), Settle(p, at, "")])
    ensures RunFrom(w, Race(p, prune, success, at))
    ensures After(w, Race(p, prune, success, at))
         == After(AfterCall(AfterCall(w, prune), success), [Send(p, true), Settle(p, at, "")])
  {
    PrependTwo(w, Call(prune), Call(success), [Send(p, true), Settle(p, at, "")]);
    assert [Call(prune), Call(success)] + [Send(p, true), Settle(p, at, "")] == Race(p, prune, success, at);
  }

  /* ---------- such a situation is reached ---------- */

  /** A snapshot with one available opportunity, reported on one channel. */
  function OneOpportunity(job: Job, at: Wall, o: Opportunity, channel: Channel): Op {
    RecordSuccess(job, CheckResult(at, [o]), PlanData([channel], {InitiallyAvailable}))
  }

  predicate Reported(o: Opportunity) {
    o.availability == Available && o.attributes.Json?
  }

  lemma {:induction false} InitialReport(o: Opportunity)
    requires Reported(o)
    ensures DetectInitial([o]) == [Transition(InitiallyAvailable, o.id, None, Some(o))]
  {
    assert [o][..0] == [];
    assert DetectInitial([]) == [];
  }

  lemma {:induction false} OneFannedOut(job: Job, at: Wall, t: Transition, plan: Plan)
    requires t.kind in plan.on && |plan.channels| == 1
    ensures |Enqueued(job, at, [t], plan)| == 1
  {
    assert [t][..0] == [];
    assert Enqueued(job, at, [], plan) == [];
    assert |Fanout(0, job, at, t, plan)| == 1;
  }

  /** A job's first snapshot enqueues one delivery. */
  lemma {:induction false} FirstIsReported(db: Db, job: Job, at: Wall, o: Opportunity, channel: Channel)
    requires Reported(o) && RunsOf(db.runs, job) == {}
    ensures var op := OneOpportunity(job, at, o, channel); |NewDeliveries(db, job, op.result, op.plan)| == 1
  {
    InitialReport(o);
    OneFannedOut(job, at, Transition(InitiallyAvailable, o.id, None, Some(o)),
      OneOpportunity(job, at, o, channel).plan);
    assert Latest(db, job) == None;
  }

  /** Job a's only notification is undelivered and belongs to its first run, of time t0. */
  ghost predicate FirstRunOnly(db: Db, a: Job, t0: Wall, o: Opportunity) {
    && Consistent(db) && db.outbox.Keys == {1} && db.outbox[1].deliveredAt.None?
    && db.runs == map[1 := Run(a, t0)] && Latest(db, a) == Some(CheckResult(t0, [o]))
  }

  lemma {:induction false} FirstRun(a: Job, t0: Wall, o: Opportunity, channel: Channel)
    requires Reported(o)
    ensures FirstRunOnly(Apply(EMPTY, OneOpportunity(a, t0, o, channel)).0, a, t0, o)
  {
    var op := OneOpportunity(a, t0, o, channel);
    assert Storable([o]);
    OneRowIsWritten(a, t0, o, channel);
    SuccessKeepsConsistent(EMPTY, a, op.result, op.plan);
    LatestAfterSuccess(EMPTY, a, op.result, op.plan, a);
    FirstOfAll(AfterSuccess(EMPTY, a, op.result, op.plan), a, t0, o);
  }

  lemma {:induction false} FirstOfAll(after: Db, a: Job, t0: Wall, o: Opportunity)
    requires Consistent(after) && after.outbox.Keys == {1} && after.outbox[1].deliveredAt.None?
    requires after.runs == EMPTY.runs[NextId(EMPTY.runs.Keys) := Run(a, t0)]
    requires Latest(after, a) == Some(CheckResult(t0, [o]))
    ensures FirstRunOnly(after, a, t0, o)
  {
    assert EMPTY.runs.Keys == {};
    FirstIdIsOne();
  }

  lemma {:induction false} OneRowIsWritten(a: Job, t0: Wall, o: Opportunity, channel: Channel)
    requires Reported(o)
    ensures var op := OneOpportunity(a, t0, o, channel);
            var outbox := AfterSuccess(EMPTY, a, op.result, op.plan).outbox;
            outbox.Keys == {1} && outbox[1].deliveredAt.None?
  {
    var op := OneOpportunity(a, t0, o, channel);
    FirstIsReported(EMPTY, a, t0, o, channel);
    FirstIdIsOne();
    SuccessFrames(EMPTY, a, op.result, op.plan);
    forall n: nat ensures n in AfterSuccess(EMPTY, a, op.result, op.plan).outbox <==> n == 1 {
      SuccessGivesOut(EMPTY, a, op.result, op.plan, n);
    }
  }

  lemma {:induction false} FirstIdIsOne()
    ensures NextId({}) == 1 && NextId({1}) == 2
  {
    assert MaxId({1}) in {1};
  }

  /** Two runs of job a, the first of time t0; its only notification belongs to the first. */
  ghost predicate TwoRuns(db: Db, a: Job, t0: Wall) {
    && Consistent(db) && db.outbox.Keys == {1}
    && db.runs.Keys == {1, 2} && db.runs[1] == Run(a, t0) && db.runs[2].job == a
    && db.transitions[db.outbox[1].transition].run == 1
  }

  lemma {:induction false} NothingToAppend<T>(table: map<nat, T>)
    ensures Append(table, []) == table
  {
  }

  lemma {:induction false} UnchangedReport(job: Job, t0: Wall, again: Wall, o: Opportunity, plan: Plan)
    ensures TransitionsSince(Some(CheckResult(t0, [o])), CheckResult(again, [o])) == []
    ensures Enqueued(job, again, [], plan) == []
  {
    SilentIffUnchanged([o], [o]);
  }

  /** Recording the same snapshot again adds a run and leaves the notification as it is. */
  lemma {:induction false} SecondRunRows(db: Db, a: Job, t0: Wall, again: Wall, o: Opportunity, channel: Channel)
    requires Latest(db, a) == Some(CheckResult(t0, [o])) && Reported(o)
    ensures var op := OneOpportunity(a, again, o, channel); var after := AfterSuccess(db, a, op.result, op.plan);
            Apply(db, op).0 == after && after.outbox == db.outbox && after.transitions == db.transitions
            && after.runs == db.runs[NextId(db.runs.Keys) := Run(a, again)]
  {
    UnchangedReport(a, t0, again, o, OneOpportunity(a, again, o, channel).plan);
    NothingToAppend(db.outbox);
    NothingToAppend(db.transitions);
    assert Storable([o]);
  }

  lemma {:induction false} SecondRun(db: Db, a: Job, t0: Wall, again: Wall, o: Opportunity, channel: Channel)
    requires FirstRunOnly(db, a, t0, o) && Reported(o)
    ensures var op := OneOpportunity(a, again, o, channel);
            TwoRuns(Apply(db, op).0, a, t0) && Apply(db, op).0.outbox == db.outbox
  {
    var op := OneOpportunity(a, again, o, channel);
    SecondRunRows(db, a, t0, again, o, channel);
    SuccessKeepsConsistent(db, a, op.result, op.plan);
    SecondOfTwo(db, AfterSuccess(db, a, op.result, op.plan), a, t0, again, o);
  }

  lemma {:induction false} SecondOfTwo(db: Db, after: Db, a: Job, t0: Wall, again: Wall, o: Opportunity)
    requires FirstRunOnly(db, a, t0, o) && Consistent(after)
    requires after.outbox == db.outbox && after.transitions == db.transitions
    requires after.runs == db.runs[NextId(db.runs.Keys) := Run(a, again)]
    ensures TwoRuns(after, a, t0)
  {
    FirstIdIsOne();
    OnlyRunOwnsAll(db, a, t0);
  }

  lemma {:induction false} OnlyRunOwnsAll(db: Db, a: Job, t0: Wall)
    requires Consistent(db) && db.runs == map[1 := Run(a, t0)]
    ensures db.runs.Keys == {1} && forall n | n in db.outbox :: db.transitions[db.outbox[n].transition].run == 1
  {
    forall n | n in db.outbox ensures db.transitions[db.outbox[n].transition].run in db.runs {
    }
  }

  /* ---------- two passes, a delivery, and the prune ---------- */

  lemma {:induction false} OneListed(outbox: map<nat, Notification>, id: nat)
    requires outbox.Keys == {id} && outbox[id].deliveredAt.None?
    ensures Listed(outbox, 100) == [id]
  {
    PendingIdsAre(outbox, [id]);
  }

  lemma {:induction false} ListsTheRow(w: World, p: nat)
    requires Sound(w) && w.db.outbox.Keys == {1} && w.db.outbox[1].deliveredAt.None? && p !in w.passes
    ensures Next(w, Begin(p, 100)) == w.(passes := w.passes[p := PassState([Flight(1, w.births[1])], Idle)])
  {
    OneListed(w.db.outbox, 1);
    assert Flights([1], w.births) == [Flight(1, w.births[1])];
  }

  lemma {:induction false} BothList(w: World)
    requires Sound(w) && w.db.outbox.Keys == {1} && w.db.outbox[1].deliveredAt.None? && w.passes == map[]
    ensures var flights := [Flight(1, w.births[1])];
            RunFrom(w, [Begin(0, 100), Begin(1, 100)])
            && After(w, [Begin(0, 100), Begin(1, 100)])
                 == w.(passes := map[0 := PassState(flights, Idle), 1 := PassState(flights, Idle)])
  {
    var w1 := Next(w, Begin(0, 100));
    ListsTheRow(w, 0);
    StepKeepsSound(w, Begin(0, 100));
    ListsTheRow(w1, 1);
    PrependTwo(w, Begin(0, 100), Begin(1, 100), []);
    assert [Begin(0, 100), Begin(1, 100)] + [] == [Begin(0, 100), Begin(1, 100)];
  }

  /** Pass 1 still holds row 1, which has been delivered at time t. */
  ghost predicate HoldsDelivered(w: World, token: nat, t: Wall) {
    && w.db.outbox.Keys == {1} && w.db.outbox[1].deliveredAt == Some(t)
    && 1 in w.passes && w.passes[1] == PassState([Flight(1, token)], Idle)
  }

  /** With both passes open, the first one sends and marks the row. */
  lemma {:induction false} FirstDelivers(w: World, flight: Flight, t: Wall)
    requires w.passes == map[0 := PassState([flight], Idle), 1 := PassState([flight], Idle)]
    requires w.db.outbox.Keys == {1} && w.db.outbox[1].deliveredAt.None? && flight.id == 1
    ensures RunFrom(w, [Send(0, true), Settle(0, t, "")])
    ensures var after := After(w, [Send(0, true), Settle(0, t, "")]);
      && HoldsDelivered(after, flight.token, t) && after.births == w.births
      && after.db == w.db.(outbox := after.db.outbox) && after.db.outbox[1].transition == w.db.outbox[1].transition
  {
    TurnIsRun(w, 0, true, t);
  }

  function Opening(a: Job, t0: Wall, again: Wall, t: Wall, o: Opportunity, channel: Channel): seq<Event> {
    [Call(OneOpportunity(a, t0, o, channel)), Call(OneOpportunity(a, again, o, channel))]
    + ([Begin(0, 100), Begin(1, 100)] + [Send(0, true), Settle(0, t, "")])
  }

  /** What the opening leads to: the delivered row 1 is of job a's older run. */
  ghost predicate Opened(w: World, a: Job, t0: Wall, t: Wall) {
    Sound(w) && AllSent(w) && TwoRuns(w.db, a, t0) && w.births.Keys == {1} && HoldsDelivered(w, w.births[1], t)
  }

  lemma {:induction false} Recorded(a: Job, t0: Wall, again: Wall, o: Opportunity, channel: Channel)
    requires Reported(o)
    ensures Enabled(Start(), Call(OneOpportunity(a, t0, o, channel)))
    ensures var w := Next(Start(), Call(OneOpportunity(a, t0, o, channel)));
            Enabled(w, Call(OneOpportunity(a, again, o, channel)))
    ensures var first := Next(Start(), Call(OneOpportunity(a, t0, o, channel)));
            var w := Next(first, Call(OneOpportunity(a, again, o, channel)));
            Sound(w) && AllSent(w) && TwoRuns(w.db, a, t0) && w.db.outbox[1].deliveredAt.None? && w.passes == map[]
  {
    var first, second := Call(OneOpportunity(a, t0, o, channel)), Call(OneOpportunity(a, again, o, channel));
    StartIsSound();
    FirstRun(a, t0, o, channel);
    StepKeepsSound(Start(), first);
    SecondRun(Next(Start(), first).db, a, t0, again, o, channel);
    StepKeepsSound(Next(Start(), first), second);
  }

  lemma {:induction false} BothPassesOpen(w: World, a: Job, t0: Wall, t: Wall)
    requires Sound(w) && TwoRuns(w.db, a, t0) && w.db.outbox[1].deliveredAt.None? && w.passes == map[]
    ensures var es := [Begin(0, 100), Begin(1, 100)] + [Send(0, true), Settle(0, t, "")];
      && RunFrom(w, es) && TwoRuns(After(w, es).db, a, t0) && After(w, es).births == w.births
      && HoldsDelivered(After(w, es), w.births[1], t)
  {
    BothList(w);
    var open, flight := After(w, [Begin(0, 100), Begin(1, 100)]), Flight(1, w.births[1]);
    FirstDelivers(open, flight, t);
    RunsConcatenate(w, [Begin(0, 100), Begin(1, 100)], [Send(0, true), Settle(0, t, "")]);
    var es := [Begin(0, 100), Begin(1, 100)] + [Send(0, true), Settle(0, t, "")];
    NothingIsLost(w, es);
  }

  lemma {:induction false} NoPruneMarksSent(es: seq<Event>)
    requires RunFrom(Start(), es) && PruneFree(es)
    ensures Sound(After(Start(), es)) && AllSent(After(Start(), es))
  {
    StartIsSound();
    PruneFreeIsHarmless(Start(), es);
    HarmlessRunsMarkSent(Start(), es);
  }

  lemma {:induction false} NoPruneToOpen(a: Job, t0: Wall, again: Wall, t: Wall, o: Opportunity, channel: Channel)
    ensures PruneFree(Opening(a, t0, again, t, o, channel))
  {
  }

  lemma {:induction false} OpeningSteps(a: Job, t0: Wall, again: Wall, t: Wall, o: Opportunity, channel: Channel)
    requires Reported(o)
    ensures var es := Opening(a, t0, again, t, o, channel);
      && RunFrom(Start(), es) && TwoRuns(After(Start(), es).db, a, t0)
      && 1 in After(Start(), es).births && HoldsDelivered(After(Start(), es), After(Start(), es).births[1], t)
  {
    var first, second := Call(OneOpportunity(a, t0, o, channel)), Call(OneOpportunity(a, again, o, channel));
    Recorded(a, t0, again, o, channel);
    BothPassesOpen(Next(Next(Start(), first), second), a, t0, t);
    PrependTwo(Start(), first, second, [Begin(0, 100), Begin(1, 100)] + [Send(0, true), Settle(0, t, "")]);
  }

  lemma {:induction false} OpeningOpens(a: Job, t0: Wall, again: Wall, t: Wall, o: Opportunity, channel: Channel)
    requires Reported(o)
    ensures var es := Opening(a, t0, again, t, o, channel);
            RunFrom(Start(), es) && Opened(After(Start(), es), a, t0, t)
  {
    OpeningSteps(a, t0, again, t, o, channel);
    NoPruneToOpen(a, t0, again, t, o, channel);
    NoPruneMarksSent(Opening(a, t0, again, t, o, channel));
  }

  /** A delivered row goes with its run, however recently it was delivered. */
  lemma {:induction false} RowGoesWithItsRun(db: Db, a: Job, t0: Wall, c: Wall, d: Wall)
    requires TwoRuns(db, a, t0) && db.outbox[1].deliveredAt.Some? && Before(t0, c)
    ensures RetainedIds(db, Prune(c, d)) == {} && FirstFree(db, Prune(c, d)) == 1
  {
    assert 2 in RunsOf(db.runs, a);
    assert !RetainsRun(db, 1, c);
    assert !RetainsRow(db, c, d, 1);
    FirstIdIsOne();
  }

  function LosingRun(
      a: Job, b: Job, t0: Wall, again: Wall, t: Wall, c: Wall, d: Wall, later: Wall, o: Opportunity, channel: Channel)
    : seq<Event>
  {
    Opening(a, t0, again, t, o, channel) + Race(1, Prune(c, d), OneOpportunity(b, later, o, channel), later)
  }

  /**
   * From the empty store: job a's snapshot is recorded twice and its
   * notification delivered by one of two open passes, at any time t. A prune
   * of the older run removes the row, though both cutoffs may lie before t; and
   * whenever b's first success comes, the other pass marks the notification of
   * b delivered instead of sending it.
   */
  lemma {:induction false} RetentionLosesDelivery(
      a: Job, b: Job, t0: Wall, again: Wall, t: Wall, c: Wall, d: Wall, later: Wall, o: Opportunity, channel: Channel)
    returns (token: nat)
    requires a != b && Reported(o) && Before(t0, c)
    ensures RunFrom(Start(), LosingRun(a, b, t0, again, t, c, d, later, o, channel))
    ensures Lost(After(Start(), LosingRun(a, b, t0, again, t, c, d, later, o, channel)), token)
  {
    var opening, race := Opening(a, t0, again, t, o, channel),
      Race(1, Prune(c, d), OneOpportunity(b, later, o, channel), later);
    OpeningOpens(a, t0, again, t, o, channel);
    token := OpenedLoses(After(Start(), opening), a, b, t0, t, c, d, later, o, channel);
    RunsConcatenate(Start(), opening, race);
  }

  lemma {:induction false} OpenedLoses(
      w: World, a: Job, b: Job, t0: Wall, t: Wall, c: Wall, d: Wall, later: Wall, o: Opportunity, channel: Channel)
    returns (token: nat)
    requires Opened(w, a, t0, t) && a != b && Reported(o) && Before(t0, c)
    ensures var race := Race(1, Prune(c, d), OneOpportunity(b, later, o, channel), later);
            RunFrom(w, race) && Lost(After(w, race), token)
  {
    var success := OneOpportunity(b, later, o, channel);
    RowGoesWithItsRun(w.db, a, t0, c, d);
    assert RunsOf(w.db.runs, b) == {};
    FirstIsReported(w.db, b, later, o, channel);
    assert Reissues(w.db, Prune(c, d), success, 1);
    token := ReissuedIdLosesDelivery(w, 1, Prune(c, d), success, later);
  }
}
