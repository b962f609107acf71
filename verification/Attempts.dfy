/** How the attempts of a pending delivery follow from the history of the run. */
module Attempts {
  import opened Prelude
  import opened IsoTime
  import opened Snapshots
  import opened Tables
  import opened Refinement
  import opened Runs
  import opened Backlog

  datatype FailedWrite = FailedWrite(at: Wall, error: string)

  ghost function QueueLength(ops: seq<Op>): nat
    requires Legal(EMPTY, ops)
  {
    |Pending(Final(EMPTY, ops).outbox)|
  }

  /**
   * The failed write-backs addressed to the delivery that is now at position i
   * of the queue, since it was enqueued.
   */
  ghost function FailedWrites(ops: seq<Op>, i: nat): seq<FailedWrite>
    requires Legal(EMPTY, ops)
    decreases |ops|
  {
    if ops == [] then [] else
      var front, op := ops[..|ops| - 1], ops[|ops| - 1];
      if op.SettleDelivery? && op.index < QueueLength(front) then
        if op.failure.None? then FailedWrites(front, if i < op.index then i else i + 1)
        else FailedWrites(front, i) + if i == op.index then [FailedWrite(op.at, op.failure.value)] else []
      else if i < QueueLength(front) then FailedWrites(front, i)
      else []
  }

  /** The item has seen these failed attempts and no other. */
  ghost predicate HasSeen(item: Delivery, failed: seq<FailedWrite>) {
    && item.attempts == |failed|
    && (if failed == [] then item.lastAttemptAt.None? && item.lastError.None?
        else
          var last := failed[|failed| - 1];
          && item.lastAttemptAt == Some(last.at)
          && item.lastError.Some? && IsCut(item.lastError.value, last.error, 2000))
  }

  lemma {:induction false} SettledHasSeen(item: Delivery, failed: seq<FailedWrite>, at: Wall, error: string)
    requires HasSeen(item, failed)
    ensures HasSeen(SettledItem(item, at, Some(error)), failed + [FailedWrite(at, error)])
  {
  }

  /** What a step does to the queue: settle, append fresh deliveries, or nothing. */
  lemma {:induction false} QueueStep(v: View, op: Op, i: nat)
    requires Applicable(v.status, op) && i < |Step(v, op).0.pending|
    ensures var item := Step(v, op).0.pending[i];
      if op.SettleDelivery? && op.index < |v.pending| then
        if op.failure.None? then
          var j := if i < op.index then i else i + 1;
          j < |v.pending| && item == v.pending[j]
        else i < |v.pending| &&
             item == if i == op.index then SettledItem(v.pending[i], op.at, op.failure) else v.pending[i]
      else if i < |v.pending| then item == v.pending[i]
      else HasSeen(item, [])
  {
    if op.RecordSuccess? && Storable(op.result.opportunities) && i >= |v.pending| {
      var ts := TransitionsSince(Get(v.latest, op.job), op.result);
      FreshItem(op.job, op.result.checkedAt, ts, op.plan, i - |v.pending|);
    }
  }

  lemma {:induction false} FreshItem(job: Job, at: Wall, ts: seq<Transition>, plan: Plan, i: nat)
    requires i < |Items(Enqueued(job, at, ts, plan))|
    ensures HasSeen(Items(Enqueued(job, at, ts, plan))[i], [])
  {
    EnqueuedSound(job, at, ts, plan);
    assert Enqueued(job, at, ts, plan)[i] in Enqueued(job, at, ts, plan);
  }

  lemma {:induction false} QueueBySteps(ops: seq<Op>)
    requires Legal(EMPTY, ops) && ops != []
    ensures var v, op := ViewOf(Final(EMPTY, ops[..|ops| - 1])), ops[|ops| - 1];
      && v.pending == Pending(Final(EMPTY, ops[..|ops| - 1]).outbox) && Applicable(v.status, op)
      && Pending(Final(EMPTY, ops).outbox) == Step(v, op).0.pending
  {
    RunsStayConsistent(EMPTY, ops[..|ops| - 1]);
    ApplyRefinesStep(Final(EMPTY, ops[..|ops| - 1]), ops[|ops| - 1]);
  }

  /**
   * In every run a pending delivery has one attempt for each failed write-back
   * addressed to it since it was enqueued, and remembers the last of them.
   */
  lemma {:induction false} AttemptsAreFailedWrites(ops: seq<Op>, i: nat)
    requires Legal(EMPTY, ops) && i < QueueLength(ops)
    ensures HasSeen(Pending(Final(EMPTY, ops).outbox)[i], FailedWrites(ops, i))
    decreases |ops|
  {
    if ops != [] {
      var front, op := ops[..|ops| - 1], ops[|ops| - 1];
      var v := ViewOf(Final(EMPTY, front));
      QueueBySteps(ops);
      QueueStep(v, op, i);
      var j := if op.SettleDelivery? && op.index < |v.pending| && op.failure.None? && i >= op.index then i + 1 else i;
      if j < |v.pending| {
        AttemptsAreFailedWrites(front, j);
        if op.SettleDelivery? && op.failure.Some? && op.index == i {
          SettledHasSeen(v.pending[i], FailedWrites(front, i), op.at, op.failure.value);
        }
      }
    }
  }

  /* ---------- backlogs over a run ---------- */

  /** Some delivery of the job that is still pending was failed at least so often. */
  ghost predicate FailedOften(ops: seq<Op>, job: Job, times: int)
    requires Legal(EMPTY, ops)
  {
    exists i: nat :: i < QueueLength(ops) && Pending(Final(EMPTY, ops).outbox)[i].job == job
                     && |FailedWrites(ops, i)| >= times
  }

  /** A job is stuck exactly when the history says so. */
  lemma {:induction false} StuckMeansFailedOften(ops: seq<Op>, job: Job, times: int)
    requires Legal(EMPTY, ops)
    ensures Stuck(Pending(Final(EMPTY, ops).outbox), job, times) <==> FailedOften(ops, job, times)
  {
    forall i: nat | i < QueueLength(ops)
      ensures Pending(Final(EMPTY, ops).outbox)[i].attempts == |FailedWrites(ops, i)|
    {
      AttemptsAreFailedWrites(ops, i);
    }
  }
}
