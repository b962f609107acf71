/** One evaluation of the delivery backlogs: when it succeeds, which jobs it raises, which rows it touches. */
module Backlog {
  import opened Prelude
  import opened IsoTime
  import opened Tables

  /** Some undelivered notification of the job has failed at least `alertAfter` times. */
  ghost predicate Stuck(pending: seq<Delivery>, job: Job, alertAfter: int) {
    exists i :: 0 <= i < |pending| && pending[i].job == job && pending[i].attempts >= alertAfter
  }

  /** The grouped count and maximum of the query say just that. */
  lemma {:induction false} BackloggedMeans(pending: seq<Delivery>, job: Job, alertAfter: int)
    ensures Backlogged(pending, job, alertAfter) <==> Stuck(pending, job, alertAfter)
  {
    if pending != [] {
      var last := |pending| - 1;
      var front := pending[..last];
      BackloggedMeans(front, job, alertAfter);
      NoneCounted(front, job);
      if Stuck(front, job, alertAfter) {
        var i :| 0 <= i < |front| && front[i].job == job && front[i].attempts >= alertAfter;
        assert pending[i] == front[i];
      }
      if Stuck(pending, job, alertAfter) {
        var i :| 0 <= i < |pending| && pending[i].job == job && pending[i].attempts >= alertAfter;
        if i < last { assert front[i] == pending[i]; }
      }
    }
  }

  lemma {:induction false} NoneCounted(pending: seq<Delivery>, job: Job)
    ensures CountFor(pending, job) == 0 ==> MaxAttempts(pending, job) == 0
  {
    if pending != [] { NoneCounted(pending[..|pending| - 1], job); }
  }

  /** The jobs of `order` that are backlogged without being flagged so, in that order. */
  function NewlyBacklogged(
      status: map<Job, JobRow>, pending: seq<Delivery>, order: seq<Job>, alertAfter: int): seq<Job>
  {
    if order == [] then [] else
      var j := order[|order| - 1];
      NewlyBacklogged(status, pending, order[..|order| - 1], alertAfter)
      + if j in status && Backlogged(pending, j, alertAfter) && !status[j].deliveryAlertActive then [j] else []
  }

  /** An evaluation touches the rows of the jobs it lists only. */
  lemma {:induction false} EvaluationUntouched(
      status: map<Job, JobRow>, alerts: map<nat, Alert>, pending: seq<Delivery>, order: seq<Job>, at: Wall,
      alertAfter: int, channels: seq<Channel>, j: Job)
    requires (forall k | k in order :: k in status) && j !in order
    ensures var r := EvaluateBacklog(status, alerts, pending, order, at, alertAfter, channels);
            r.Success? ==> Get(r.value.status, j) == Get(status, j)
  {
    if order != [] {
      assert order[|order| - 1] in order;
      EvaluationUntouched(status, alerts, pending, order[..|order| - 1], at, alertAfter, channels, j);
    }
  }

  /**
   * An evaluation fails exactly when it has a job to raise on a repeated channel;
   * otherwise it raises just these jobs.
   */
  lemma {:induction false} EvaluationSucceedsIff(
      status: map<Job, JobRow>, alerts: map<nat, Alert>, pending: seq<Delivery>, order: seq<Job>, at: Wall,
      alertAfter: int, channels: seq<Channel>)
    requires Distinct(order) && forall j | j in order :: j in status
    ensures var r := EvaluateBacklog(status, alerts, pending, order, at, alertAfter, channels);
            var raised := NewlyBacklogged(status, pending, order, alertAfter);
      && (r.Success? <==> Distinct(channels) || raised == [])
      && (if r.Success? then r.value.raised == raised else r.error == ConstraintViolated)
  {
    if order != [] {
      var front, last := order[..|order| - 1], order[|order| - 1];
      EvaluationSucceedsIff(status, alerts, pending, front, at, alertAfter, channels);
      assert last in order && last !in front;
      EvaluationUntouched(status, alerts, pending, front, at, alertAfter, channels, last);
    }
  }

  /** A successful evaluation leaves every listed job's flag saying whether it is backlogged. */
  lemma {:induction false} EvaluationSetsFlag(
      status: map<Job, JobRow>, alerts: map<nat, Alert>, pending: seq<Delivery>, order: seq<Job>, at: Wall,
      alertAfter: int, channels: seq<Channel>, job: Job)
    requires Distinct(order) && (forall j | j in order :: j in status) && job in order
    ensures var r := EvaluateBacklog(status, alerts, pending, order, at, alertAfter, channels);
            r.Success? ==> r.value.status[job].deliveryAlertActive == Backlogged(pending, job, alertAfter)
  {
    var front, last := order[..|order| - 1], order[|order| - 1];
    assert order == front + [last];
    if last != job {
      EvaluationSetsFlag(status, alerts, pending, front, at, alertAfter, channels, job);
    }
  }
}
