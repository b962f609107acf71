/** The interval scheduler: every due job is started unless its last execution still runs. */
module Scheduler {
  import opened Cadence

  type Job = string

  datatype Scheduled = Scheduled(id: Job, interval: real)

  predicate WellFormed(jobs: seq<Scheduled>) {
    && (forall i | 0 <= i < |jobs| :: jobs[i].interval > 0.0)
    && (forall i, j | 0 <= i < j < |jobs| :: jobs[i].id != jobs[j].id)
  }

  predicate Known(nextDue: map<Job, real>, jobs: seq<Scheduled>) {
    forall i | 0 <= i < |jobs| :: jobs[i].id in nextDue
  }

  /**
   * `created[t]` is the job that execution t was started for; `done` holds the
   * executions that ended. `tasks` is the scheduler's own table of executions,
   * `awaited` the executions that a shutdown in progress waits for.
   */
  datatype State = State(
    nextDue: map<Job, real>, tasks: map<Job, nat>, created: seq<Job>, done: set<nat>, skipped: seq<Job>,
      awaited: set<nat>)

  predicate Live(s: State, t: nat) {
    t < |s.created| && t !in s.done
  }

  predicate Running(s: State, job: Job) {
    job in s.tasks && s.tasks[job] !in s.done
  }

  function DiscardCompleted(s: State): State {
    s.(tasks := map j | j in s.tasks && s.tasks[j] !in s.done :: s.tasks[j])
  }

  function TickJob(s: State, job: Scheduled, now: real): State
    requires job.interval > 0.0 && job.id in s.nextDue
  {
    if now < s.nextDue[job.id] then s
    else
      var moved := s.(nextDue := s.nextDue[job.id := NextDue(s.nextDue[job.id], now, job.interval)]);
      if Running(s, job.id) then moved.(skipped := s.skipped + [job.id])
      else moved.(tasks := s.tasks[job.id := |s.created|], created := s.created + [job.id])
  }

  function TickJobs(s: State, jobs: seq<Scheduled>, now: real): (after: State)
    requires WellFormed(jobs) && Known(s.nextDue, jobs)
    ensures after.nextDue.Keys == s.nextDue.Keys && after.awaited == s.awaited
  {
    if jobs == [] then s else TickJob(TickJobs(s, jobs[..|jobs| - 1], now), jobs[|jobs| - 1], now)
  }

  /** One more round of the tick's loop. */
  lemma {:induction false} TickOneMore(s: State, jobs: seq<Scheduled>, now: real, i: nat)
    requires WellFormed(jobs) && Known(s.nextDue, jobs) && i < |jobs|
    ensures TickJobs(s, jobs[..i + 1], now) == TickJob(TickJobs(s, jobs[..i], now), jobs[i], now)
  {
    assert jobs[..i + 1][..i] == jobs[..i];
  }

  /* ---------- what one job sees ---------- */

  /** One job's share of the state: its due time, whether it runs, and how often it was started and skipped. */
  datatype Track = Track(due: real, busy: bool, starts: nat, skips: nat)

  function TrackOf(s: State, job: Job): Track
    requires job in s.nextDue
  {
    Track(s.nextDue[job], Running(s, job), multiset(s.created)[job], multiset(s.skipped)[job])
  }

  /** What a tick means for one job: when due it is skipped if it still runs and started if not. */
  function TickTrack(t: Track, now: real, interval: real): Track
    requires interval > 0.0
  {
    if now < t.due then t
    else if t.busy then t.(due := NextDue(t.due, now, interval), skips := t.skips + 1)
    else Track(NextDue(t.due, now, interval), true, t.starts + 1, t.skips)
  }

  /** Ended executions are ones that exist, and each entry is an execution of its job. */
  ghost predicate EntriesExist(s: State) {
    && (forall t | t in s.done :: t < |s.created|)
    && (forall j | j in s.tasks :: s.tasks[j] < |s.created| && s.created[s.tasks[j]] == j)
  }

  /** Every live execution is the one its job's entry points at. */
  ghost predicate Tracked(s: State) {
    forall t: nat | Live(s, t) :: s.created[t] in s.tasks && s.tasks[s.created[t]] == t
  }

  /** A shutdown in progress waits for every execution that is still live. */
  ghost predicate Drains(s: State) {
    && (forall t | t in s.awaited :: t < |s.created|)
    && (s.awaited != {} ==> forall t: nat | Live(s, t) :: t in s.awaited)
  }

  ghost predicate Sound(s: State) {
    EntriesExist(s) && Tracked(s) && Drains(s)
  }

  /** No two live executions belong to one job, and the running jobs are those with a live execution. */
  lemma {:induction false} SoundMeansExclusive(s: State)
    requires Sound(s)
    ensures forall t: nat, u: nat | Live(s, t) && Live(s, u) && s.created[t] == s.created[u] :: t == u
    ensures forall job: Job :: Running(s, job) <==> exists t: nat :: Live(s, t) && s.created[t] == job
  {
    forall job: Job
      ensures Running(s, job) <==> exists t: nat :: Live(s, t) && s.created[t] == job
    {
      if Running(s, job) { assert Live(s, s.tasks[job]); }
    }
  }

  /** Discarding ended executions loses no live one and changes nothing that any job sees. */
  lemma {:induction false} DiscardKeepsSound(s: State)
    requires Sound(s)
    ensures Sound(DiscardCompleted(s))
    ensures forall t: nat :: Live(DiscardCompleted(s), t) <==> Live(s, t)
    ensures forall job: Job :: job in DiscardCompleted(s).tasks <==> exists t: nat :: Live(s, t) && s.created[t] == job
    ensures forall job | job in s.nextDue :: TrackOf(DiscardCompleted(s), job) == TrackOf(s, job)
  {
    var after := DiscardCompleted(s);
    forall t: nat | Live(after, t) ensures after.created[t] in after.tasks && after.tasks[after.created[t]] == t {
      assert Live(s, t);
    }
    SoundMeansExclusive(s);
    forall job: Job
      ensures job in after.tasks <==> exists t: nat :: Live(s, t) && s.created[t] == job
    {
      assert job in after.tasks <==> Running(s, job);
    }
  }

  /**
   * Starting or skipping one job keeps the table sound and does to that job what a
   * tick means, and nothing to the others.
   */
  lemma {:induction false} TickJobOnTracks(s: State, job: Scheduled, now: real, other: Job)
    requires job.interval > 0.0 && job.id in s.nextDue && EntriesExist(s) && other in s.nextDue
    ensures var after := TickJob(s, job, now);
      TrackOf(after, other) == if other == job.id then TickTrack(TrackOf(s, other), now, job.interval)
        else TrackOf(s, other)
  {
  }

  lemma {:induction false} TickJobKeepsSound(s: State, job: Scheduled, now: real)
    requires job.interval > 0.0 && job.id in s.nextDue && Sound(s) && s.awaited == {}
    ensures Sound(TickJob(s, job, now))
  {
    var after := TickJob(s, job, now);
    forall t: nat | Live(after, t) ensures after.created[t] in after.tasks && after.tasks[after.created[t]] == t {
      if t < |s.created| { assert Live(s, t); }
    }
  }

  lemma {:induction false} TickJobsKeepSound(s: State, jobs: seq<Scheduled>, now: real)
    requires WellFormed(jobs) && Known(s.nextDue, jobs) && Sound(s) && s.awaited == {}
    ensures Sound(TickJobs(s, jobs, now))
  {
    if jobs != [] {
      TickJobsKeepSound(s, jobs[..|jobs| - 1], now);
      TickJobKeepsSound(TickJobs(s, jobs[..|jobs| - 1], now), jobs[|jobs| - 1], now);
    }
  }

  lemma {:induction false} TickLeavesOthers(s: State, jobs: seq<Scheduled>, now: real, other: Job)
    requires WellFormed(jobs) && Known(s.nextDue, jobs) && Sound(s) && s.awaited == {} && other in s.nextDue
    requires forall i | 0 <= i < |jobs| :: jobs[i].id != other
    ensures TrackOf(TickJobs(s, jobs, now), other) == TrackOf(s, other)
  {
    if jobs != [] {
      var n := |jobs| - 1;
      TickLeavesOthers(s, jobs[..n], now, other);
      TickJobsKeepSound(s, jobs[..n], now);
      TickJobOnTracks(TickJobs(s, jobs[..n], now), jobs[n], now, other);
    }
  }

  /** A tick treats every job by itself, whatever the order of the jobs and whatever the others do. */
  lemma {:induction false} TickIsJobWise(s: State, jobs: seq<Scheduled>, now: real, i: nat)
    requires WellFormed(jobs) && Known(s.nextDue, jobs) && Sound(s) && s.awaited == {} && i < |jobs|
    ensures TrackOf(TickJobs(s, jobs, now), jobs[i].id) == TickTrack(TrackOf(s, jobs[i].id), now, jobs[i].interval)
  {
    var n := |jobs| - 1;
    if i == n {
      TickLeavesOthers(s, jobs[..n], now, jobs[n].id);
    } else {
      TickIsJobWise(s, jobs[..n], now, i);
    }
    TickJobsKeepSound(s, jobs[..n], now);
    TickJobOnTracks(TickJobs(s, jobs[..n], now), jobs[n], now, jobs[i].id);
  }

  /* ---------- runs ---------- */

  /** A tick, an execution ending by itself, and the two ends of a shutdown, between which executions may end. */
  datatype Event = Tick(now: real) | Finish(task: nat) | ShutdownStarts | ShutdownEnds

  function Start(jobs: seq<Scheduled>, now: real): State {
    State(map i | 0 <= i < |jobs| :: jobs[i].id := now, map[], [], {}, [], {})
  }

  function Entries(s: State): set<nat> {
    set j | j in s.tasks && s.tasks[j] !in s.done :: s.tasks[j]
  }

  function Step(s: State, jobs: seq<Scheduled>, e: Event): (after: State)
    requires WellFormed(jobs) && Known(s.nextDue, jobs)
    ensures after.nextDue.Keys == s.nextDue.Keys
  {
    match e
    case Tick(now) => TickJobs(DiscardCompleted(s), jobs, now)
    case Finish(task) => s.(done := s.done + {task})
    case ShutdownStarts => if Entries(s) == {} then DiscardCompleted(s) else s.(awaited := Entries(s))
    case ShutdownEnds => DiscardCompleted(s.(done := s.done + s.awaited, awaited := {}))
  }

  function After(jobs: seq<Scheduled>, start: real, events: seq<Event>): (s: State)
    requires WellFormed(jobs)
    ensures Known(s.nextDue, jobs)
  {
    if events == [] then Start(jobs, start)
    else Step(After(jobs, start, events[..|events| - 1]), jobs, events[|events| - 1])
  }

  function Ticks(events: seq<Event>): seq<real> {
    if events == [] then []
    else
      var front := Ticks(events[..|events| - 1]);
      if events[|events| - 1].Tick? then front + [events[|events| - 1].now] else front
  }

  /** Only live executions end by themselves; while a shutdown waits, no tick and no second shutdown starts. */
  ghost predicate Possible(s: State, e: Event) {
    match e
    case Tick(_) => s.awaited == {}
    case Finish(task) => Live(s, task)
    case ShutdownStarts => s.awaited == {}
    case ShutdownEnds => s.awaited != {}
  }

  /** Every event is possible when it comes, and the clock never runs backwards. */
  ghost predicate Legal(jobs: seq<Scheduled>, start: real, events: seq<Event>)
    requires WellFormed(jobs)
  {
    && Clock(start, Ticks(events))
    && (forall k | 0 <= k < |events| :: Possible(After(jobs, start, events[..k]), events[k]))
  }

  lemma {:induction false} LegalPrefix(jobs: seq<Scheduled>, start: real, events: seq<Event>)
    requires WellFormed(jobs) && events != [] && Legal(jobs, start, events)
    ensures Legal(jobs, start, events[..|events| - 1])
  {
    var front := events[..|events| - 1];
    forall k | 0 <= k < |front|
      ensures Possible(After(jobs, start, front[..k]), front[k])
    {
      assert front[..k] == events[..k] && front[k] == events[k];
    }
    if events[|events| - 1].Tick? { ClockPrefix(start, Ticks(front), events[|events| - 1].now); }
  }

  lemma {:induction false} EntriesAreTheLive(s: State)
    requires Sound(s)
    ensures forall t: nat :: t in Entries(s) <==> Live(s, t)
  {
    forall t: nat | Live(s, t) ensures t in Entries(s) {
      assert s.tasks[s.created[t]] == t;
    }
  }

  lemma {:induction false} ShutdownEndKeepsSound(s: State)
    requires Sound(s) && s.awaited != {}
    ensures var after := DiscardCompleted(s.(done := s.done + s.awaited, awaited := {}));
            Sound(after) && forall t: nat :: !Live(after, t)
  {
    var ended := s.(done := s.done + s.awaited, awaited := {});
    forall t: nat ensures !Live(ended, t) {
      if Live(s, t) { assert t in s.awaited; }
    }
    assert Sound(ended);
    DiscardKeepsSound(ended);
  }

  lemma {:induction false} FinishKeepsSound(s: State, task: nat)
    requires Sound(s) && Live(s, task)
    ensures Sound(s.(done := s.done + {task}))
  {
    var after := s.(done := s.done + {task});
    forall t: nat | Live(after, t) ensures after.created[t] in after.tasks && after.tasks[after.created[t]] == t {
      assert Live(s, t);
    }
  }

  lemma {:induction false} StepKeepsSound(s: State, jobs: seq<Scheduled>, e: Event)
    requires WellFormed(jobs) && Known(s.nextDue, jobs) && Sound(s) && Possible(s, e)
    ensures Sound(Step(s, jobs, e))
    ensures (e.ShutdownStarts? || e.ShutdownEnds?) && Step(s, jobs, e).awaited == {} ==>
      forall t: nat :: !Live(Step(s, jobs, e), t)
  {
    match e
    case Tick(now) =>
      DiscardKeepsSound(s);
      TickJobsKeepSound(DiscardCompleted(s), jobs, now);
    case Finish(task) => FinishKeepsSound(s, task);
    case ShutdownStarts =>
      EntriesAreTheLive(s);
      DiscardKeepsSound(s);
    case ShutdownEnds => ShutdownEndKeepsSound(s);
  }

  /**
   * In every run, whatever ends when, the table points at every live execution,
   * and none is live once a shutdown is over (at once, if it has nothing to wait for).
   */
  lemma {:induction false} RunsStaySound(jobs: seq<Scheduled>, start: real, events: seq<Event>)
    requires WellFormed(jobs) && Legal(jobs, start, events)
    ensures Sound(After(jobs, start, events))
    ensures var s := After(jobs, start, events);
      events != [] && (events[|events| - 1].ShutdownStarts? || events[|events| - 1].ShutdownEnds?)
        && s.awaited == {} ==>
        forall t: nat :: !Live(s, t)
  {
    if events != [] {
      var n := |events| - 1;
      LegalPrefix(jobs, start, events);
      RunsStaySound(jobs, start, events[..n]);
      StepKeepsSound(After(jobs, start, events[..n]), jobs, events[n]);
    }
  }

  /** In every run at most one execution of a job is live. */
  lemma {:induction false} MutualExclusion(jobs: seq<Scheduled>, start: real, events: seq<Event>, t: nat, u: nat)
    requires WellFormed(jobs) && Legal(jobs, start, events)
    requires var s := After(jobs, start, events); Live(s, t) && Live(s, u) && s.created[t] == s.created[u]
    ensures t == u
  {
    RunsStaySound(jobs, start, events);
    SoundMeansExclusive(After(jobs, start, events));
  }

  /** A tick starts a due job exactly when it does not run and skips it exactly when it does. */
  lemma {:induction false} TickOutcome(jobs: seq<Scheduled>, start: real, events: seq<Event>, now: real, i: nat)
    requires WellFormed(jobs) && Legal(jobs, start, events) && After(jobs, start, events).awaited == {} && i < |jobs|
    ensures var s, job := After(jobs, start, events), jobs[i];
      TrackOf(Step(s, jobs, Tick(now)), job.id) == TickTrack(TrackOf(s, job.id), now, job.interval)
  {
    RunsStaySound(jobs, start, events);
    DiscardKeepsSound(After(jobs, start, events));
    TickIsJobWise(DiscardCompleted(After(jobs, start, events)), jobs, now, i);
  }

  /** A job has a live execution. */
  ghost predicate Busy(s: State, job: Job) {
    exists t: nat :: Live(s, t) && s.created[t] == job
  }

  /**
   * The same in terms of executions: a tick moves the due time of a job and adds
   * one start or one skip iff the job is due, a skip iff an execution of it was
   * live, and after a start one is.
   */
  lemma {:induction false} TickStartsOrSkips(
      jobs: seq<Scheduled>, start: real, events: seq<Event>, now: real, i: nat)
    requires WellFormed(jobs) && Legal(jobs, start, events) && After(jobs, start, events).awaited == {} && i < |jobs|
    ensures var s, id := After(jobs, start, events), jobs[i].id; var after := Step(s, jobs, Tick(now));
            var starts, skips := multiset(s.created)[id], multiset(s.skipped)[id];
      if now < s.nextDue[id] then
        && after.nextDue[id] == s.nextDue[id]
        && multiset(after.created)[id] == starts && multiset(after.skipped)[id] == skips
      else if Busy(s, id) then
        multiset(after.created)[id] == starts && multiset(after.skipped)[id] == skips + 1
      else
        multiset(after.created)[id] == starts + 1 && multiset(after.skipped)[id] == skips && Busy(after, id)
  {
    var s, id := After(jobs, start, events), jobs[i].id;
    var after := Step(s, jobs, Tick(now));
    TickOutcome(jobs, start, events, now, i);
    RunsStaySound(jobs, start, events);
    StepKeepsSound(s, jobs, Tick(now));
    SoundMeansExclusive(s);
    SoundMeansExclusive(after);
    assert Busy(s, id) <==> TrackOf(s, id).busy;
    assert Busy(after, id) <==> TrackOf(after, id).busy;
  }

  lemma {:induction false} OtherStepsOnTrack(s: State, jobs: seq<Scheduled>, e: Event, job: Job)
    requires WellFormed(jobs) && Known(s.nextDue, jobs) && job in s.nextDue && !e.Tick?
    ensures var before, after := TrackOf(s, job), TrackOf(Step(s, jobs, e), job);
      after.due == before.due && after.starts == before.starts && after.skips == before.skips
  {
  }

  /**
   * Over every run each job's due time is the next unserved point of its own
   * grid, and it was started or skipped once per grid cell that any tick entered.
   */
  lemma {:induction false} ScheduleInClosedForm(jobs: seq<Scheduled>, start: real, events: seq<Event>, i: nat)
    requires WellFormed(jobs) && Legal(jobs, start, events) && i < |jobs|
    ensures var t, grid := TrackOf(After(jobs, start, events), jobs[i].id), GridData(start, jobs[i].interval);
      && t.due == Mark(grid, NextCell(grid, Ticks(events)))
      && t.starts + t.skips == |CellsEntered(grid, Ticks(events))| <= NextCell(grid, Ticks(events))
  {
    var grid := GridData(start, jobs[i].interval);
    FollowsTicks(jobs, start, events, i);
    DueClosedForm(grid, Ticks(events));
    FiringsAreCellsEntered(grid, Ticks(events));
    FiringsBounded(grid, Ticks(events));
  }

  lemma {:induction false} OneMoreTick(g: Grid, ticks: seq<real>, now: real)
    ensures DueAfter(g, ticks + [now]) == NextDue(DueAfter(g, ticks), now, g.step)
    ensures Firings(g, ticks + [now]) == Firings(g, ticks) + if now >= DueAfter(g, ticks) then 1 else 0
  {
    assert (ticks + [now])[..|ticks|] == ticks;
  }

  lemma {:induction false} FollowsTicks(jobs: seq<Scheduled>, start: real, events: seq<Event>, i: nat)
    requires WellFormed(jobs) && Legal(jobs, start, events) && i < |jobs|
    ensures var t, grid := TrackOf(After(jobs, start, events), jobs[i].id), GridData(start, jobs[i].interval);
      t.due == DueAfter(grid, Ticks(events)) && t.starts + t.skips == Firings(grid, Ticks(events))
  {
    if events == [] {
      assert jobs[i].id in Start(jobs, start).nextDue;
    } else {
      var n := |events| - 1;
      LegalPrefix(jobs, start, events);
      FollowsTicks(jobs, start, events[..n], i);
      if events[n].Tick? {
        TickOutcome(jobs, start, events[..n], events[n].now, i);
        OneMoreTick(GridData(start, jobs[i].interval), Ticks(events[..n]), events[n].now);
      } else {
        OtherStepsOnTrack(After(jobs, start, events[..n]), jobs, events[n], jobs[i].id);
      }
    }
  }

  /* ---------- the class ---------- */

  function Later(a: real, b: real): real {
    if a >= b then a else b
  }

  class Scheduler {
    const jobs: seq<Scheduled>
    var nextDue: map<Job, real>
    var tasks: map<Job, nat>
    var created: seq<Job>
    var done: set<nat>
    var skipped: seq<Job>
    var awaited: set<nat>

    ghost function Now(): State
      reads this
    {
      State(nextDue, tasks, created, done, skipped, awaited)
    }

    ghost predicate Valid()
      reads this
    {
      WellFormed(jobs) && Known(nextDue, jobs)
        && (forall j | j in nextDue :: exists i :: 0 <= i < |jobs| && jobs[i].id == j)
    }

    constructor (scheduled: seq<Scheduled>, startup: real)
      requires WellFormed(scheduled)
      ensures Valid() && jobs == scheduled && Now() == After(scheduled, startup, [])
    {
      jobs := scheduled;
      nextDue := map i | 0 <= i < |scheduled| :: scheduled[i].id := startup;
      tasks, created, done, skipped, awaited := map[], [], {}, [], {};
    }

    method DiscardCompletedTasks()
      modifies this`tasks
      ensures Now() == DiscardCompleted(old(Now()))
    {
      tasks := map j | j in tasks && tasks[j] !in done :: tasks[j];
    }

    /** The body of the tick's loop, for one job. */
    method Visit(job: Scheduled, now: real)
      requires job.interval > 0.0 && job.id in nextDue
      modifies this`nextDue, this`tasks, this`created, this`skipped
      ensures Now() == TickJob(old(Now()), job, now) && nextDue.Keys == old(nextDue.Keys)
    {
      var due := nextDue[job.id];
      if now < due { return; }
      var elapsed := Quotient(now - due, job.interval) + 1;
      var moved := due + elapsed as real * job.interval;
      assert moved == NextDue(due, now, job.interval);
      nextDue := nextDue[job.id := moved];
      if job.id in tasks && tasks[job.id] !in done {
        skipped := skipped + [job.id];
        return;
      }
      tasks := tasks[job.id := |created|];
      created := created + [job.id];
    }

    /** The tick's loop over the jobs. */
    method VisitAll(now: real)
      requires WellFormed(jobs) && Known(nextDue, jobs)
      modifies this`nextDue, this`tasks, this`created, this`skipped
      ensures Now() == TickJobs(old(Now()), jobs, now) && nextDue.Keys == old(nextDue.Keys)
    {
      ghost var before := Now();
      for i := 0 to |jobs|
        invariant nextDue.Keys == before.nextDue.Keys && Now() == TickJobs(before, jobs[..i], now)
      {
        TickOneMore(before, jobs, now, i);
        Visit(jobs[i], now);
      }
      assert jobs[..|jobs|] == jobs;
    }

    method TickAt(now: real)
      requires Valid()
      modifies this`nextDue, this`tasks, this`created, this`skipped
      ensures Valid() && Now() == Step(old(Now()), jobs, Tick(now))
    {
      DiscardCompletedTasks();
      VisitAll(now);
    }

    /** The end of a live execution. */
    method End(task: nat)
      requires Valid() && Live(Now(), task)
      modifies this`done
      ensures Valid() && Now() == Step(old(Now()), jobs, Finish(task))
    {
      done := done + {task};
    }

    /** The part of the shutdown before its wait: with nothing live it is already over. */
    method StartShutDown()
      requires Valid() && Sound(Now()) && Possible(Now(), ShutdownStarts)
      modifies this`awaited, this`tasks
      ensures Valid() && Now() == Step(old(Now()), jobs, ShutdownStarts)
      ensures forall t: nat :: t in awaited <==> Live(Now(), t)
    {
      EntriesAreTheLive(Now());
      var running := set j | j in tasks && tasks[j] !in done :: tasks[j];
      if running == {} {
        DiscardCompletedTasks();
        return;
      }
      awaited := running;
    }

    /**
     * The part after the wait, however many executions ended meanwhile: cancels
     * the rest and reports the jobs whose executions it cancelled.
     */
    method EndShutDown() returns (cancelled: set<Job>)
      requires Valid() && Sound(Now()) && Possible(Now(), ShutdownEnds)
      modifies this`done, this`tasks, this`awaited
      ensures Valid() && Now() == Step(old(Now()), jobs, ShutdownEnds)
      ensures forall t: nat :: !Live(Now(), t)
      ensures forall job: Job :: job in cancelled <==> exists t: nat :: old(Live(Now(), t)) && created[t] == job
    {
      StepKeepsSound(Now(), jobs, ShutdownEnds);
      SoundMeansExclusive(Now());
      var pending := awaited - done;
      cancelled := set j | j in tasks && tasks[j] in pending;
      forall job: Job
        ensures job in cancelled <==> Running(Now(), job)
      {
        if Running(Now(), job) { assert Live(Now(), tasks[job]); }
      }
      done := done + awaited;
      awaited := {};
      DiscardCompletedTasks();
    }

    /** How long the run loop waits before the next tick. */
    method SecondsUntilNextDue(now: real) returns (seconds: real)
      requires Valid()
      ensures seconds >= 0.001
      ensures jobs == [] ==> seconds == 3600.0
      ensures jobs != [] && seconds > 0.001 ==> exists j :: j in nextDue && nextDue[j] == now + seconds
      ensures jobs != [] && seconds > 0.001 ==> forall j | j in nextDue :: nextDue[j] >= now + seconds
      ensures jobs != [] && seconds == 0.001 ==> exists j :: j in nextDue && nextDue[j] <= now + seconds
    {
      if |jobs| == 0 { return 3600.0; }
      var first := nextDue[jobs[0].id];
      for i := 1 to |jobs|
        invariant forall k | 0 <= k < i :: first <= nextDue[jobs[k].id]
        invariant exists k :: 0 <= k < i && first == nextDue[jobs[k].id]
      {
        if nextDue[jobs[i].id] < first { first := nextDue[jobs[i].id]; }
      }
      assert forall j | j in nextDue :: first <= nextDue[j];
      seconds := Later(0.001, first - now);
    }
  }

  /** After a tick nothing is due any more, and every job is due again within one interval. */
  lemma {:induction false} TickLeavesNothingDue(
      jobs: seq<Scheduled>, start: real, events: seq<Event>, now: real, i: nat)
    requires WellFormed(jobs) && Legal(jobs, start, events + [Tick(now)]) && i < |jobs|
    ensures var due := TrackOf(After(jobs, start, events + [Tick(now)]), jobs[i].id).due;
      now < due <= now + jobs[i].interval
  {
    var all, grid := events + [Tick(now)], GridData(start, jobs[i].interval);
    assert all[..|all| - 1] == events;
    ScheduleInClosedForm(jobs, start, all, i);
    CellSpan(grid, now);
    MarkStep(grid, CellOf(grid, now), 1);
  }
}
