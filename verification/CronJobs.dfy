/** One cron job on its own: schedules, what each operation does to a job, and every run of such operations. */
module CronJobs {
  import opened Prelude

  datatype Kind = At | Every | Expression | OtherKind

  datatype Schedule = Schedule(kind: Kind, atMs: int, everyMs: int, expr: string, tz: string)

  datatype WakeMode = WakeNow | WakeNextHeartbeat

  datatype Status = NoStatus | OkStatus | ErrorStatus(error: string)

  datatype Job = Job(id: string, enabled: bool, schedule: Schedule, nextRun: int, lastRun: int, updatedAt: int,
                     deleteAfterRun: bool, wakeMode: WakeMode, status: Status)

  /** The pluggable cron-expression evaluator: expression, timezone and time to the next time, or 0. */
  type Evaluator = Option<(string, string, int) -> int>

  /** An evaluator answers 0 or a later time. */
  ghost predicate LooksAhead(eval: Evaluator) {
    eval.Some? ==> forall expr, tz, now :: eval.value(expr, tz, now) == 0 || eval.value(expr, tz, now) > now
  }

  function ComputeNextRun(eval: Evaluator, schedule: Schedule, now: int): int {
    match schedule.kind
    case At => if schedule.atMs > now then schedule.atMs else 0
    case Every => if schedule.everyMs <= 0 then 0 else now + schedule.everyMs
    case Expression => if eval.None? || schedule.expr == "" then 0 else eval.value(schedule.expr, schedule.tz, now)
    case OtherKind => 0
  }

  lemma NextRunIsLater(eval: Evaluator, schedule: Schedule, now: int)
    requires LooksAhead(eval)
    ensures ComputeNextRun(eval, schedule, now) == 0 || ComputeNextRun(eval, schedule, now) > now
  {
    if schedule.kind.Expression? && eval.Some? {
      assert eval.value(schedule.expr, schedule.tz, now) == 0 || eval.value(schedule.expr, schedule.tz, now) > now;
    }
  }

  predicate IsDue(job: Job, now: int) {
    job.enabled && 0 < job.nextRun <= now
  }

  // ----- what each operation does to a job -----

  /** A job and whether the store still lists it. */
  datatype Item = Item(job: Job, listed: bool)

  /** Operations with the clock readings they take, in order, and what the callback reported. */
  datatype Event =
    | Fire(now: int, start: int, done: int, again: int, status: Status)
    | Defer(now: int, start: int)
    | Flush(start: int, done: int, status: Status)
    | RunByHand(start: int, done: int, again: int, status: Status)
    | Reschedule(at: int, done: int, schedule: Schedule, wakeMode: WakeMode)
    | Touch(done: int, wakeMode: WakeMode)
    | Enable(done: int, at: int)
    | Disable(done: int)
    | Restart(at: int)
    | Unlist(done: int)

  function First(e: Event): int {
    match e
    case Fire(now, _, _, _, _) => now
    case Defer(now, _) => now
    case Flush(start, _, _) => start
    case RunByHand(start, _, _, _) => start
    case Reschedule(at, _, _, _) => at
    case Touch(done, _) => done
    case Enable(done, _) => done
    case Disable(done) => done
    case Restart(at) => at
    case Unlist(done) => done
  }

  function Last(e: Event): int {
    match e
    case Fire(_, _, _, again, _) => again
    case Defer(_, start) => start
    case Flush(_, done, _) => done
    case RunByHand(_, _, again, _) => again
    case Reschedule(_, done, _, _) => done
    case Touch(done, _) => done
    case Enable(_, at) => at
    case Disable(done) => done
    case Restart(at) => at
    case Unlist(done) => done
  }

  predicate ReadInOrder(e: Event) {
    match e
    case Fire(now, start, done, again, _) => now <= start <= done <= again
    case RunByHand(start, done, again, _) => start <= done <= again
    case _ => First(e) <= Last(e)
  }

  /** The next run after a callback run: a one-shot job is dropped or disabled. */
  function Advanced(eval: Evaluator, item: Item, again: int): Item {
    var job := item.job;
    if job.schedule.kind != At then Item(job.(nextRun := ComputeNextRun(eval, job.schedule, again)), item.listed)
    else if job.deleteAfterRun then Item(job, false)
    else Item(job.(enabled := false, nextRun := 0), item.listed)
  }

  /** The job after a callback run that read the clock as given. */
  function Ran(eval: Evaluator, item: Item, start: int, done: int, again: int, status: Status): Item {
    Advanced(eval, Item(item.job.(lastRun := start, updatedAt := done, status := status), item.listed), again)
  }

  /** The next run after a deferral; a one-shot job stays in the store for the flush. */
  function Postponed(eval: Evaluator, job: Job, now: int): Job {
    if job.schedule.kind == At then job.(enabled := false, nextRun := 0)
    else job.(nextRun := ComputeNextRun(eval, job.schedule, now))
  }

  function Step(eval: Evaluator, item: Item, e: Event): Item {
    var job := item.job;
    match e
    case Fire(_, start, done, again, status) => Ran(eval, item, start, done, again, status)
    case RunByHand(start, done, again, status) => Ran(eval, item, start, done, again, status)
    case Defer(_, start) => Item(Postponed(eval, job.(lastRun := start, updatedAt := start), start), item.listed)
    case Flush(start, done, status) =>
      Item(job.(lastRun := start, updatedAt := done, status := status),
           item.listed && !(job.schedule.kind == At && job.deleteAfterRun))
    case Reschedule(at, done, schedule, wakeMode) =>
      var next := ComputeNextRun(eval, schedule, at);
      Item(job.(schedule := schedule, nextRun := next, wakeMode := wakeMode, updatedAt := done), item.listed)
    case Touch(done, wakeMode) => Item(job.(wakeMode := wakeMode, updatedAt := done), item.listed)
    case Enable(done, at) =>
      Item(job.(enabled := true, updatedAt := done, nextRun := ComputeNextRun(eval, job.schedule, at)), item.listed)
    case Disable(done) => Item(job.(enabled := false, updatedAt := done, nextRun := 0), item.listed)
    case Restart(at) =>
      if job.enabled then Item(job.(nextRun := ComputeNextRun(eval, job.schedule, at)), item.listed) else item
    case Unlist(_) => Item(job, false)
  }

  /** The timer only takes listed jobs that are due, each in its own wake mode; only listed jobs are operated on. */
  predicate Possible(item: Item, e: Event) {
    && ReadInOrder(e)
    && (!e.Flush? ==> item.listed)
    && (e.Fire? ==> IsDue(item.job, e.now) && item.job.wakeMode.WakeNow?)
    && (e.Defer? ==> IsDue(item.job, e.now) && item.job.wakeMode.WakeNextHeartbeat?)
  }

  function Run(eval: Evaluator, born: Item, events: seq<Event>): Item {
    if events == [] then born else Step(eval, Run(eval, born, events[..|events| - 1]), events[|events| - 1])
  }

  /** A run of possible operations whose clock never goes back. */
  predicate PossibleRun(eval: Evaluator, born: Item, events: seq<Event>) {
    events == [] ||
    var front, e := events[..|events| - 1], events[|events| - 1];
    && PossibleRun(eval, born, front)
    && Possible(Run(eval, born, front), e)
    && (front != [] ==> Last(front[|front| - 1]) <= First(e))
  }

  lemma RunExtends(eval: Evaluator, born: Item, events: seq<Event>, e: Event)
    requires PossibleRun(eval, born, events) && Possible(Run(eval, born, events), e)
    requires events != [] ==> Last(events[|events| - 1]) <= First(e)
    ensures PossibleRun(eval, born, events + [e])
    ensures Run(eval, born, events + [e]) == Step(eval, Run(eval, born, events), e)
  {
    assert (events + [e])[..|events|] == events;
  }

  predicate IsDueEvent(e: Event) {
    e.Fire? || e.Defer?
  }

  lemma {:induction false} TimeGoesOn(eval: Evaluator, born: Item, events: seq<Event>, i: nat)
    requires PossibleRun(eval, born, events) && i < |events|
    ensures First(events[i]) <= Last(events[i]) <= Last(events[|events| - 1])
  {
    if i < |events| - 1 {
      TimeGoesOn(eval, born, events[..|events| - 1], i);
    }
  }

  // ----- what a job waits for -----

  /** The job was scheduled at the clock reading `t`. */
  predicate WaitsFrom(eval: Evaluator, job: Job, t: int) {
    job.nextRun == ComputeNextRun(eval, job.schedule, t)
  }

  /**
    * An "every" job waits for one interval from then, an "at" job for its time if that lies ahead, an expression job for
    * what the evaluator says; others wait for nothing. While enabled it is due from that moment on, and not before.
    */
  lemma WaitsExactly(eval: Evaluator, job: Job, t: int)
    requires WaitsFrom(eval, job, t) && t >= 0
    ensures var s := job.schedule;
      && (s.kind == Every && s.everyMs > 0 ==>
            job.nextRun == t + s.everyMs && (job.enabled ==> forall now :: IsDue(job, now) <==> now >= t + s.everyMs))
      && (s.kind == At && s.atMs > t ==>
            job.nextRun == s.atMs && (job.enabled ==> forall now :: IsDue(job, now) <==> now >= s.atMs))
      && (s.kind == Expression && eval.Some? && s.expr != "" ==> job.nextRun == eval.value(s.expr, s.tz, t))
      && (s.kind == Expression && (eval.None? || s.expr == "") ==> job.nextRun == 0)
      && ((s.kind == Every && s.everyMs <= 0) || (s.kind == At && s.atMs <= t) || s.kind == OtherKind ==> job.nextRun == 0)
    ensures job.nextRun <= 0 || !job.enabled ==> forall now :: !IsDue(job, now)
  {
  }

  /** The operations that schedule a job do so at the clock reading they end with, an update at its first. */
  lemma StepSchedules(eval: Evaluator, item: Item, e: Event)
    ensures var r := Step(eval, item, e);
      && ((e.Fire? || e.RunByHand?) && item.job.schedule.kind != At ==> WaitsFrom(eval, r.job, e.again) && r.listed == item.listed)
      && ((e.Fire? || e.RunByHand?) && item.job.schedule.kind == At && item.job.deleteAfterRun ==> !r.listed)
      && ((e.Fire? || e.RunByHand?) && item.job.schedule.kind == At && !item.job.deleteAfterRun ==>
            !r.job.enabled && r.job.nextRun == 0 && r.listed == item.listed)
      && (e.Defer? && item.job.schedule.kind != At ==> WaitsFrom(eval, r.job, e.start))
      && (e.Defer? && item.job.schedule.kind == At ==> !r.job.enabled && r.job.nextRun == 0)
      && (e.Reschedule? ==> r.job.schedule == e.schedule && r.job.wakeMode == e.wakeMode && WaitsFrom(eval, r.job, e.at))
      && (e.Enable? ==> r.job.enabled && WaitsFrom(eval, r.job, e.at))
      && (e.Disable? ==> !r.job.enabled && r.job.nextRun == 0)
      && (e.Restart? && item.job.enabled ==> WaitsFrom(eval, r.job, e.at))
      && (e.Restart? && !item.job.enabled ==> r == item)
      && (e.Touch? || e.Flush? || e.Unlist? ==> r.job.nextRun == item.job.nextRun)
  {
  }

  /** What else the operations record, and what they leave alone. */
  lemma StepRecords(eval: Evaluator, item: Item, e: Event)
    ensures var was, now := item.job, Step(eval, item, e).job;
      && now.id == was.id && now.deleteAfterRun == was.deleteAfterRun
      && (!e.Reschedule? ==> now.schedule == was.schedule)
      && (!e.Reschedule? && !e.Touch? ==> now.wakeMode == was.wakeMode)
      && (e.Touch? ==> now.wakeMode == e.wakeMode)
      && (e.Fire? || e.RunByHand? || e.Flush? ==>
            now.lastRun == e.start && now.updatedAt == e.done && now.status == e.status)
      && (e.Defer? ==> now.lastRun == e.start && now.updatedAt == e.start && now.status == was.status)
      && (e.Reschedule? || e.Touch? || e.Enable? || e.Disable? ==>
            now.updatedAt == e.done && now.lastRun == was.lastRun && now.status == was.status)
      && (e.Restart? || e.Unlist? ==>
            now.updatedAt == was.updatedAt && now.lastRun == was.lastRun && now.status == was.status)
      && (e.Reschedule? || e.Touch? || e.Flush? || e.Restart? || e.Unlist? ==> now.enabled == was.enabled)
      && (e.Unlist? ==> !Step(eval, item, e).listed)
      && (e.Flush? ==> Step(eval, item, e).listed == (item.listed && !(was.schedule.kind == At && was.deleteAfterRun)))
      && (e.Defer? || e.Reschedule? || e.Touch? || e.Enable? || e.Disable? || e.Restart? ==>
            Step(eval, item, e).listed == item.listed)
  {
  }

  // ----- spacing of "every" jobs -----

  lemma {:induction false} PrefixesArePossible(eval: Evaluator, born: Item, events: seq<Event>, n: nat)
    requires PossibleRun(eval, born, events) && n <= |events|
    ensures PossibleRun(eval, born, events[..n])
    decreases |events|
  {
    if n == |events| {
      assert events[..n] == events;
    } else {
      var front := events[..|events| - 1];
      PrefixesArePossible(eval, born, front, n);
      assert front[..n] == events[..n];
    }
  }

  lemma BeforeEvent(eval: Evaluator, born: Item, events: seq<Event>, j: nat) returns (past: seq<Event>)
    requires PossibleRun(eval, born, events) && j < |events|
    ensures past == events[..j] && PossibleRun(eval, born, past) && Possible(Run(eval, born, past), events[j])
  {
    PrefixesArePossible(eval, born, events, j + 1);
    past := events[..j];
    assert events[..j + 1][..j] == past && events[..j + 1][j] == events[j];
  }

  /** No new schedule strictly between the two positions. */
  predicate KeepsSchedule(events: seq<Event>, after: nat, before: nat) {
    forall k | after < k < before && k < |events| :: !events[k].Reschedule?
  }

  /** The schedule a job has when the i-th operation happens to it. */
  function ScheduleAt(eval: Evaluator, born: Item, events: seq<Event>, i: nat): Schedule
    requires i <= |events|
  {
    Run(eval, born, events[..i]).job.schedule
  }

  lemma StepKeepsSchedule(eval: Evaluator, item: Item, e: Event)
    requires !e.Reschedule?
    ensures Step(eval, item, e).job.schedule == item.job.schedule
  {
  }

  /** From a due event on, a schedule that is not replaced stays the one the job was due by. */
  lemma {:induction false} ScheduleStays(eval: Evaluator, born: Item, events: seq<Event>, i: nat)
    requires i < |events| && IsDueEvent(events[i]) && KeepsSchedule(events, i, |events|)
    ensures Run(eval, born, events).job.schedule == ScheduleAt(eval, born, events, i)
  {
    var front, e := events[..|events| - 1], events[|events| - 1];
    if i < |front| {
      assert KeepsSchedule(front, i, |front|) && front[..i] == events[..i];
      ScheduleStays(eval, born, front, i);
    } else {
      assert events[..i] == front;
    }
    StepKeepsSchedule(eval, Run(eval, born, front), e);
  }

  predicate Distant(job: Job, from: int) {
    job.nextRun > 0 ==> job.nextRun >= from + job.schedule.everyMs
  }

  lemma StepKeepsDistance(eval: Evaluator, item: Item, e: Event, from: int)
    requires item.job.schedule.kind.Every? && !e.Reschedule? && ReadInOrder(e) && from <= First(e)
    requires IsDueEvent(e) || Distant(item.job, from)
    ensures Distant(Step(eval, item, e).job, from)
  {
  }

  /** After a due event the next one is a whole interval away, whatever else happens to the job meanwhile. */
  lemma {:induction false} NextRunIsAnIntervalAway(eval: Evaluator, born: Item, events: seq<Event>, i: nat)
    requires PossibleRun(eval, born, events) && i < |events| && IsDueEvent(events[i])
    requires KeepsSchedule(events, i, |events|) && ScheduleAt(eval, born, events, i).kind.Every?
    ensures Distant(Run(eval, born, events).job, First(events[i]))
  {
    var front, e := events[..|events| - 1], events[|events| - 1];
    var item := Run(eval, born, front);
    TimeGoesOn(eval, born, events, i);
    if i < |front| {
      assert KeepsSchedule(front, i, |front|) && front[..i] == events[..i];
      NextRunIsAnIntervalAway(eval, born, front, i);
      ScheduleStays(eval, born, front, i);
      TimeGoesOn(eval, born, front, i);
    } else {
      assert events[..i] == front;
    }
    StepKeepsDistance(eval, item, e, First(events[i]));
  }

  /** Two due events of an "every" job, with no new schedule between them, are at least its interval apart,
      across restarts, re-enables and runs by hand. */
  lemma DueEventsAreSpaced(eval: Evaluator, born: Item, events: seq<Event>, i: nat, j: nat)
    requires PossibleRun(eval, born, events) && i < j < |events| && IsDueEvent(events[i]) && IsDueEvent(events[j])
    requires KeepsSchedule(events, i, j) && ScheduleAt(eval, born, events, i).kind.Every?
    ensures First(events[j]) - First(events[i]) >= ScheduleAt(eval, born, events, i).everyMs
  {
    var past := BeforeEvent(eval, born, events, j);
    assert KeepsSchedule(past, i, |past|) && past[..i] == events[..i];
    NextRunIsAnIntervalAway(eval, born, past, i);
    ScheduleStays(eval, born, past, i);
  }

  // ----- "at" jobs -----

  /** The next run of an "at" job is its time or nothing, as AddJob and a start leave it. */
  predicate PointsAtItsTime(job: Job) {
    job.schedule.kind.At? && job.enabled ==> job.nextRun == 0 || job.nextRun == job.schedule.atMs
  }

  /** After an "at" job was due, only an enable can make it due again. */
  predicate Spent(item: Item) {
    !item.listed || !item.job.enabled
  }

  lemma {:induction false} OnlyEnablingRevives(eval: Evaluator, born: Item, events: seq<Event>, i: nat)
    requires PossibleRun(eval, born, events) && i < |events| && IsDueEvent(events[i])
    requires Run(eval, born, events[..i]).job.schedule.kind.At?
    requires forall k | i < k < |events| :: !events[k].Enable?
    ensures Spent(Run(eval, born, events))
  {
    var front := events[..|events| - 1];
    if i < |front| {
      assert front[..i] == events[..i];
      OnlyEnablingRevives(eval, born, front, i);
    } else {
      assert events[..i] == front;
    }
  }

  lemma {:induction false} PointsAtItsTimeStays(eval: Evaluator, born: Item, events: seq<Event>)
    requires PossibleRun(eval, born, events) && PointsAtItsTime(born.job)
    ensures PointsAtItsTime(Run(eval, born, events).job)
  {
    if events != [] {
      PointsAtItsTimeStays(eval, born, events[..|events| - 1]);
    }
  }

  /** A job that starts out waiting for its time, or for nothing, is never due before its time. */
  lemma DueAtItsTime(eval: Evaluator, born: Item, events: seq<Event>, i: nat)
    requires PossibleRun(eval, born, events) && PointsAtItsTime(born.job) && i < |events| && IsDueEvent(events[i])
    requires ScheduleAt(eval, born, events, i).kind.At?
    ensures First(events[i]) >= ScheduleAt(eval, born, events, i).atMs
  {
    var past := BeforeEvent(eval, born, events, i);
    PointsAtItsTimeStays(eval, born, past);
  }

  /** With no new schedule since it was due at its time, an "at" job has nothing to wait for, even when it is enabled again. */
  lemma {:induction false} TimeIsPast(eval: Evaluator, born: Item, events: seq<Event>, i: nat)
    requires PossibleRun(eval, born, events) && i < |events| && IsDueEvent(events[i])
    requires KeepsSchedule(events, i, |events|) && ScheduleAt(eval, born, events, i).kind.At?
    requires First(events[i]) >= ScheduleAt(eval, born, events, i).atMs
    ensures var item := Run(eval, born, events); item.listed && item.job.enabled ==> item.job.nextRun == 0
  {
    var front, e := events[..|events| - 1], events[|events| - 1];
    TimeGoesOn(eval, born, events, i);
    if i < |front| {
      assert KeepsSchedule(front, i, |front|) && front[..i] == events[..i];
      TimeIsPast(eval, born, front, i);
      ScheduleStays(eval, born, front, i);
    } else {
      assert events[..i] == front;
    }
  }

  /** Once an "at" job was due at its time, it becomes due again only after both an enable and a new schedule. */
  lemma AtJobsAreDueOnce(eval: Evaluator, born: Item, events: seq<Event>, i: nat, j: nat)
    requires PossibleRun(eval, born, events)
    requires i < j < |events| && IsDueEvent(events[i]) && IsDueEvent(events[j])
    requires ScheduleAt(eval, born, events, i).kind.At?
    ensures exists k | i < k < j :: events[k].Enable?
    ensures First(events[i]) >= ScheduleAt(eval, born, events, i).atMs ==> exists k | i < k < j :: events[k].Reschedule?
  {
    var past := BeforeEvent(eval, born, events, j);
    assert past[..i] == events[..i];
    if forall k | i < k < j :: !events[k].Enable? {
      OnlyEnablingRevives(eval, born, past, i);
    }
    if First(events[i]) >= ScheduleAt(eval, born, events, i).atMs {
      if KeepsSchedule(past, i, |past|) {
        TimeIsPast(eval, born, past, i);
      } else {
        var k :| i < k < |past| && past[k].Reschedule?;
        assert events[k].Reschedule?;
      }
    }
  }

  /** A stored job that waits for a moment before its time is due then, and once enabled due again at its time. */
  function EarlyRun(job: Job): seq<Event> {
    var early, time := job.nextRun, job.schedule.atMs;
    [Fire(early, early, early, early, OkStatus)] + [Enable(early, early)] + [Fire(time, time, time, time, OkStatus)]
  }

  /** Being due at its time is needed: such a job is due twice without a new schedule. */
  lemma EarlyJobsAreDueTwice(eval: Evaluator, job: Job)
    requires job.enabled && job.schedule.kind.At? && 0 < job.nextRun < job.schedule.atMs
    requires job.wakeMode.WakeNow? && !job.deleteAfterRun
    ensures var events, born := EarlyRun(job), Item(job, true);
      && PossibleRun(eval, born, events) && IsDueEvent(events[0]) && IsDueEvent(events[2]) && KeepsSchedule(events, 0, 2)
      && First(events[0]) < ScheduleAt(eval, born, events, 0).atMs
  {
    var born, early := Item(job, true), job.nextRun;
    var first, second := Fire(early, early, early, early, OkStatus), Enable(early, early);
    RunExtends(eval, born, [], first);
    assert [] + [first] == [first];
    RunExtends(eval, born, [first], second);
    var time := job.schedule.atMs;
    RunExtends(eval, born, [first] + [second], Fire(time, time, time, time, OkStatus));
    assert EarlyRun(job)[..0] == [];
  }
}
