/** The cron service: the job store, the timer, and the wakes deferred to the next heartbeat. */
module Cron {
  import opened Prelude
  import opened CronJobs

  class CronJob {
    const id: string
    const deleteAfterRun: bool
    var enabled: bool
    var schedule: Schedule
    var nextRun: int
    var lastRun: int
    var updatedAt: int
    var wakeMode: WakeMode
    var status: Status
    ghost const born: Item
    ghost var listed: bool
    ghost var events: seq<Event>

    constructor (job: Job)
      ensures Value() == job && listed && born == Item(job, true) && events == []
    {
      id, deleteAfterRun := job.id, job.deleteAfterRun;
      enabled, schedule, nextRun, lastRun, updatedAt := job.enabled, job.schedule, job.nextRun, job.lastRun, job.updatedAt;
      wakeMode, status := job.wakeMode, job.status;
      listed, born, events := true, Item(job, true), [];
    }

    function Value(): Job
      reads this
    {
      Job(id, enabled, schedule, nextRun, lastRun, updatedAt, deleteAfterRun, wakeMode, status)
    }

    /** The job is where its operations since birth have brought it. */
    ghost predicate Consistent(eval: Evaluator)
      reads this
    {
      PossibleRun(eval, born, events) && Run(eval, born, events) == Item(Value(), listed)
    }

    ghost predicate QuietSince(now: int)
      reads this
    {
      events != [] ==> Last(events[|events| - 1]) <= now
    }

    /** After a callback run: the outcome, the times and the next run. True when the job is to leave the store. */
    method Settle(eval: Evaluator, start: int, status: Status, done: int, again: int, ghost due: Option<int>)
      returns (drop: bool)
      requires Consistent(eval) && listed && QuietSince(due.GetOr(start)) && start <= done <= again
      requires due.Some? ==> due.value <= start && IsDue(Value(), due.value) && wakeMode.WakeNow?
      modifies this
      ensures Consistent(eval) && QuietSince(again)
      ensures drop == (old(schedule).kind.At? && deleteAfterRun) && listed == !drop
      ensures Item(Value(), listed) == Ran(eval, old(Item(Value(), true)), start, done, again, status)
      ensures events == old(events) + [RunEvent(due, start, done, again, status)]
      ensures due.Some? && LooksAhead(eval) ==> !listed || !IsDue(Value(), due.value)
    {
      ghost var item := Item(Value(), true);
      this.status := status;
      lastRun := start;
      updatedAt := done;
      assert Value() == item.job.(lastRun := start, updatedAt := done, status := status);
      drop := Advance(eval, again);
      RunEventRuns(eval, item, due, start, done, again, status);
      Note(eval, item, RunEvent(due, start, done, again, status));
    }

    method Advance(eval: Evaluator, again: int) returns (drop: bool)
      modifies this`enabled, this`nextRun, this`listed
      ensures Item(Value(), listed) == Advanced(eval, old(Item(Value(), listed)), again)
      ensures drop == (schedule.kind.At? && deleteAfterRun)
      ensures LooksAhead(eval) && !drop ==> nextRun == 0 || nextRun > again
    {
      drop := schedule.kind == At && deleteAfterRun;
      if drop {
        listed := false;
      } else if schedule.kind == At {
        enabled := false;
        nextRun := 0;
      } else {
        NextRunIsLaterIf(eval, schedule, again);
        nextRun := ComputeNextRun(eval, schedule, again);
      }
    }

    /** The schedule advances as if the job had run. */
    method Postpone(eval: Evaluator, now: int, ghost due: int)
      requires Consistent(eval) && listed && QuietSince(due) && due <= now
      requires IsDue(Value(), due) && wakeMode.WakeNextHeartbeat?
      modifies this
      ensures Consistent(eval) && QuietSince(now) && listed && events == old(events) + [Defer(due, now)]
      ensures LooksAhead(eval) ==> !IsDue(Value(), due)
    {
      ghost var item := Item(Value(), true);
      lastRun := now;
      updatedAt := now;
      assert Value() == item.job.(lastRun := now, updatedAt := now);
      Delay(eval, now);
      Note(eval, item, Defer(due, now));
    }

    method Delay(eval: Evaluator, now: int)
      modifies this`enabled, this`nextRun
      ensures Value() == Postponed(eval, old(Value()), now)
      ensures LooksAhead(eval) ==> nextRun == 0 || nextRun > now
    {
      if schedule.kind == At {
        enabled := false;
        nextRun := 0;
      } else {
        NextRunIsLaterIf(eval, schedule, now);
        nextRun := ComputeNextRun(eval, schedule, now);
      }
    }

    /** One more operation: the job became due at `now`. */
    ghost predicate TookDue(before: seq<Event>, now: int)
      reads this
    {
      && |events| == |before| + 1 && events[..|before|] == before
      && IsDueEvent(events[|before|]) && First(events[|before|]) == now
    }

    /** So many deliveries of deferred wakes more. */
    ghost predicate Received(before: seq<Event>, n: nat)
      reads this
    {
      && |events| == |before| + n && events[..|before|] == before
      && forall k | |before| <= k < |events| :: events[k].Flush?
    }

    /** The delivery of a deferred wake; the schedule has advanced before. True when the job is to leave the store. */
    method Deliver(eval: Evaluator, start: int, status: Status, done: int) returns (drop: bool)
      requires Consistent(eval) && QuietSince(start) && start <= done
      modifies this`status, this`lastRun, this`updatedAt, this`listed, this`events
      ensures Consistent(eval) && QuietSince(done) && events == old(events) + [CronJobs.Flush(start, done, status)]
      ensures drop == (schedule.kind.At? && deleteAfterRun) && listed == (old(listed) && !drop)
    {
      ghost var item := Item(Value(), listed);
      this.status := status;
      lastRun := start;
      updatedAt := done;
      drop := schedule.kind == At && deleteAfterRun;
      if drop {
        listed := false;
      }
      Note(eval, item, Flush(start, done, status));
    }

    /** An update; without a new schedule only the wake mode and the update time change. */
    method Update(eval: Evaluator, schedule: Option<Schedule>, wakeMode: Option<WakeMode>, at: int, done: int)
      requires Consistent(eval) && listed && QuietSince(at) && at <= done
      modifies this
      ensures Consistent(eval) && QuietSince(done) && listed && enabled == old(enabled) && updatedAt == done
      ensures schedule.Some? ==> this.schedule == schedule.value && nextRun == ComputeNextRun(eval, schedule.value, at)
      ensures schedule.None? ==> this.schedule == old(this.schedule) && nextRun == old(nextRun)
      ensures this.wakeMode == wakeMode.GetOr(old(this.wakeMode))
      ensures events == old(events) + [UpdateEvent(schedule, this.wakeMode, at, done)]
    {
      ghost var item := Item(Value(), true);
      Apply(eval, schedule, wakeMode, at, done);
      UpdateIsStep(eval, item, schedule, this.wakeMode, at, done);
      Note(eval, item, UpdateEvent(schedule, this.wakeMode, at, done));
    }

    method Apply(eval: Evaluator, schedule: Option<Schedule>, wakeMode: Option<WakeMode>, at: int, done: int)
      modifies this`schedule, this`nextRun, this`wakeMode, this`updatedAt
      ensures this.wakeMode == wakeMode.GetOr(old(this.wakeMode))
      ensures Value() == Updated(eval, old(Value()), schedule, this.wakeMode, at, done)
    {
      if schedule.Some? {
        this.schedule := schedule.value;
        nextRun := ComputeNextRun(eval, schedule.value, at);
      }
      if wakeMode.Some? {
        this.wakeMode := wakeMode.value;
      }
      updatedAt := done;
    }

    method Switch(eval: Evaluator, on: bool, done: int, at: int)
      requires Consistent(eval) && listed && QuietSince(done) && done <= at
      modifies this`enabled, this`updatedAt, this`nextRun, this`events
      ensures Consistent(eval) && QuietSince(at) && enabled == on && updatedAt == done
      ensures nextRun == if on then ComputeNextRun(eval, schedule, at) else 0
      ensures events == old(events) + [if on then Enable(done, at) else Disable(done)]
    {
      ghost var item := Item(Value(), true);
      enabled := on;
      updatedAt := done;
      if on {
        nextRun := ComputeNextRun(eval, schedule, at);
      } else {
        nextRun := 0;
      }
      Note(eval, item, if on then Enable(done, at) else Disable(done));
    }

    /** One recomputation more, which sets the next run of an enabled job. */
    ghost predicate Restarted(eval: Evaluator, before: seq<Event>, now: int)
      reads this
    {
      events == before + [Restart(now)] && (enabled ==> WaitsFrom(eval, Value(), now))
    }

    method Recompute(eval: Evaluator, now: int)
      requires Consistent(eval) && listed && QuietSince(now)
      modifies this`nextRun, this`events
      ensures Consistent(eval) && QuietSince(now)
      ensures nextRun == if enabled then ComputeNextRun(eval, schedule, now) else old(nextRun)
      ensures events == old(events) + [Restart(now)]
    {
      ghost var item := Item(Value(), true);
      if enabled {
        nextRun := ComputeNextRun(eval, schedule, now);
      }
      Note(eval, item, Restart(now));
    }

    ghost predicate LeftIf(gone: bool, before: seq<Event>, at: int)
      reads this`events
    {
      if gone then events == before + [CronJobs.Unlist(at)] else events == before
    }

    ghost method Leave(eval: Evaluator, now: int)
      requires Consistent(eval) && listed && QuietSince(now)
      modifies this`listed, this`events
      ensures Consistent(eval) && QuietSince(now) && !listed && events == old(events) + [CronJobs.Unlist(now)]
    {
      ghost var item := Item(Value(), true);
      listed := false;
      Note(eval, item, CronJobs.Unlist(now));
    }

    ghost method Note(eval: Evaluator, item: Item, e: Event)
      requires PossibleRun(eval, born, events) && Run(eval, born, events) == item
      requires Possible(item, e) && QuietSince(First(e)) && Step(eval, item, e) == Item(Value(), listed)
      modifies this`events
      ensures Consistent(eval) && QuietSince(Last(e)) && events == old(events) + [e]
    {
      RunExtends(eval, born, events, e);
      events := events + [e];
    }
  }

  // ----- removing a job from the list -----

  function Without(jobs: seq<CronJob>, id: string): seq<CronJob> {
    if jobs == [] then []
    else Without(jobs[..|jobs| - 1], id) + (if jobs[|jobs| - 1].id != id then [jobs[|jobs| - 1]] else [])
  }

  /** Compacts the slice it reads: the write position never passes the read position. */
  method FilterInPlace(slots: array<CronJob>, id: string) returns (n: nat)
    modifies slots
    ensures n <= slots.Length && slots[..n] == Without(old(slots[..]), id)
  {
    n := 0;
    for i := 0 to slots.Length
      invariant n <= i && slots[..n] == Without(old(slots[..])[..i], id)
      invariant slots[i..] == old(slots[i..])
    {
      var j := slots[i];
      assert old(slots[..])[..i + 1][..i] == old(slots[..])[..i];
      assert j == old(slots[i..])[0] == old(slots[..])[i];
      if j.id != id {
        slots[n] := j;
        n := n + 1;
      }
    }
    assert old(slots[..])[..slots.Length] == old(slots[..]);
  }

  method FilterJobs(jobs: seq<CronJob>, id: string) returns (kept: seq<CronJob>)
    ensures kept == Without(jobs, id)
  {
    var slots := new CronJob[|jobs|](i requires 0 <= i < |jobs| => jobs[i]);
    assert slots[..] == jobs;
    var n := FilterInPlace(slots, id);
    kept := slots[..n];
  }

  ghost predicate Distinct(jobs: seq<CronJob>) {
    forall i, j | 0 <= i < j < |jobs| :: jobs[i] != jobs[j]
  }

  lemma {:induction false} WithoutKeeps(jobs: seq<CronJob>, id: string, job: CronJob)
    ensures job in Without(jobs, id) <==> job in jobs && job.id != id
  {
    if jobs != [] {
      var front, last := jobs[..|jobs| - 1], jobs[|jobs| - 1];
      WithoutKeeps(front, id, job);
      assert jobs == front + [last];
    }
  }

  /** The jobs that are kept stay in order. */
  lemma {:induction false} WithoutKeepsOrder(jobs: seq<CronJob>, id: string) returns (at: seq<nat>)
    ensures StandAt(Without(jobs, id), jobs, at)
    ensures forall i | 0 <= i < |jobs| :: i in at <==> jobs[i].id != id
  {
    at := [];
    if jobs != [] {
      var front, last := jobs[..|jobs| - 1], jobs[|jobs| - 1];
      at := WithoutKeepsOrder(front, id);
      StandAtExtends(Without(front, id), front, at, last, last.id != id);
      at := at + if last.id != id then [|front|] else [];
      assert jobs == front + [last];
    }
  }

  lemma {:induction false} WithoutStaysDistinct(jobs: seq<CronJob>, id: string)
    requires Distinct(jobs)
    ensures Distinct(Without(jobs, id)) && |Without(jobs, id)| <= |jobs|
    ensures |Without(jobs, id)| < |jobs| <==> exists j | j in jobs :: j.id == id
  {
    if jobs != [] {
      var front, last := jobs[..|jobs| - 1], jobs[|jobs| - 1];
      WithoutStaysDistinct(front, id);
      WithoutKeeps(front, id, last);
      assert jobs == front + [last];
      if last.id == id {
        assert last in jobs;
      }
      assert forall j | j in front :: j in jobs;
    }
  }

  // ----- schedules -----

  predicate ValidSchedule(knownZone: string -> bool, schedule: Option<Schedule>) {
    && schedule.Some?
    && (schedule.value.tz != "" ==> schedule.value.kind.Expression? && knownZone(schedule.value.tz))
  }

  /** An update with a schedule that does not validate. */
  predicate Rejected(knownZone: string -> bool, schedule: Option<Schedule>) {
    schedule.Some? && !ValidSchedule(knownZone, schedule)
  }

  method ValidateScheduleForAdd(knownZone: string -> bool, schedule: Option<Schedule>) returns (ok: bool)
    ensures ok <==> ValidSchedule(knownZone, schedule)
    ensures ok <==> schedule.Some? && (schedule.value.tz == "" ||
                                       (schedule.value.kind == Expression && knownZone(schedule.value.tz)))
  {
    if schedule.None? {
      return false;
    }
    if schedule.value.tz != "" && !schedule.value.kind.Expression? {
      return false;
    }
    if schedule.value.kind.Expression? && schedule.value.tz != "" {
      if !knownZone(schedule.value.tz) {
        return false;
      }
    }
    ok := true;
  }

  lemma OneMore<T>(items: seq<T>, k: nat)
    requires k <= |items|
    ensures if k == |items| then items[..k] == items else items[..k + 1] == items[..k] + [items[k]]
  {
  }

  datatype StoredState = StoredState(nextRun: int, lastRun: int, status: Status)

  /** A job as decoded from the store file: schedule and state may be missing, the wake mode missing or unknown. */
  datatype Stored = Stored(id: string, enabled: bool, schedule: Option<Schedule>, state: Option<StoredState>, updatedAt: int,
                           deleteAfterRun: bool, wakeMode: Option<WakeMode>)

  /** An unknown wake mode fires at once, a missing schedule is an "every" without interval. */
  function Coerced(s: Stored): Job {
    var state := s.state.GetOr(StoredState(0, 0, NoStatus));
    Job(s.id, s.enabled, s.schedule.GetOr(Schedule(Every, 0, 0, "", "")), state.nextRun, state.lastRun, s.updatedAt,
        s.deleteAfterRun, s.wakeMode.GetOr(WakeNow), state.status)
  }

  /** What is filled in: a missing state is empty, a missing wake mode fires at once, a missing schedule never does. */
  lemma CoercedExactly(s: Stored)
    ensures var job := Coerced(s);
      && job.id == s.id && job.enabled == s.enabled && job.updatedAt == s.updatedAt && job.deleteAfterRun == s.deleteAfterRun
      && (s.schedule.Some? ==> job.schedule == s.schedule.value)
      && (s.schedule.None? ==> job.schedule.kind == Every && job.schedule.everyMs == 0)
      && (s.state.Some? ==>
            job.nextRun == s.state.value.nextRun && job.lastRun == s.state.value.lastRun && job.status == s.state.value.status)
      && (s.state.None? ==> job.nextRun == 0 && job.lastRun == 0 && job.status == NoStatus)
      && (s.wakeMode.Some? ==> job.wakeMode == s.wakeMode.value) && (s.wakeMode.None? ==> job.wakeMode == WakeNow)
  {
  }

  // ----- what is due -----

  /** The jobs whose values at some moment were due, in order. */
  function DueOf(jobs: seq<CronJob>, values: seq<Job>, now: int): seq<CronJob>
    requires |jobs| == |values|
  {
    if jobs == [] then []
    else
      var n := |jobs| - 1;
      DueOf(jobs[..n], values[..n], now) + (if IsDue(values[n], now) then [jobs[n]] else [])
  }

  function ModesOfDue(values: seq<Job>, now: int): seq<WakeMode> {
    if values == [] then []
    else
      var n := |values| - 1;
      ModesOfDue(values[..n], now) + (if IsDue(values[n], now) then [values[n].wakeMode] else [])
  }

  /** The due jobs with a wake mode, in order: the ones to fire now, or the ones to leave for the next heartbeat. */
  function DueIn(mode: WakeMode, jobs: seq<CronJob>, values: seq<Job>, now: int): seq<CronJob>
    requires |jobs| == |values|
  {
    if jobs == [] then []
    else
      var n := |jobs| - 1;
      DueIn(mode, jobs[..n], values[..n], now) +
      (if IsDue(values[n], now) && values[n].wakeMode == mode then [jobs[n]] else [])
  }

  function OfMode(mode: WakeMode, due: seq<CronJob>, modes: seq<WakeMode>): seq<CronJob>
    requires |due| == |modes|
  {
    if due == [] then []
    else
      var n := |due| - 1;
      OfMode(mode, due[..n], modes[..n]) + (if modes[n] == mode then [due[n]] else [])
  }

  lemma OneMoreOfMode(mode: WakeMode, due: seq<CronJob>, modes: seq<WakeMode>, k: nat)
    requires k < |due| == |modes|
    ensures OfMode(mode, due[..k + 1], modes[..k + 1]) ==
            OfMode(mode, due[..k], modes[..k]) + (if modes[k] == mode then [due[k]] else [])
  {
    assert due[..k + 1][..k] == due[..k] && modes[..k + 1][..k] == modes[..k];
  }

  /** Sorting the collected due jobs by the modes they had sorts them as they stand in the store. */
  lemma {:induction false} ModesSortTheDue(mode: WakeMode, jobs: seq<CronJob>, values: seq<Job>, now: int)
    requires |jobs| == |values|
    ensures |DueOf(jobs, values, now)| == |ModesOfDue(values, now)|
    ensures OfMode(mode, DueOf(jobs, values, now), ModesOfDue(values, now)) == DueIn(mode, jobs, values, now)
  {
    if jobs != [] {
      var n := |jobs| - 1;
      ModesSortTheDue(mode, jobs[..n], values[..n], now);
      if IsDue(values[n], now) {
        var due, modes := DueOf(jobs[..n], values[..n], now), ModesOfDue(values[..n], now);
        assert (due + [jobs[n]])[..|due|] == due && (modes + [values[n].wakeMode])[..|due|] == modes;
      } else {
        assert DueOf(jobs, values, now) == DueOf(jobs[..n], values[..n], now);
        assert ModesOfDue(values, now) == ModesOfDue(values[..n], now);
      }
    }
  }

  /** The due jobs are those enabled ones whose next run has come, in store order. */
  lemma {:induction false} DueExactly(jobs: seq<CronJob>, values: seq<Job>, now: int) returns (at: seq<nat>)
    requires |jobs| == |values|
    ensures StandAt(DueOf(jobs, values, now), jobs, at)
    ensures forall i | 0 <= i < |jobs| :: i in at <==> values[i].enabled && values[i].nextRun > 0 && now >= values[i].nextRun
  {
    at := [];
    if jobs != [] {
      var n := |jobs| - 1;
      at := DueExactly(jobs[..n], values[..n], now);
      StandAtExtends(DueOf(jobs[..n], values[..n], now), jobs[..n], at, jobs[n], IsDue(values[n], now));
      at := at + if IsDue(values[n], now) then [n] else [];
      assert jobs == jobs[..n] + [jobs[n]];
    }
  }

  lemma DueIsDue(jobs: seq<CronJob>, values: seq<Job>, now: int, due: seq<CronJob>, at: seq<nat>)
    requires |jobs| == |values| && Distinct(jobs) && StandAt(due, jobs, at)
    requires forall i | 0 <= i < |jobs| :: i in at <==> values[i].enabled && values[i].nextRun > 0 && now >= values[i].nextRun
    ensures forall i | 0 <= i < |jobs| :: jobs[i] in due <==> values[i].enabled && 0 < values[i].nextRun <= now
  {
    forall i | 0 <= i < |jobs| ensures jobs[i] in due <==> i in at {
      if i in at {
        var k :| 0 <= k < |at| && at[k] == i;
        assert due[k] == jobs[i];
      }
      if jobs[i] in due {
        var k :| 0 <= k < |due| && due[k] == jobs[i];
        assert jobs[at[k]] == jobs[i];
      }
    }
  }

  /** The due jobs of one wake mode, in store order. */
  lemma {:induction false} DueInModeExactly(mode: WakeMode, jobs: seq<CronJob>, values: seq<Job>, now: int) returns (at: seq<nat>)
    requires |jobs| == |values|
    ensures StandAt(DueIn(mode, jobs, values, now), jobs, at)
    ensures forall i | 0 <= i < |jobs| ::
              i in at <==> values[i].enabled && values[i].nextRun > 0 && now >= values[i].nextRun && values[i].wakeMode == mode
  {
    at := [];
    if jobs != [] {
      var n := |jobs| - 1;
      var taken := IsDue(values[n], now) && values[n].wakeMode == mode;
      at := DueInModeExactly(mode, jobs[..n], values[..n], now);
      StandAtExtends(DueIn(mode, jobs[..n], values[..n], now), jobs[..n], at, jobs[n], taken);
      at := at + if taken then [n] else [];
      assert jobs == jobs[..n] + [jobs[n]];
    }
  }

  /** Where the m-th due job stands in the store. */
  lemma {:induction false} PlaceOfDue(jobs: seq<CronJob>, values: seq<Job>, now: int, m: nat) returns (k: nat)
    requires |jobs| == |values| && m < |DueOf(jobs, values, now)|
    ensures |ModesOfDue(values, now)| == |DueOf(jobs, values, now)|
    ensures k < |jobs| && jobs[k] == DueOf(jobs, values, now)[m] && IsDue(values[k], now)
    ensures values[k].wakeMode == ModesOfDue(values, now)[m]
  {
    var n := |jobs| - 1;
    ModesSortTheDue(WakeNow, jobs, values, now);
    ModesSortTheDue(WakeNow, jobs[..n], values[..n], now);
    if m < |DueOf(jobs[..n], values[..n], now)| {
      k := PlaceOfDue(jobs[..n], values[..n], now, m);
    } else {
      k := n;
    }
  }

  class Service {
    const eval: Evaluator
    const onJob: Option<nat -> Option<string>>
    var jobs: seq<CronJob>
    var deferred: seq<CronJob>
    var running: bool
    var armed: Option<int>
    var called: seq<CronJob>
    var clock: int
    ghost var armedAt: int
    ghost var known: set<CronJob>
    ghost var deferredEver: seq<CronJob>
    ghost var fired: seq<CronJob>

    constructor (eval: Evaluator, onJob: Option<nat -> Option<string>>)
      ensures Valid() && jobs == [] && deferred == [] && !running && known == {}
      ensures this.eval == eval && this.onJob == onJob
    {
      this.eval, this.onJob := eval, onJob;
      jobs, deferred, running, armed, called, clock := [], [], false, None, [], 0;
      armedAt, known, deferredEver, fired := 0, {}, [], [];
    }

    /** Every job ever known is where its operations brought it, and is listed exactly when the store lists it. */
    ghost predicate Sound()
      reads `jobs, `deferred, `clock, `known, known
    {
      && (forall j | j in jobs :: j in known)
      && (forall j | j in deferred :: j in known)
      && Distinct(jobs)
      && (forall a, b | a in known && b in known && a.id == b.id :: a == b)
      && (forall j | j in known :: Tracks(j))
    }

    ghost predicate Tracks(j: CronJob)
      reads `jobs, `clock, j
    {
      j.Consistent(eval) && j.QuietSince(clock) && (j.listed <==> j in jobs)
    }

    /** With a callback set, the flushed jobs and the queued ones are the deferred ones, in order; the timer was set in the past. */
    ghost predicate Valid()
      reads `jobs, `deferred, `clock, `known, `fired, `deferredEver, `armedAt, known
    {
      Sound() && (onJob.Some? ==> fired + deferred == deferredEver) && armedAt <= clock
    }

    /** A clock that never goes back. */
    method NowMs() returns (t: int)
      modifies this`clock
      ensures t == clock && old(clock) <= clock
      ensures old(Sound()) ==> Sound()
    {
      t :| clock <= t;
      clock := t;
      if old(Sound()) {
        forall j | j in known ensures Tracks(j) {
          assert old(Tracks(j));
        }
      }
    }

    // ----- the timer -----

    /** A job the timer can wait for. */
    predicate Waits(j: CronJob)
      reads j
    {
      j.enabled && j.nextRun != 0 && j.nextRun < MAX_INT64
    }

    /** The earliest next run of the jobs, or 0. */
    ghost predicate IsNextWake(next: int)
      reads `jobs, jobs
    {
      && (next == 0 ==> forall j | j in jobs :: !Waits(j))
      && (next != 0 ==> exists j | j in jobs :: Waits(j) && j.nextRun == next)
      && (forall j | j in jobs && Waits(j) :: next != 0 && next <= j.nextRun)
    }

    method GetNextWake() returns (next: int)
      ensures IsNextWake(next)
    {
      var best, found := MAX_INT64, false;
      for i := 0 to |jobs|
        invariant found ==> best < MAX_INT64 && best != 0 && exists k | 0 <= k < i :: Waits(jobs[k]) && jobs[k].nextRun == best
        invariant !found ==> best == MAX_INT64
        invariant forall k | 0 <= k < i && Waits(jobs[k]) :: found && best <= jobs[k].nextRun
      {
        var j := jobs[i];
        if j.enabled && j.nextRun != 0 && j.nextRun < best {
          best, found := j.nextRun, true;
        }
      }
      next := if found then best else 0;
    }

    ghost function WakeAt(next: int): Option<int>
      reads this`armedAt
    {
      if next == 0 then None else Some(if next > armedAt then next else armedAt)
    }

    /** While running, the timer, set at `armedAt`, goes off at the earliest next run, or at once when that was past. */
    ghost predicate ArmedExactly()
      reads `running, `jobs, `armed, `armedAt, jobs
    {
      if running then exists next :: IsNextWake(next) && armed == WakeAt(next) else armed == None
    }

    /** While running, no job is slept through. */
    ghost predicate ArmedInTime()
      reads `running, `jobs, `armed, `armedAt, jobs
    {
      running ==> forall j | j in jobs && Waits(j) ::
        armed.Some? && (armed.value <= j.nextRun || armed.value <= armedAt)
    }

    /** Armed again since the clock showed `from`. */
    ghost predicate ArmedSince(from: int)
      reads `running, `jobs, `armed, `armedAt, `clock, jobs
    {
      ArmedExactly() && ArmedInTime() && from <= armedAt <= clock
    }

    /** What an armed timer does: it goes off at the earliest moment a job waits for, or when it was set, if later. */
    lemma TimerGoesOffInTime(from: int)
      requires ArmedSince(from)
      ensures from <= armedAt <= clock && (!running ==> armed == None)
      ensures running ==>
                (armed == None <==> forall j | j in jobs :: !(j.enabled && j.nextRun != 0 && j.nextRun < 0x7FFF_FFFF_FFFF_FFFF))
      ensures running && armed.Some? ==>
                && armed.value >= armedAt
                && (forall j | j in jobs && j.enabled && j.nextRun != 0 && j.nextRun < 0x7FFF_FFFF_FFFF_FFFF ::
                      armed.value <= j.nextRun || armed.value == armedAt)
                && exists j | j in jobs && j.enabled && j.nextRun != 0 && j.nextRun < 0x7FFF_FFFF_FFFF_FFFF ::
                     armed.value == if j.nextRun > armedAt then j.nextRun else armedAt
    {
      if running {
        var next :| IsNextWake(next) && armed == WakeAt(next);
        assert next != 0 ==> exists j | j in jobs :: Waits(j) && j.nextRun == next;
      }
    }

    /** What a timer that is in time does: it goes off before any enabled job has waited past its next run. */
    lemma NoJobIsSleptThrough(j: CronJob)
      requires ArmedInTime() && running && j in jobs && j.enabled && j.nextRun != 0 && j.nextRun < 0x7FFF_FFFF_FFFF_FFFF
      ensures armed.Some? && (armed.value <= j.nextRun || armed.value <= armedAt)
    {
      assert Waits(j);
    }

    method Arm()
      requires Valid()
      modifies this`armed, this`armedAt, this`clock
      ensures Valid() && ArmedSince(old(clock)) && clock >= old(clock)
    {
      var t := NowMs();
      SetTimer(t);
    }

    method SetTimer(t: int)
      modifies this`armed, this`armedAt
      ensures ArmedExactly() && ArmedInTime() && armedAt == t
    {
      armed := None;
      armedAt := t;
      if !running {
        return;
      }
      var next := GetNextWake();
      if next == 0 {
        assert IsNextWake(next) && armed == WakeAt(next);
        return;
      }
      var delay := next - t;
      if delay < 0 {
        delay := 0;
      }
      armed := Some(t + delay);
      assert IsNextWake(next) && armed == WakeAt(next);
    }

    // ----- firing -----

    /** What the next callback leaves as the status; without a callback the old one stays. */
    function StatusAfter(before: Status, call: nat): Status {
      if onJob.None? then before else Outcome(onJob.value(call))
    }

    lemma StatusSays(before: Status, call: nat)
      ensures onJob.None? ==> StatusAfter(before, call) == before
      ensures onJob.Some? && onJob.value(call).None? ==> StatusAfter(before, call) == OkStatus
      ensures onJob.Some? && onJob.value(call).Some? ==> StatusAfter(before, call) == ErrorStatus(onJob.value(call).value)
      ensures onJob.None? ==> forall jobs :: Calls(jobs) == []
      ensures onJob.Some? ==> forall jobs :: Calls(jobs) == jobs
    {
    }

    /** The calls of the callback, if there is one. */
    function Calls(fired: seq<CronJob>): seq<CronJob> {
      if onJob.None? then [] else fired
    }

    /** The callback, if any, and the status it leaves. */
    method CallBack(job: CronJob) returns (status: Status)
      modifies this`called
      ensures called == old(called) + Calls([job]) && status == StatusAfter(job.status, |old(called)|)
      ensures old(Valid()) ==> Valid()
    {
      if onJob.None? {
        return job.status;
      }
      var error := onJob.value(|called|);
      called := called + [job];
      status := if error.Some? then ErrorStatus(error.value) else OkStatus;
    }

    /** Drops the job from the list. */
    method Drop(job: CronJob)
      requires Distinct(jobs) && forall a | a in jobs && a.id == job.id :: a == job
      modifies this`jobs
      ensures Distinct(jobs) && job !in jobs && jobs == Without(old(jobs), job.id)
      ensures forall j | j in jobs :: j in old(jobs)
      ensures forall j | j in old(jobs) && j != job :: j in jobs
    {
      WithoutStaysDistinct(jobs, job.id);
      WithoutKeeps(jobs, job.id, job);
      forall j | j in jobs ensures j in Without(jobs, job.id) <==> j != job {
        WithoutKeeps(jobs, job.id, j);
      }
      forall j | j in Without(jobs, job.id) ensures j in jobs {
        WithoutKeeps(jobs, job.id, j);
      }
      jobs := FilterJobs(jobs, job.id);
    }

    method ExecuteJob(job: CronJob, ghost due: Option<int>)
      requires Valid() && job in jobs
      requires due.Some? ==> due.value <= clock && IsDue(job.Value(), due.value)
      requires due.Some? ==> job.wakeMode.WakeNow? && job.QuietSince(due.value)
      modifies this`jobs, this`called, this`clock, job
      ensures Valid() && clock >= old(clock)
      ensures forall j | j in jobs :: j in old(jobs)
      ensures forall j | j in old(jobs) && j != job :: j in jobs
      ensures called == old(called) + Calls([job])
      ensures RanOnce(job.events, old(job.events), due, old(clock), clock, StatusAfter(old(job.status), |old(called)|))
      ensures due.Some? && LooksAhead(eval) ==> job !in jobs || !IsDue(job.Value(), due.value)
      ensures old(job.schedule).kind.At? ==>
                if job.deleteAfterRun then job !in jobs else job in jobs && !job.enabled && job.nextRun == 0
    {
      assert Tracks(job);
      var start, status, done, again := Observe(job);
      Conclude(job, start, status, done, again, due);
    }

    /** The callback run and the clock readings around it; only a repeating job reads the clock a third time. */
    method Observe(job: CronJob) returns (start: int, status: Status, done: int, again: int)
      requires Valid()
      modifies this`called, this`clock
      ensures Valid() && old(clock) <= start <= done <= again <= clock && called == old(called) + Calls([job])
      ensures status == StatusAfter(job.status, |old(called)|)
    {
      start := NowMs();
      status := CallBack(job);
      done := NowMs();
      again := done;
      if job.schedule.kind != At {
        again := NowMs();
      }
    }

    method Conclude(job: CronJob, start: int, status: Status, done: int, again: int, ghost due: Option<int>)
      requires Valid() && job in jobs && job.QuietSince(due.GetOr(start)) && start <= done <= again <= clock
      requires due.Some? ==> due.value <= start && IsDue(job.Value(), due.value) && job.wakeMode.WakeNow?
      modifies this`jobs, job
      ensures Valid()
      ensures forall j | j in jobs :: j in old(jobs)
      ensures forall j | j in old(jobs) && j != job :: j in jobs
      ensures job.events == old(job.events) + [RunEvent(due, start, done, again, status)]
      ensures due.Some? && LooksAhead(eval) ==> job !in jobs || !IsDue(job.Value(), due.value)
      ensures old(job.schedule).kind.At? ==>
                if job.deleteAfterRun then job !in jobs else job in jobs && !job.enabled && job.nextRun == 0
    {
      assert Tracks(job);
      SettleAndDrop(job, start, status, done, again, due);
      forall j | j in known ensures Tracks(j) {
        if j != job {
          assert old(Tracks(j));
        }
      }
    }

    method SettleAndDrop(job: CronJob, start: int, status: Status, done: int, again: int, ghost due: Option<int>)
      requires Tracks(job) && job in jobs && Distinct(jobs) && forall a | a in jobs && a.id == job.id :: a == job
      requires job.QuietSince(due.GetOr(start)) && start <= done <= again <= clock
      requires due.Some? ==> due.value <= start && IsDue(job.Value(), due.value) && job.wakeMode.WakeNow?
      modifies this`jobs, job
      ensures Tracks(job) && Distinct(jobs)
      ensures forall j | j in jobs :: j in old(jobs)
      ensures forall j | j in old(jobs) && j != job :: j in jobs
      ensures job.events == old(job.events) + [RunEvent(due, start, done, again, status)]
      ensures due.Some? && LooksAhead(eval) ==> job !in jobs || !IsDue(job.Value(), due.value)
      ensures old(job.schedule).kind.At? ==>
                if job.deleteAfterRun then job !in jobs else job in jobs && !job.enabled && job.nextRun == 0
    {
      var drop := job.Settle(eval, start, status, done, again, due);
      if drop {
        Drop(job);
      }
    }

    method DeferJob(job: CronJob, ghost due: int)
      requires Valid() && job in jobs && due <= clock && IsDue(job.Value(), due)
      requires job.wakeMode.WakeNextHeartbeat? && job.QuietSince(due)
      modifies this`deferred, this`deferredEver, this`clock, job
      ensures Valid() && clock >= old(clock)
      ensures deferred == old(deferred) + [job] && deferredEver == old(deferredEver) + [job]
      ensures job.TookDue(old(job.events), due) && old(clock) <= Last(job.events[|old(job.events)|]) <= clock
      ensures LooksAhead(eval) ==> !IsDue(job.Value(), due)
    {
      Enqueue(job);
      var now := NowMs();
      assert Tracks(job);
      label reading:
      job.Postpone(eval, now, due);
      assert Tracks(job);
      forall j | j in known ensures Tracks(j) {
        if j != job {
          assert old@reading(Tracks(j));
        }
      }
    }

    method Enqueue(job: CronJob)
      requires Valid() && job in known
      modifies this`deferred, this`deferredEver
      ensures Valid() && deferred == old(deferred) + [job] && deferredEver == old(deferredEver) + [job]
    {
      deferred := deferred + [job];
      deferredEver := deferredEver + [job];
    }

    ghost predicate AreValues(values: seq<Job>)
      reads `jobs, jobs
    {
      |values| == |jobs| && forall k | 0 <= k < |jobs| :: values[k] == jobs[k].Value()
    }

    /** The jobs that are due, in store order. */
    method CollectDue(now: int, ghost values: seq<Job>) returns (due: seq<CronJob>)
      requires Distinct(jobs) && AreValues(values)
      ensures due == DueOf(jobs, values, now) && Distinct(due)
      ensures forall j :: j in due <==> j in jobs && IsDue(j.Value(), now)
    {
      due := [];
      for i := 0 to |jobs|
        invariant due == DueOf(jobs[..i], values[..i], now)
        invariant Distinct(due) && forall j :: j in due <==> j in jobs[..i] && IsDue(j.Value(), now)
      {
        assert jobs[..i + 1] == jobs[..i] + [jobs[i]];
        assert jobs[..i + 1][..i] == jobs[..i] && values[..i + 1][..i] == values[..i];
        assert jobs[i] !in jobs[..i];
        if jobs[i].enabled && jobs[i].nextRun > 0 && now >= jobs[i].nextRun {
          due := due + [jobs[i]];
        }
      }
      assert jobs[..|jobs|] == jobs && values[..|jobs|] == values;
    }

    /** Fires or defers one due job, by its wake mode. */
    method TakeDue(job: CronJob, now: int)
      requires Valid() && job in jobs && now <= clock && IsDue(job.Value(), now) && job.QuietSince(now)
      modifies this`jobs, this`called, this`deferred, this`deferredEver, this`clock, job
      ensures Valid() && clock >= old(clock) && job.TookDue(old(job.events), now)
      ensures forall j | j in jobs :: j in old(jobs)
      ensures forall j | j in old(jobs) && j != job :: j in jobs
      ensures var queued := if old(job.wakeMode) == WakeNextHeartbeat then [job] else [];
        deferred == old(deferred) + queued && deferredEver == old(deferredEver) + queued
      ensures called == old(called) + Calls(if old(job.wakeMode) == WakeNow then [job] else [])
      ensures LooksAhead(eval) ==> job !in jobs || !IsDue(job.Value(), now)
    {
      if job.wakeMode == WakeNextHeartbeat {
        DeferJob(job, now);
      } else {
        ExecuteJob(job, Some(now));
      }
    }

    ghost predicate Pending(j: CronJob, now: int, before: seq<Event>, mode: WakeMode)
      reads `jobs, j
    {
      j in jobs && IsDue(j.Value(), now) && j.QuietSince(now) && j.events == before && j.wakeMode == mode
    }

    ghost predicate Taken(j: CronJob, now: int, before: seq<Event>)
      reads `jobs, j
    {
      j.TookDue(before, now) && (LooksAhead(eval) ==> j !in jobs || !IsDue(j.Value(), now))
    }

    /** The first k due jobs are taken and queued as they were for, the others are as they were. */
    ghost predicate Halfway(due: seq<CronJob>, k: nat, now: int, befores: seq<seq<Event>>, modes: seq<WakeMode>,
                            queue: seq<CronJob>, ever: seq<CronJob>, before: seq<CronJob>)
      requires k <= |due| == |befores| == |modes|
      reads `jobs, `deferred, `deferredEver, `called, due
    {
      && (forall m | k <= m < |due| :: Pending(due[m], now, befores[m], modes[m]))
      && (forall m | 0 <= m < k :: Taken(due[m], now, befores[m]))
      && TakenByMode(due[..k], modes[..k], queue, ever, before)
    }

    /** The ones for the heartbeat are queued, for the others the callback was called. */
    ghost predicate TakenByMode(due: seq<CronJob>, modes: seq<WakeMode>, queue: seq<CronJob>, ever: seq<CronJob>,
                                before: seq<CronJob>)
      requires |due| == |modes|
      reads `deferred, `deferredEver, `called
    {
      && deferred == queue + OfMode(WakeNextHeartbeat, due, modes)
      && deferredEver == ever + OfMode(WakeNextHeartbeat, due, modes)
      && called == before + Calls(OfMode(WakeNow, due, modes))
    }

    lemma OneMoreTaken(due: seq<CronJob>, modes: seq<WakeMode>, k: nat, queue: seq<CronJob>, before: seq<CronJob>)
      requires k < |due| == |modes|
      ensures queue + OfMode(WakeNextHeartbeat, due[..k], modes[..k]) + (if modes[k] == WakeNextHeartbeat then [due[k]] else [])
              == queue + OfMode(WakeNextHeartbeat, due[..k + 1], modes[..k + 1])
      ensures before + Calls(OfMode(WakeNow, due[..k], modes[..k])) + Calls(if modes[k] == WakeNow then [due[k]] else [])
              == before + Calls(OfMode(WakeNow, due[..k + 1], modes[..k + 1]))
    {
      OneMoreOfMode(WakeNextHeartbeat, due, modes, k);
      OneMoreOfMode(WakeNow, due, modes, k);
    }

    /** Takes the due jobs one after the other; each becomes due exactly once, and those for the heartbeat are queued in order. */
    method TakeAllDue(due: seq<CronJob>, now: int, ghost befores: seq<seq<Event>>, ghost modes: seq<WakeMode>)
      requires Valid() && now <= clock && Distinct(due) && |befores| == |due| == |modes|
      requires Halfway(due, 0, now, befores, modes, deferred, deferredEver, called)
      modifies this`jobs, this`called, this`deferred, this`deferredEver, this`clock, due
      ensures Valid() && clock >= old(clock)
      ensures Halfway(due, |due|, now, befores, modes, old(deferred), old(deferredEver), old(called))
      ensures forall j | j in jobs :: j in old(jobs)
    {
      ghost var queue, ever, before := deferred, deferredEver, called;
      for k := 0 to |due|
        invariant Valid() && clock >= old(clock)
        invariant Halfway(due, k, now, befores, modes, queue, ever, before)
        invariant forall j | j in jobs :: j in old(jobs)
      {
        TakeNext(due, k, now, befores, modes, queue, ever, before);
      }
    }

    method TakeNext(due: seq<CronJob>, k: nat, now: int, ghost befores: seq<seq<Event>>, ghost modes: seq<WakeMode>,
                    ghost queue: seq<CronJob>, ghost ever: seq<CronJob>, ghost before: seq<CronJob>)
      requires Valid() && now <= clock && Distinct(due) && k < |due| == |befores| == |modes|
      requires Halfway(due, k, now, befores, modes, queue, ever, before)
      modifies this`jobs, this`called, this`deferred, this`deferredEver, this`clock, due[k]
      ensures Valid() && clock >= old(clock)
      ensures Halfway(due, k + 1, now, befores, modes, queue, ever, before)
      ensures forall j | j in jobs :: j in old(jobs)
    {
      assert Pending(due[k], now, befores[k], modes[k]);
      TakeDue(due[k], now);
      OneMoreTaken(due, modes, k, queue, before);
      OneMoreTaken(due, modes, k, ever, before);
      assert Taken(due[k], now, befores[k]);
      forall m | k < m < |due| ensures Pending(due[m], now, befores[m], modes[m]) {
        assert due[m] != due[k] && old(Pending(due[m], now, befores[m], modes[m]));
      }
      forall m | 0 <= m < k ensures Taken(due[m], now, befores[m]) {
        assert due[m] != due[k] && old(Taken(due[m], now, befores[m]));
      }
    }

    ghost method Remember(due: seq<CronJob>, now: int, values: seq<Job>) returns (befores: seq<seq<Event>>, modes: seq<WakeMode>)
      requires AreValues(values) && due == DueOf(jobs, values, now)
      requires forall j | j in due :: j in jobs && IsDue(j.Value(), now) && j.QuietSince(now)
      ensures |befores| == |due| == |modes| && forall m | 0 <= m < |due| :: befores[m] == due[m].events
      ensures Halfway(due, 0, now, befores, modes, deferred, deferredEver, called)
      ensures forall mode :: OfMode(mode, due, modes) == DueIn(mode, jobs, values, now)
    {
      befores := seq(|due|, (m: nat) requires m < |due| reads due => due[m].events);
      modes := ModesOfDue(values, now);
      ModesSortTheDue(WakeNow, jobs, values, now);
      forall mode ensures OfMode(mode, due, modes) == DueIn(mode, jobs, values, now) {
        ModesSortTheDue(mode, jobs, values, now);
      }
      forall m | 0 <= m < |due| ensures Pending(due[m], now, befores[m], modes[m]) {
        var k := PlaceOfDue(jobs, values, now, m);
      }
      assert forall mode :: OfMode(mode, due[..0], modes[..0]) == [];
    }

    /** With all due jobs in the batch, nothing stays due. */
    method TakeBatch(due: seq<CronJob>, now: int, ghost befores: seq<seq<Event>>, ghost modes: seq<WakeMode>)
      requires Valid() && now <= clock && Distinct(due) && |befores| == |due| == |modes|
      requires Halfway(due, 0, now, befores, modes, deferred, deferredEver, called)
      requires forall j | j in jobs && j !in due :: !IsDue(j.Value(), now)
      modifies this`jobs, this`called, this`deferred, this`deferredEver, this`clock, due
      ensures Valid() && clock >= old(clock)
      ensures forall m | 0 <= m < |due| :: Taken(due[m], now, befores[m])
      ensures deferred == old(deferred) + OfMode(WakeNextHeartbeat, due, modes)
      ensures deferredEver == old(deferredEver) + OfMode(WakeNextHeartbeat, due, modes)
      ensures called == old(called) + Calls(OfMode(WakeNow, due, modes))
      ensures LooksAhead(eval) ==> forall j | j in jobs :: !IsDue(j.Value(), now)
    {
      TakeAllDue(due, now, befores, modes);
      assert due[..|due|] == due && modes[..|due|] == modes;
      if LooksAhead(eval) {
        forall j | j in jobs ensures !IsDue(j.Value(), now) {
          if j in due {
            var m :| 0 <= m < |due| && due[m] == j;
            assert Taken(due[m], now, befores[m]);
          } else {
            assert old(j.Value()) == j.Value();
          }
        }
      }
    }

    /** The due jobs, with what is to be remembered of them. */
    method Gather(now: int, ghost values: seq<Job>)
      returns (due: seq<CronJob>, ghost befores: seq<seq<Event>>, ghost modes: seq<WakeMode>)
      requires Valid() && AreValues(values) && forall j | j in known :: j.QuietSince(now)
      ensures due == DueOf(jobs, values, now) && Distinct(due) && |befores| == |due| == |modes|
      ensures forall m | 0 <= m < |due| :: due[m] in jobs && befores[m] == due[m].events
      ensures Halfway(due, 0, now, befores, modes, deferred, deferredEver, called)
      ensures forall mode :: OfMode(mode, due, modes) == DueIn(mode, jobs, values, now)
      ensures forall j | j in jobs && j !in due :: !IsDue(j.Value(), now)
    {
      due := CollectDue(now, values);
      befores, modes := Remember(due, now, values);
    }

    /** What the timer does to the jobs at time `now`: the due ones become due once, those for the heartbeat are queued
        in store order, and the others stay as they are. */
    method TakeDueAt(now: int, ghost values: seq<Job>) returns (ghost due: seq<CronJob>, ghost befores: seq<seq<Event>>)
      requires Valid() && now <= clock && AreValues(values)
      requires forall j | j in known :: j.QuietSince(now)
      modifies this`jobs, this`called, this`deferred, this`deferredEver, this`clock, known
      ensures Valid() && clock >= old(clock)
      ensures due == DueOf(old(jobs), values, now) && |befores| == |due|
      ensures forall m | 0 <= m < |due| :: due[m] in old(jobs) && befores[m] == old(due[m].events)
      ensures forall m | 0 <= m < |due| :: Taken(due[m], now, befores[m])
      ensures forall j | j in known && j !in due :: unchanged(j)
      ensures LooksAhead(eval) ==> forall j | j in jobs :: !IsDue(j.Value(), now)
      ensures var queued := DueIn(WakeNextHeartbeat, old(jobs), values, now);
        deferred == old(deferred) + queued && deferredEver == old(deferredEver) + queued
      ensures called == old(called) + Calls(DueIn(WakeNow, old(jobs), values, now))
    {
      var batch;
      ghost var modes;
      batch, befores, modes := Gather(now, values);
      due := batch;
      TakeBatch(batch, now, befores, modes);
    }

    /** Reads the clock and takes what is due by then. */
    method TakeDueNow()
      returns (ghost now: int, ghost values: seq<Job>, ghost due: seq<CronJob>, ghost befores: seq<seq<Event>>)
      requires Valid()
      modifies this`jobs, this`called, this`deferred, this`deferredEver, this`clock, known
      ensures Valid() && old(clock) <= now <= clock
      ensures |values| == |old(jobs)| && forall k | 0 <= k < |values| :: values[k] == old(jobs[k].Value())
      ensures due == DueOf(old(jobs), values, now) && |befores| == |due|
      ensures forall m | 0 <= m < |due| :: due[m] in old(jobs) && befores[m] == old(due[m].events)
      ensures forall m | 0 <= m < |due| :: Taken(due[m], now, befores[m])
      ensures forall j | j in known && j !in due :: unchanged(j)
      ensures LooksAhead(eval) ==> forall j | j in jobs :: !IsDue(j.Value(), now)
      ensures var queued := DueIn(WakeNextHeartbeat, old(jobs), values, now);
        deferred == old(deferred) + queued && deferredEver == old(deferredEver) + queued
      ensures called == old(called) + Calls(DueIn(WakeNow, old(jobs), values, now))
    {
      values := seq(|jobs|, (k: nat) requires k < |jobs| reads this, jobs => jobs[k].Value());
      var t := NowMs();
      now := t;
      due, befores := TakeDueAt(t, values);
    }

    /** When the timer goes off: takes what is due, saves, and arms the timer again; nothing enabled is due any more. */
    method OnTimer() returns (ghost now: int, ghost values: seq<Job>, ghost due: seq<CronJob>, ghost befores: seq<seq<Event>>)
      requires Valid()
      modifies this`jobs, this`called, this`deferred, this`deferredEver, this`clock, this`armed, this`armedAt, known
      ensures Valid() && old(clock) <= now <= clock
      ensures running ==> ArmedSince(now)
      ensures running ==> |values| == |old(jobs)| && forall k | 0 <= k < |values| :: values[k] == old(jobs[k].Value())
      ensures due == (if running then DueOf(old(jobs), values, now) else []) && |befores| == |due|
      ensures running ==> forall j | j in old(jobs) :: j in due <==> old(j.enabled) && 0 < old(j.nextRun) <= now
      ensures forall m | 0 <= m < |due| ::
                && |due[m].events| == |befores[m]| + 1 && due[m].events[..|befores[m]|] == befores[m]
                && var e := due[m].events[|befores[m]|]; (e.Fire? || e.Defer?) && e.now == now
      ensures forall m | 0 <= m < |due| :: due[m] in old(jobs) && befores[m] == old(due[m].events)
      ensures forall m | 0 <= m < |due| :: Taken(due[m], now, befores[m])
      ensures forall j | j in known && j !in due :: unchanged(j)
      ensures running && LooksAhead(eval) ==> forall j | j in jobs :: !IsDue(j.Value(), now)
      ensures var queued := if running then DueIn(WakeNextHeartbeat, old(jobs), values, now) else [];
        deferred == old(deferred) + queued && deferredEver == old(deferredEver) + queued
      ensures called == old(called) + Calls(if running then DueIn(WakeNow, old(jobs), values, now) else [])
      ensures !running ==> jobs == old(jobs) && armed == old(armed) && armedAt == old(armedAt)
    {
      now, values, due, befores := clock, [], [], [];
      if running {
        now, values, due, befores := TakeDueNow();
        ghost var at := DueExactly(old(jobs), values, now);
        DueIsDue(old(jobs), values, now, due, at);
        Arm();
      }
    }

    // ----- deferred wakes -----

    /** Delivers one queued wake, also of a job that has left the store since. */
    method Flush(job: CronJob)
      requires Sound() && job in known
      modifies this`jobs, this`called, this`clock, this`fired, job`status, job`lastRun, job`updatedAt, job`listed, job`events
      ensures Sound() && clock >= old(clock) && fired == old(fired) + Calls([job])
      ensures called == old(called) + Calls([job])
      ensures forall j | j in jobs :: j in old(jobs)
      ensures forall j | j in old(jobs) && j != job :: j in jobs
      ensures job.listed == (old(job.listed) && !(job.schedule.kind.At? && job.deleteAfterRun))
      ensures Delivered(job.events, old(job.events), old(clock), clock, StatusAfter(old(job.status), |old(called)|))
    {
      var start := NowMs();
      var status := Fire(job);
      var done := NowMs();
      assert Tracks(job);
      DeliverTo(job, start, status, done);
    }

    method Fire(job: CronJob) returns (status: Status)
      requires Sound()
      modifies this`called, this`fired
      ensures Sound() && fired == old(fired) + Calls([job]) && called == old(called) + Calls([job])
      ensures status == StatusAfter(job.status, |old(called)|)
    {
      status := CallBack(job);
      fired := fired + Calls([job]);
    }

    method DeliverTo(job: CronJob, start: int, status: Status, done: int)
      requires Sound() && job in known && job.QuietSince(start) && start <= done <= clock
      modifies this`jobs, job`status, job`lastRun, job`updatedAt, job`listed, job`events
      ensures Sound()
      ensures forall j | j in jobs :: j in old(jobs)
      ensures forall j | j in old(jobs) && j != job :: j in jobs
      ensures job.listed == (old(job.listed) && !(job.schedule.kind.At? && job.deleteAfterRun))
      ensures job.events == old(job.events) + [CronJobs.Flush(start, done, status)]
    {
      assert Tracks(job);
      var drop := job.Deliver(eval, start, status, done);
      if drop {
        Drop(job);
      }
      assert Tracks(job);
      forall j | j in known ensures Tracks(j) {
        if j != job {
          assert old(Tracks(j));
        }
      }
    }

    ghost predicate DroppedFrom(before: seq<CronJob>, flushed: seq<CronJob>)
      reads `jobs, before
    {
      && (forall j | j in jobs :: j in before)
      && (forall j | j in before :: j in jobs <==> !(j in flushed && j.schedule.kind.At? && j.deleteAfterRun))
    }

    method FlushNext(job: CronJob, ghost flushed: seq<CronJob>, ghost before: seq<CronJob>)
      requires Sound() && job in known && DroppedFrom(before, flushed)
      modifies this`jobs, this`called, this`clock, this`fired, job`status, job`lastRun, job`updatedAt, job`listed, job`events
      ensures Sound() && clock >= old(clock) && fired == old(fired) + Calls([job])
      ensures called == old(called) + Calls([job])
      ensures DroppedFrom(before, flushed + [job]) && job.Received(old(job.events), 1)
    {
      assert Tracks(job);
      Flush(job);
      assert Tracks(job);
    }

    /** Every known job has had the deliveries that the flushed part of the batch holds for it. */
    ghost predicate HasReceived(flushed: seq<CronJob>, befores: map<CronJob, seq<Event>>)
      reads `known, known
    {
      forall j | j in known :: j in befores && j.Received(befores[j], multiset(flushed)[j])
    }

    lemma OneMoreReceived(job: CronJob, first: seq<Event>, second: seq<Event>, n: nat)
      requires job.Received(second, 1)
      requires |second| == |first| + n && second[..|first|] == first
      requires forall k | |first| <= k < |second| :: second[k].Flush?
      ensures job.Received(first, n + 1)
    {
      assert job.events[..|first|] == job.events[..|second|][..|first|];
      forall k | |first| <= k < |job.events| ensures job.events[k].Flush? {
        if k < |second| {
          assert job.events[k] == job.events[..|second|][k];
        }
      }
    }

    /** What has happened when part of a batch is flushed. */
    ghost predicate FlushedSoFar(flushed: seq<CronJob>, before: seq<CronJob>, befores: map<CronJob, seq<Event>>,
                                 firedBefore: seq<CronJob>, calledBefore: seq<CronJob>)
      reads `jobs, `known, `fired, `called, before, known
    {
      && DroppedFrom(before, flushed) && HasReceived(flushed, befores)
      && FiredSoFar(flushed, firedBefore, calledBefore)
    }

    ghost predicate FiredSoFar(flushed: seq<CronJob>, firedBefore: seq<CronJob>, calledBefore: seq<CronJob>)
      reads `fired, `called
    {
      fired == firedBefore + Calls(flushed) && called == calledBefore + Calls(flushed)
    }

    lemma OneMoreCall(before: seq<CronJob>, flushed: seq<CronJob>, job: CronJob)
      ensures before + Calls(flushed) + Calls([job]) == before + Calls(flushed + [job])
    {
    }

    method FlushStep(job: CronJob, ghost flushed: seq<CronJob>, ghost before: seq<CronJob>,
                     ghost befores: map<CronJob, seq<Event>>, ghost firedBefore: seq<CronJob>, ghost calledBefore: seq<CronJob>)
      requires Sound() && job in known && FlushedSoFar(flushed, before, befores, firedBefore, calledBefore)
      modifies this`jobs, this`called, this`clock, this`fired, job`status, job`lastRun, job`updatedAt, job`listed, job`events
      ensures Sound() && clock >= old(clock) && FlushedSoFar(flushed + [job], before, befores, firedBefore, calledBefore)
    {
      FlushNext(job, flushed, before);
      OneMoreCall(firedBefore, flushed, job);
      OneMoreCall(calledBefore, flushed, job);
      OneMoreReceived(job, befores[job], old(job.events), multiset(flushed)[job]);
      assert multiset(flushed + [job]) == multiset(flushed) + multiset{job};
      forall j | j in known ensures j.Received(befores[j], multiset(flushed + [job])[j]) {
        if j != job {
          assert old(j.Received(befores[j], multiset(flushed)[j]));
        }
      }
    }

    method FlushBatch(batch: seq<CronJob>, ghost befores: map<CronJob, seq<Event>>)
      requires Sound() && deferred == [] && FlushedSoFar([], jobs, befores, fired, called) && forall j | j in batch :: j in known
      modifies this`jobs, this`called, this`clock, this`fired
      modifies known`status, known`lastRun, known`updatedAt, known`listed, known`events
      ensures Sound() && clock >= old(clock) && FlushedSoFar(batch, old(jobs), befores, old(fired), old(called))
    {
      ghost var before, firedBefore, calledBefore := jobs, fired, called;
      for k := 0 to |batch|
        invariant Sound() && clock >= old(clock)
        invariant FlushedSoFar(batch[..k], before, befores, firedBefore, calledBefore)
      {
        OneMore(batch, k);
        FlushStep(batch[k], batch[..k], before, befores, firedBefore, calledBefore);
      }
      OneMore(batch, |batch|);
    }

    lemma NothingFlushed(befores: map<CronJob, seq<Event>>)
      requires forall j | j in known :: j in befores && befores[j] == j.events
      ensures FlushedSoFar([], jobs, befores, fired, called)
    {
    }

    method TakeQueue() returns (batch: seq<CronJob>)
      requires Sound()
      modifies this`deferred
      ensures Sound() && deferred == [] && batch == old(deferred)
    {
      batch := deferred;
      deferred := [];
    }

    /** The queue is taken off first and then fired in order; the timer, which is not armed again, stays in time. */
    method FlushDeferred() returns (count: nat, ghost befores: map<CronJob, seq<Event>>)
      requires Valid()
      modifies this`jobs, this`deferred, this`called, this`clock, this`fired
      modifies known`status, known`lastRun, known`updatedAt, known`listed, known`events
      ensures Valid() && deferred == [] && count == |old(deferred)|
      ensures forall j | j in known :: j in befores && befores[j] == old(j.events)
      ensures FlushedSoFar(old(deferred), old(jobs), befores, old(fired), old(called))
      ensures old(ArmedInTime()) ==> ArmedInTime()
    {
      count, befores := FlushRemembering();
      assert running == old(running) && armed == old(armed) && armedAt == old(armedAt);
      StaysInTime();
    }

    method FlushRemembering() returns (count: nat, ghost befores: map<CronJob, seq<Event>>)
      requires Valid()
      modifies this`jobs, this`deferred, this`called, this`clock, this`fired
      modifies known`status, known`lastRun, known`updatedAt, known`listed, known`events
      ensures Valid() && deferred == [] && count == |old(deferred)|
      ensures forall j | j in known :: j in befores && befores[j] == old(j.events)
      ensures FlushedSoFar(old(deferred), old(jobs), befores, old(fired), old(called))
      ensures forall j | j in jobs :: j in old(jobs)
    {
      befores := map j | j in known :: j.events;
      NothingFlushed(befores);
      count := FlushQueue(befores);
    }

    /** Fewer jobs with the same next runs need no earlier timer. */
    twostate lemma StaysInTime()
      requires running == old(running) && armed == old(armed) && armedAt == old(armedAt)
      requires forall j | j in jobs :: j in old(jobs) && j.enabled == old(j.enabled) && j.nextRun == old(j.nextRun)
      ensures old(ArmedInTime()) ==> ArmedInTime()
    {
      if running && old(ArmedInTime()) {
        forall j | j in jobs && Waits(j) ensures armed.Some? && (armed.value <= j.nextRun || armed.value <= armedAt) {
          assert j in old(jobs) && old(Waits(j));
        }
      }
    }

    method FlushQueue(ghost befores: map<CronJob, seq<Event>>) returns (count: nat)
      requires Valid() && FlushedSoFar([], jobs, befores, fired, called)
      modifies this`jobs, this`deferred, this`called, this`clock, this`fired
      modifies known`status, known`lastRun, known`updatedAt, known`listed, known`events
      ensures Valid() && deferred == [] && count == |old(deferred)|
      ensures FlushedSoFar(old(deferred), old(jobs), befores, old(fired), old(called))
      ensures forall j | j in jobs :: j in old(jobs)
    {
      var batch := TakeQueue();
      FlushBatch(batch, befores);
      count := |batch|;
    }

    // ----- lifecycle and mutators -----

    method Find(id: string) returns (job: CronJob?)
      ensures job != null ==> job in jobs && job.id == id
      ensures job == null ==> forall j | j in jobs :: j.id != id
    {
      for i := 0 to |jobs|
        invariant forall k | 0 <= k < i :: jobs[k].id != id
      {
        if jobs[i].id == id {
          return jobs[i];
        }
      }
      job := null;
    }

    /** The jobs a file holds, with unknown or missing parts filled in; none when it cannot be read or decoded.
        Their histories start from what was stored. */
    method LoadStore(file: Option<seq<Stored>>)
      requires Valid() && known == {} && jobs == []
      requires file.Some? ==> forall i, k | 0 <= i < k < |file.value| :: file.value[i].id != file.value[k].id
      modifies this`jobs, this`known
      ensures Valid() && fresh(known) && |jobs| == |file.GetOr([])|
      ensures forall i | 0 <= i < |jobs| :: jobs[i].Value() == Coerced(file.value[i]) && jobs[i].events == []
    {
      if file.None? {
        return;
      }
      var stored := file.value;
      for i := 0 to |stored|
        invariant Valid() && |jobs| == i && fresh(known)
        invariant forall k | 0 <= k < i :: jobs[k].Value() == Coerced(stored[k]) && jobs[k].events == []
        invariant forall j | j in known :: j in jobs
      {
        LoadOne(stored[i]);
      }
    }

    method LoadOne(stored: Stored)
      requires Valid() && forall j | j in known :: j.id != stored.id
      modifies this`jobs, this`known
      ensures Valid() && |jobs| == |old(jobs)| + 1 && jobs[..|old(jobs)|] == old(jobs)
      ensures var job := jobs[|old(jobs)|];
        fresh(job) && known == old(known) + {job} && job.Value() == Coerced(stored) && job.events == []
    {
      var job := new CronJob(Coerced(stored));
      Append(job);
    }

    /** In any reachable service: due events of an "every" job, with no new schedule between them, are an interval apart. */
    lemma ServiceSpacesJobs(job: CronJob, i: nat, k: nat)
      requires Valid() && job in known
      requires i < k < |job.events| && IsDueEvent(job.events[i]) && IsDueEvent(job.events[k])
      requires KeepsSchedule(job.events, i, k) && ScheduleAt(eval, job.born, job.events, i).kind.Every?
      ensures First(job.events[k]) - First(job.events[i]) >= ScheduleAt(eval, job.born, job.events, i).everyMs
    {
      assert Tracks(job);
      DueEventsAreSpaced(eval, job.born, job.events, i, k);
    }

    /** In any reachable service: an "at" job that was due is due again only after an enable, and, if it was due at its
        time, a new schedule. Only a stored job that was given another next run can be due before its time. */
    lemma ServiceFiresOnce(job: CronJob, i: nat, k: nat)
      requires Valid() && job in known
      requires i < k < |job.events| && IsDueEvent(job.events[i]) && IsDueEvent(job.events[k])
      requires ScheduleAt(eval, job.born, job.events, i).kind.At?
      ensures exists e | i < e < k :: job.events[e].Enable?
      ensures First(job.events[i]) >= ScheduleAt(eval, job.born, job.events, i).atMs || PointsAtItsTime(job.born.job)
              ==> exists e | i < e < k :: job.events[e].Reschedule?
    {
      assert Tracks(job);
      if PointsAtItsTime(job.born.job) {
        DueAtItsTime(eval, job.born, job.events, i);
      }
      AtJobsAreDueOnce(eval, job.born, job.events, i, k);
    }

    /** Takes effect even when the save fails; only then the timer is not armed. */
    method Start(saved: bool) returns (ok: bool, ghost now: int)
      requires Valid()
      modifies this`running, this`clock, this`armed, this`armedAt, known
      ensures Valid() && running && ok == saved && jobs == old(jobs)
      ensures ok ==> ArmedSince(now)
      ensures old(clock) <= now <= clock
      ensures forall k | 0 <= k < |jobs| :: jobs[k].Restarted(eval, old(jobs[k].events), now)
      ensures forall j | j in known && j !in jobs :: unchanged(j)
    {
      running := true;
      now := RestartJobs();
      if !saved {
        return false, now;
      }
      Arm();
      ok := true;
    }

    method RestartJobs() returns (ghost now: int)
      requires Valid()
      modifies this`clock, known
      ensures Valid() && old(clock) <= now <= clock
      ensures forall k | 0 <= k < |jobs| :: jobs[k].Restarted(eval, old(jobs[k].events), now)
      ensures forall j | j in known && j !in jobs :: unchanged(j)
    {
      var t := NowMs();
      now := t;
      RecomputeNextRuns(t);
    }

    /** The first i jobs are recomputed, the others have not moved. */
    ghost predicate RestartedSoFar(i: nat, befores: seq<seq<Event>>, now: int)
      reads `jobs, jobs
    {
      && i <= |jobs| == |befores|
      && (forall k | 0 <= k < i :: jobs[k].Restarted(eval, befores[k], now))
      && (forall k | i <= k < |jobs| :: jobs[k].events == befores[k])
    }

    method RecomputeNextRuns(now: int)
      requires Valid() && now == clock
      modifies jobs
      ensures Valid()
      ensures forall k | 0 <= k < |jobs| :: jobs[k].Restarted(eval, old(jobs[k].events), now)
    {
      ghost var befores := seq(|jobs|, (k: nat) requires k < |jobs| reads this, jobs => jobs[k].events);
      for i := 0 to |jobs|
        invariant Valid() && RestartedSoFar(i, befores, now)
      {
        RecomputeNext(jobs[i], i, now, befores);
      }
    }

    method RecomputeNext(job: CronJob, ghost i: nat, now: int, ghost befores: seq<seq<Event>>)
      requires Valid() && now == clock && i < |jobs| && jobs[i] == job && RestartedSoFar(i, befores, now)
      modifies job`nextRun, job`events
      ensures Valid() && RestartedSoFar(i + 1, befores, now)
    {
      RecomputeOne(job, now);
      forall k | 0 <= k < |jobs| && k != i ensures jobs[k] != job {
      }
      forall k | 0 <= k < i ensures jobs[k].Restarted(eval, befores[k], now) {
        assert old(jobs[k].Restarted(eval, befores[k], now));
      }
    }

    method RecomputeOne(job: CronJob, now: int)
      requires Valid() && job in jobs && now == clock
      modifies job`nextRun, job`events
      ensures Valid() && job.Restarted(eval, old(job.events), now)
    {
      assert Tracks(job);
      job.Recompute(eval, now);
      forall j | j in known ensures Tracks(j) {
        if j != job {
          assert old(Tracks(j));
        }
      }
    }

    method Stop()
      modifies this`running, this`armed
      ensures !running && armed == None && ArmedExactly() && ArmedInTime()
    {
      running := false;
      armed := None;
    }

    /** A fresh id is assumed. */
    method AddJob(id: string, knownZone: string -> bool, schedule: Option<Schedule>, deleteAfterRun: bool,
                  wakeMode: WakeMode, saved: bool)
      returns (job: CronJob?)
      requires Valid() && forall j | j in known :: j.id != id
      modifies this`jobs, this`known, this`clock, this`armed, this`armedAt
      ensures Valid()
      ensures job != null <==> ValidSchedule(knownZone, schedule) && saved
      ensures !ValidSchedule(knownZone, schedule) ==> jobs == old(jobs) && known == old(known)
      ensures ValidSchedule(knownZone, schedule) ==>
                |jobs| == |old(jobs)| + 1 && IsAdded(jobs[|old(jobs)|], old(jobs), id, schedule.value, deleteAfterRun, wakeMode)
      ensures ValidSchedule(knownZone, schedule) ==> known == old(known) + {jobs[|old(jobs)|]}
      ensures ValidSchedule(knownZone, schedule) ==>
                var j := jobs[|old(jobs)|];
                && jobs == old(jobs) + [j] && j.id == id && j.schedule == schedule.value && j.wakeMode == wakeMode
                && j.deleteAfterRun == deleteAfterRun
                && j.enabled && old(clock) <= j.updatedAt <= clock && WaitsFrom(eval, j.Value(), j.updatedAt)
                && (schedule.value.kind == Every && schedule.value.everyMs > 0 ==>
                      j.nextRun == j.updatedAt + schedule.value.everyMs)
      ensures job != null ==> job == jobs[|old(jobs)|] && ArmedSince(old(clock))
      ensures saved && old(ArmedInTime()) ==> ArmedInTime()
    {
      var ok := ValidateScheduleForAdd(knownZone, schedule);
      if !ok {
        return null;
      }
      var now := NowMs();
      var added := AppendNew(id, schedule.value, deleteAfterRun, wakeMode, now);
      assert added.updatedAt == now;
      if !saved {
        return null;
      }
      Arm();
      job := added;
    }

    method AppendNew(id: string, schedule: Schedule, deleteAfterRun: bool, wakeMode: WakeMode, now: int) returns (job: CronJob)
      requires Valid() && forall j | j in known :: j.id != id
      modifies this`jobs, this`known
      ensures Valid() && IsAdded(job, old(jobs), id, schedule, deleteAfterRun, wakeMode) && known == old(known) + {job}
      ensures job.updatedAt == now
    {
      var next := ComputeNextRun(eval, schedule, now);
      job := new CronJob(Job(id, true, schedule, next, 0, now, deleteAfterRun, wakeMode, NoStatus));
      Append(job);
    }

    ghost predicate IsAdded(job: CronJob, before: seq<CronJob>, id: string, schedule: Schedule, deleteAfterRun: bool,
                            wakeMode: WakeMode)
      reads `jobs, job
    {
      && jobs == before + [job] && job.id == id && job.enabled && job.schedule == schedule && job.wakeMode == wakeMode
      && job.deleteAfterRun == deleteAfterRun && job.events == [] && job.born == Item(job.Value(), true)
      && PointsAtItsTime(job.Value())
      && job.nextRun == ComputeNextRun(eval, schedule, job.updatedAt)
    }

    method Append(job: CronJob)
      requires Valid() && job !in known && job.listed && job.Consistent(eval) && job.events == []
      requires forall j | j in known :: j.id != job.id
      modifies this`jobs, this`known
      ensures Valid() && jobs == old(jobs) + [job] && known == old(known) + {job}
    {
      jobs := jobs + [job];
      known := known + {job};
      forall j | j in known ensures Tracks(j) {
        if j != job {
          assert old(Tracks(j));
        }
      }
    }

    /** On a failed save the job is gone all the same. */
    method RemoveJob(id: string, saved: bool) returns (removed: bool, ok: bool)
      requires Valid()
      modifies this`jobs, this`clock, this`armed, this`armedAt, known`listed, known`events
      ensures Valid() && jobs == Without(old(jobs), id)
      ensures removed <==> saved && exists j | j in old(jobs) :: j.id == id
      ensures ok <==> saved || forall j | j in old(jobs) :: j.id != id
      ensures removed ==> ArmedSince(old(clock))
      ensures saved && old(ArmedInTime()) ==> ArmedInTime()
      ensures forall j | j in known :: j.LeftIf(j in old(jobs) && j.id == id, old(j.events), old(clock))
    {
      var before := |jobs|;
      WithoutStaysDistinct(jobs, id);
      Filter(id);
      removed, ok := |jobs| < before, true;
      if removed {
        if !saved {
          return false, false;
        }
        Arm();
      } else {
        StaysInTime();
      }
    }

    method Filter(id: string)
      requires Valid()
      modifies this`jobs, known`listed, known`events
      ensures Valid() && jobs == Without(old(jobs), id) && forall j | j in jobs :: j in old(jobs)
      ensures forall j | j in known :: j.LeftIf(j in old(jobs) && j.id == id, old(j.events), clock)
    {
      ghost var before := jobs;
      WithoutStaysDistinct(jobs, id);
      forall j | j in known ensures Tracks(j) {
      }
      jobs := FilterJobs(jobs, id);
      Unlist(before, id);
    }

    ghost method Unlist(before: seq<CronJob>, id: string)
      requires jobs == Without(before, id) && Distinct(jobs)
      requires forall j | j in before || j in deferred :: j in known
      requires forall a, b | a in known && b in known && a.id == b.id :: a == b
      requires forall j | j in known :: j.Consistent(eval) && j.QuietSince(clock) && (j.listed <==> j in before)
      modifies known`listed, known`events
      ensures Sound() && forall j | j in jobs :: j in before
      ensures forall j | j in known :: j.LeftIf(j in before && j.id == id, old(j.events), clock)
    {
      if job :| job in before && job.id == id {
        job.Leave(eval, clock);
      }
      forall j ensures j in jobs <==> j in before && j.id != id {
        WithoutKeeps(before, id, j);
      }
    }

    /** A bad timezone or a failed save reports an error; the first changes no schedule, the second does. */
    method UpdateJob(id: string, knownZone: string -> bool, schedule: Option<Schedule>, wakeMode: Option<WakeMode>, saved: bool)
      returns (job: CronJob?, ok: bool, ghost at: int)
      requires Valid()
      modifies this`clock, this`armed, this`armedAt, known
      ensures Valid()
      ensures job != null ==> ok && job in jobs && job.id == id && ArmedSince(old(clock))
      ensures saved && old(ArmedInTime()) ==> ArmedInTime()
      ensures job == null && ok ==> forall j | j in jobs :: j.id != id
      ensures !ok ==> Rejected(knownZone, schedule) || !saved
      ensures old(clock) <= at <= clock
      ensures forall j | j in known && !(j in jobs && j.id == id && !Rejected(knownZone, schedule)) :: unchanged(j)
      ensures forall j | j in jobs && j.id == id && !Rejected(knownZone, schedule) ::
                j.events == old(j.events) + [UpdateEvent(schedule, j.wakeMode, at, j.updatedAt)]
      ensures forall j | j in jobs && j.id == id && !Rejected(knownZone, schedule) ::
                IsUpdated(j, schedule, wakeMode, old(j.Value()), at)
      ensures forall j | j in jobs && j.id == id && !Rejected(knownZone, schedule) ::
                && j.enabled == old(j.enabled) && j.wakeMode == wakeMode.GetOr(old(j.wakeMode))
                && (schedule.None? ==> j.schedule == old(j.schedule) && j.nextRun == old(j.nextRun))
                && (schedule.Some? ==> j.schedule == schedule.value && WaitsFrom(eval, j.Value(), at))
    {
      at := clock;
      var found := Find(id);
      if found == null {
        return null, true, at;
      }
      if schedule.Some? {
        ok := ValidateScheduleForAdd(knownZone, schedule);
        if !ok {
          return null, false, at;
        }
      }
      at := UpdateOne(found, schedule, wakeMode);
      if !saved {
        return null, false, at;
      }
      Arm();
      job, ok := found, true;
    }

    /** The schedule is replaced and its next run set anew, also on a disabled job, which stays disabled. */
    ghost predicate IsUpdated(job: CronJob, schedule: Option<Schedule>, wakeMode: Option<WakeMode>, before: Job, at: int)
      reads job
    {
      && job.enabled == before.enabled && job.schedule == schedule.GetOr(before.schedule)
      && job.wakeMode == wakeMode.GetOr(before.wakeMode)
      && (schedule.None? ==> job.nextRun == before.nextRun)
      && (schedule.Some? ==> at <= job.updatedAt && WaitsFrom(eval, job.Value(), at))
    }

    method UpdateOne(job: CronJob, schedule: Option<Schedule>, wakeMode: Option<WakeMode>) returns (at: int)
      requires Valid() && job in jobs
      modifies this`clock, job
      ensures Valid() && IsUpdated(job, schedule, wakeMode, old(job.Value()), at) && old(clock) <= at <= clock
      ensures job.events == old(job.events) + [UpdateEvent(schedule, job.wakeMode, at, job.updatedAt)]
    {
      at := clock;
      if schedule.Some? {
        at := NowMs();
      }
      var done := NowMs();
      assert Tracks(job) && job.QuietSince(at) by {
        assert old(Tracks(job));
      }
      label read:
      job.Update(eval, schedule, wakeMode, at, done);
      forall j | j in known ensures Tracks(j) {
        if j != job {
          assert old@read(Tracks(j));
        }
      }
    }

    method EnableJob(id: string, enabled: bool, saved: bool) returns (job: CronJob?, ok: bool, ghost at: int)
      requires Valid()
      modifies this`clock, this`armed, this`armedAt, known
      ensures Valid()
      ensures job != null ==> ok && job in jobs && job.id == id && ArmedSince(old(clock))
      ensures saved && old(ArmedInTime()) ==> ArmedInTime()
      ensures job == null && ok ==> forall j | j in jobs :: j.id != id
      ensures !ok ==> !saved
      ensures forall j | j in known && !(j in jobs && j.id == id) :: unchanged(j)
      ensures forall j | j in jobs && j.id == id ::
                j.events == old(j.events) + [if enabled then Enable(j.updatedAt, at) else Disable(j.updatedAt)]
      ensures old(clock) <= at <= clock
      ensures forall j | j in jobs && j.id == id ::
                && j.enabled == enabled && j.schedule == old(j.schedule) && PointsAtItsTime(j.Value())
                && (enabled ==> WaitsFrom(eval, j.Value(), at)) && (!enabled ==> j.nextRun == 0)
    {
      at := clock;
      var found := Find(id);
      if found == null {
        return null, true, at;
      }
      var done := NowMs();
      var read := done;
      if enabled {
        read := NowMs();
      }
      at := read;
      SwitchOne(found, enabled, done, read);
      if !saved {
        return null, false, at;
      }
      Arm();
      job, ok := found, true;
    }

    method SwitchOne(job: CronJob, on: bool, done: int, at: int)
      requires Valid() && job in jobs && job.QuietSince(done) && done <= at <= clock
      modifies job`enabled, job`updatedAt, job`nextRun, job`events
      ensures Valid() && job.enabled == on && job.updatedAt == done && PointsAtItsTime(job.Value())
      ensures job.events == old(job.events) + [if on then Enable(done, at) else Disable(done)]
      ensures job.nextRun == if on then ComputeNextRun(eval, job.schedule, at) else 0
    {
      assert Tracks(job);
      job.Switch(eval, on, done, at);
      forall j | j in known ensures Tracks(j) {
        if j != job {
          assert old(Tracks(j));
        }
      }
    }

    /** Runs a job by hand; `force` also runs a disabled one. The timer is armed even when nothing was due. */
    method RunJob(id: string, force: bool, saved: bool) returns (ran: bool, ok: bool)
      requires Valid()
      modifies this`jobs, this`called, this`clock, this`armed, this`armedAt, known
      ensures Valid()
      ensures ran <==> exists j | j in old(jobs) :: j.id == id && (force || old(j.enabled))
      ensures ok <==> !ran || saved
      ensures if ran then exists j | j in old(jobs) :: j.id == id && called == old(called) + Calls([j]) else called == old(called)
      ensures ran && ok ==> ArmedSince(old(clock))
      ensures saved && old(ArmedInTime()) ==> ArmedInTime()
      ensures ran ==> forall j | j in old(jobs) && j.id == id ::
                |j.events| == |old(j.events)| + 1 && j.events[..|old(j.events)|] == old(j.events)
                && j.events[|old(j.events)|].RunByHand?
      ensures ran ==> forall j | j in old(jobs) && j.id == id ::
                RanOnce(j.events, old(j.events), None, old(clock), clock, StatusAfter(old(j.status), |old(called)|))
      ensures forall j | j in known && !(ran && j in old(jobs) && j.id == id) :: unchanged(j)
    {
      var found := Find(id);
      if found == null || (!force && !found.enabled) {
        return false, true;
      }
      ExecuteJob(found, None);
      if !saved {
        return true, false;
      }
      Arm();
      ran, ok := true, true;
    }
  }

  function UpdateEvent(schedule: Option<Schedule>, wakeMode: WakeMode, at: int, done: int): Event {
    if schedule.Some? then Reschedule(at, done, schedule.value, wakeMode) else Touch(done, wakeMode)
  }

  function Updated(eval: Evaluator, job: Job, schedule: Option<Schedule>, wakeMode: WakeMode, at: int, done: int): Job {
    var timed := if schedule.None? then job
                 else job.(schedule := schedule.value, nextRun := ComputeNextRun(eval, schedule.value, at));
    timed.(wakeMode := wakeMode, updatedAt := done)
  }

  lemma UpdateIsStep(eval: Evaluator, item: Item, schedule: Option<Schedule>, wakeMode: WakeMode, at: int, done: int)
    requires at <= done
    ensures var e := UpdateEvent(schedule, wakeMode, at, done);
      && Step(eval, item, e) == Item(Updated(eval, item.job, schedule, wakeMode, at, done), item.listed)
      && ReadInOrder(e) && at <= First(e) && Last(e) == done
  {
  }

  function RunEvent(due: Option<int>, start: int, done: int, again: int, status: Status): Event {
    match due
    case None => RunByHand(start, done, again, status)
    case Some(now) => Fire(now, start, done, again, status)
  }

  lemma RunEventRuns(eval: Evaluator, item: Item, due: Option<int>, start: int, done: int, again: int, status: Status)
    requires item.listed && start <= done <= again
    requires due.Some? ==> due.value <= start && IsDue(item.job, due.value) && item.job.wakeMode.WakeNow?
    ensures var e := RunEvent(due, start, done, again, status);
      && Possible(item, e) && Step(eval, item, e) == Ran(eval, item, start, done, again, status)
      && First(e) == due.GetOr(start) && Last(e) == again && IsRunEvent(e, due)
  {
  }

  predicate Delivered(events: seq<Event>, before: seq<Event>, from: int, until: int, status: Status) {
    && |events| == |before| + 1 && events[..|before|] == before
    && var e := events[|before|]; e.Flush? && from <= e.start && e.done <= until && e.status == status
  }

  /** One more run, by hand or when due, that read the clock in between and left the given status. */
  predicate RanOnce(events: seq<Event>, before: seq<Event>, due: Option<int>, from: int, until: int, status: Status) {
    && |events| == |before| + 1 && events[..|before|] == before
    && var e := events[|before|];
       IsRunEvent(e, due) && (e.Fire? || e.RunByHand?) && from <= e.start && e.again <= until && e.status == status
  }

  predicate IsRunEvent(e: Event, due: Option<int>) {
    match due
    case None => e.RunByHand?
    case Some(now) => e.Fire? && e.now == now
  }

  function Outcome(error: Option<string>): Status {
    match error
    case None => OkStatus
    case Some(text) => ErrorStatus(text)
  }

  lemma NextRunIsLaterIf(eval: Evaluator, schedule: Schedule, now: int)
    ensures LooksAhead(eval) ==> ComputeNextRun(eval, schedule, now) == 0 || ComputeNextRun(eval, schedule, now) > now
  {
    if LooksAhead(eval) {
      NextRunIsLater(eval, schedule, now);
    }
  }
}
