/** How many executions of one job run at a time. The limiter is made anew at every
    registration, so that the job's maximum holds per registration; across registrations it
    holds as long as none happens while the job is running. */
module SchedulerLimits {
  import opened Common
  import opened Schedulers

  function RunningOf(flights: map<ExecutionId, Flight>, job: string): set<ExecutionId> {
    set id | id in flights && flights[id].base.jobId == job
  }

  function MaximumOf(s: State, job: string): nat
    requires job in s.registry
  {
    Max(s.registry[job].maxConcurrency.GetOr(1), 0)
  }

  predicate Exceeds(s: State, job: string) {
    job in s.registry && |RunningOf(s.flights, job)| > MaximumOf(s, job)
  }

  /** While the job is registered, its running executions were all started under the
      limiter of that registration. */
  ghost predicate OneLimiter(s: State, job: string) {
    job in s.registry && job in s.limiterOf ==>
      forall id :: id in RunningOf(s.flights, job) ==> s.flights[id].limiter == Some(s.limiterOf[job])
  }

  predicate RegistersWhileRunning(s: State, step: Step, job: string) {
    step.Register? && step.registration.jobId == job && job !in s.registry && RunningOf(s.flights, job) != {}
  }

  lemma OneLimiterBounds(s: State, job: string)
    requires Inv(s) && OneLimiter(s, job)
    ensures !Exceeds(s, job)
  {
    if job in s.registry {
      hide StatsInv, HistoryInv, RetriesInv, FlightInv;
      var l := s.limiterOf[job];
      assert LimiterCounts(s.limiters[l], s.flights, l, job);
      assert RunningOf(s.flights, job) == StartedUnder(s.flights, l, job);
      hide RunningOf, StartedUnder, LimiterInv, OneLimiter;
    }
  }

  /** An execution that goes on, or a new one, with the limiter it is given. */
  lemma PutFlight(s: State, id: ExecutionId, f: Flight, job: string)
    requires OneLimiter(s, job)
    requires f.base.jobId == job && job in s.registry && job in s.limiterOf ==> f.limiter == Some(s.limiterOf[job])
    ensures OneLimiter(s.(flights := s.flights[id := f]), job)
  {
    forall other | other in RunningOf(s.flights[id := f], job) && other != id
      ensures other in RunningOf(s.flights, job)
    {
    }
  }

  /** The flights alone matter, and the limiter of the job. */
  lemma SameFlights(s: State, t: State, job: string)
    requires OneLimiter(s, job)
    requires forall id :: id in t.flights ==> id in s.flights && t.flights[id] == s.flights[id]
    requires job in t.registry && job in t.limiterOf ==>
             (job in s.registry && job in s.limiterOf && s.limiterOf[job] == t.limiterOf[job]) ||
             RunningOf(t.flights, job) == {}
    ensures OneLimiter(t, job)
  {
    forall id | id in RunningOf(t.flights, job) ensures id in RunningOf(s.flights, job) {
    }
  }

  lemma TriggerKeepsOneLimiter(s: State, jobId: string, now: int, job: string)
    requires RegistryInv(s) && OneLimiter(s, job) && jobId in s.registry && !Limited(s, jobId)
    ensures OneLimiter(DoTrigger(s, jobId, now), job)
  {
    var reg := s.registry[jobId];
    var id := ExecutionId(s.idCounter + 1, now);
    var base := RunningRecord(reg, id, now);
    LaunchKeepsRetries(base, LimiterFor(s, jobId), reg);
    var f := Launch(base, LimiterFor(s, jobId), reg);
    var after := DoTrigger(s, jobId, now);
    assert after.flights == s.flights[id := f] && after.registry == s.registry && after.limiterOf == s.limiterOf;
    hide Launch, RetryInv, DoTrigger;
    PutFlight(s, id, f, job);
    SameFlights(s.(flights := s.flights[id := f]), after, job);
  }

  lemma MovedFlightKeepsOneLimiter(s: State, id: ExecutionId, f: Flight, job: string)
    requires OneLimiter(s, job) && id in s.flights
    requires f.base == s.flights[id].base && f.limiter == s.flights[id].limiter
    ensures OneLimiter(s.(flights := s.flights[id := f]), job)
  {
    assert f.base.jobId == job ==> id in RunningOf(s.flights, job);
    PutFlight(s, id, f, job);
  }

  lemma StepKeepsOneLimiter(s: State, step: Step, job: string)
    requires Inv(s) && OneLimiter(s, job) && !RegistersWhileRunning(s, step, job)
    ensures OneLimiter(Next(s, step), job)
  {
    hide StatsInv, HistoryInv, RetriesInv, FlightInv, LimiterInv, OneLimiter, AfterAttempt, AfterDelay, DoTrigger;
    hide Limited;
    match step
    case Trigger(jobId, now) =>
      if jobId in s.registry && !Limited(s, jobId) { TriggerKeepsOneLimiter(s, jobId, now, job); }
    case AttemptEnds(id, failure) =>
      if id in s.flights && s.flights[id].phase.Calling? {
        AttemptChangesOnlyThePhase(s.flights[id], failure);
        MovedFlightKeepsOneLimiter(s, id, AfterAttempt(s.flights[id], failure), job);
      }
    case DelayEnds(id, failure) =>
      if id in s.flights && s.flights[id].phase.Waiting? {
        DelayChangesOnlyThePhase(s.flights[id], failure);
        MovedFlightKeepsOneLimiter(s, id, AfterDelay(s.flights[id], failure), job);
      }
    case _ => SameFlights(s, Next(s, step), job);
  }

  ghost predicate NeverRegistersWhileRunning(steps: seq<Step>, job: string) {
    forall k :: 0 <= k < |steps| ==> !RegistersWhileRunning(Run(START, steps[..k]), steps[k], job)
  }

  lemma {:induction false} RunKeepsOneLimiter(steps: seq<Step>, job: string)
    requires NeverRegistersWhileRunning(steps, job)
    ensures OneLimiter(Run(START, steps), job)
    decreases |steps|
  {
    if steps != [] {
      var init := steps[..|steps| - 1];
      forall k | 0 <= k < |init| ensures !RegistersWhileRunning(Run(START, init[..k]), init[k], job) {
        assert init[..k] == steps[..k];
      }
      hide Next, OneLimiter, RegistersWhileRunning;
      RunKeepsOneLimiter(init, job);
      EveryReachableStateIsConsistent(init);
      StepKeepsOneLimiter(Run(START, init), steps[|steps| - 1], job);
    }
  }

  /** In every run that registers a job only while no execution of it is unfinished, no more
      than its maximum run at a time. */
  lemma NoMoreThanTheMaximum(steps: seq<Step>, job: string)
    requires NeverRegistersWhileRunning(steps, job)
    ensures !Exceeds(Run(START, steps), job)
  {
    RunKeepsOneLimiter(steps, job);
    EveryReachableStateIsConsistent(steps);
    OneLimiterBounds(Run(START, steps), job);
  }

  // ------------------------------------------------------------------
  // Registering while running
  // ------------------------------------------------------------------

  /** The limiter of the job's registration counts `k` executions. */
  ghost predicate Counts(s: State, job: string, k: int) {
    job in s.registry && job in s.limiterOf && s.limiterOf[job] < |s.limiters| &&
    CountOf(s.limiters[s.limiterOf[job]], job) == k
  }

  lemma RunSnoc(steps: seq<Step>, last: Step)
    ensures Run(START, steps + [last]) == Next(Run(START, steps), last)
  {
    assert (steps + [last])[..|steps|] == steps;
  }

  lemma NotLimited(s: State, job: string, k: int)
    requires RegistryInv(s) && Counts(s, job, k) && 0 <= k < MaximumOf(s, job)
    ensures !Limited(s, job)
  {
  }

  lemma OneMoreRunning(flights: map<ExecutionId, Flight>, id: ExecutionId, f: Flight, job: string)
    requires id !in flights && f.base.jobId == job
    ensures |RunningOf(flights[id := f], job)| == |RunningOf(flights, job)| + 1
  {
    assert RunningOf(flights[id := f], job) == RunningOf(flights, job) + {id};
  }

  lemma TriggeredFlights(s: State, job: string, now: int)
    requires RegistryInv(s) && job in s.registry && !Limited(s, job)
    requires ExecutionId(s.idCounter + 1, now) !in s.flights
    ensures |RunningOf(DoTrigger(s, job, now).flights, job)| == |RunningOf(s.flights, job)| + 1
  {
    hide Launch, RetryInv, Limited, RunningOf, AcquireAt;
    var reg := s.registry[job];
    var id := ExecutionId(s.idCounter + 1, now);
    var base := RunningRecord(reg, id, now);
    LaunchKeepsRetries(base, LimiterFor(s, job), reg);
    OneMoreRunning(s.flights, id, Launch(base, LimiterFor(s, job), reg), job);
  }

  lemma TriggeredCounts(s: State, job: string, now: int, k: int)
    requires Counts(s, job, k) && !Limited(s, job)
    ensures Counts(DoTrigger(s, job, now), job, k + 1) && DoTrigger(s, job, now).registry == s.registry
  {
    hide Launch;
  }

  lemma FreshId(s: State, now: int)
    requires Inv(s)
    ensures ExecutionId(s.idCounter + 1, now) !in s.flights
  {
    hide StatsInv, HistoryInv, RetriesInv, LimiterInv, FlightInv, RegistryInv;
    var id := ExecutionId(s.idCounter + 1, now);
    assert id !in s.records;
    if id in s.flights {
      FlightIsRunning(s.records, s.flights, id);
      assert false;
    }
  }

  lemma TriggerAddsOne(s: State, job: string, now: int, k: int)
    requires Inv(s) && Counts(s, job, k) && 0 <= k < MaximumOf(s, job)
    ensures var after := Next(s, Trigger(job, now));
            Counts(after, job, k + 1) && after.registry == s.registry &&
            |RunningOf(after.flights, job)| == |RunningOf(s.flights, job)| + 1
  {
    hide StatsInv, HistoryInv, RetriesInv, LimiterInv, FlightInv, RegistryInv, DoTrigger, RunningOf, Limited;
    FreshId(s, now);
    NotLimited(s, job, k);
    TriggeredFlights(s, job, now);
    TriggeredCounts(s, job, now, k);
  }

  function Triggers(job: string, n: nat): seq<Step> {
    if n == 0 then [] else Triggers(job, n - 1) + [Trigger(job, 0)]
  }

  lemma SameMaximum(s: State, t: State, job: string)
    requires s.registry == t.registry && job in s.registry
    ensures MaximumOf(s, job) == MaximumOf(t, job)
  {
  }

  lemma OneMoreTrigger(steps: seq<Step>, job: string, k: nat)
    requires Counts(Run(START, steps), job, k) && job in Run(START, steps).registry
    requires k < MaximumOf(Run(START, steps), job)
    ensures var s, after := Run(START, steps), Run(START, steps + [Trigger(job, 0)]);
            Counts(after, job, k + 1) && after.registry == s.registry &&
            |RunningOf(after.flights, job)| == |RunningOf(s.flights, job)| + 1
  {
    hide *;
    EveryReachableStateIsConsistent(steps);
    TriggerAddsOne(Run(START, steps), job, 0, k);
    RunSnoc(steps, Trigger(job, 0));
  }

  lemma {:induction false} TriggersAdd(steps: seq<Step>, job: string, n: nat)
    requires job in Run(START, steps).registry
    requires Counts(Run(START, steps), job, 0) && n <= MaximumOf(Run(START, steps), job)
    ensures var s := Run(START, steps + Triggers(job, n));
            Counts(s, job, n) && s.registry == Run(START, steps).registry &&
            |RunningOf(s.flights, job)| == |RunningOf(Run(START, steps).flights, job)| + n
    decreases n
  {
    if n == 0 {
      assert steps + [] == steps;
      hide Run, Counts, RunningOf;
    } else {
      var before := steps + Triggers(job, n - 1);
      assert steps + Triggers(job, n) == before + [Trigger(job, 0)];
      hide *;
      TriggersAdd(steps, job, n - 1);
      SameMaximum(Run(START, before), Run(START, steps), job);
      OneMoreTrigger(before, job, n - 1);
    }
  }

  lemma RegisteredAnew(steps: seq<Step>, reg: Registration)
    requires reg.jobId !in Run(START, steps).registry
    ensures var s, after := Run(START, steps), Run(START, steps + [Register(reg)]);
            Counts(after, reg.jobId, 0) && after.flights == s.flights &&
            MaximumOf(after, reg.jobId) == Max(reg.maxConcurrency.GetOr(1), 0)
  {
    assert (steps + [Register(reg)])[..|steps|] == steps;
  }

  ghost predicate NoRegistration(steps: seq<Step>, job: string) {
    forall k :: 0 <= k < |steps| ==> !(steps[k].Register? && steps[k].registration.jobId == job)
  }

  lemma {:induction false} OneLimiterLasts(steps: seq<Step>, more: seq<Step>, job: string)
    requires OneLimiter(Run(START, steps), job) && NoRegistration(more, job)
    ensures OneLimiter(Run(START, steps + more), job)
    decreases |more|
  {
    if more == [] {
      assert steps + more == steps;
    } else {
      var init, last := more[..|more| - 1], more[|more| - 1];
      assert NoRegistration(init, job) && !(last.Register? && last.registration.jobId == job);
      assert steps + more == steps + init + [last];
      assert !RegistersWhileRunning(Run(START, steps + init), last, job);
      hide *;
      OneLimiterLasts(steps, init, job);
      EveryReachableStateIsConsistent(steps + init);
      StepKeepsOneLimiter(Run(START, steps + init), last, job);
      RunSnoc(steps + init, last);
    }
  }

  lemma {:induction false} NoTriggerRegisters(job: string, n: nat)
    ensures NoRegistration(Triggers(job, n), job)
    decreases n
  {
    if n > 0 {
      NoTriggerRegisters(job, n - 1);
    }
  }

  /** After any run, registering a job lets its executions exceed its maximum, at some point
      before it is registered once more, exactly when some are unfinished at that moment. */
  lemma MaximumCanBeExceededExactlyWhen(steps: seq<Step>, reg: Registration)
    requires reg.jobId !in Run(START, steps).registry
    ensures (exists more :: NoRegistration(more, reg.jobId) &&
                            Exceeds(Run(START, steps + [Register(reg)] + more), reg.jobId))
       <==> RunningOf(Run(START, steps).flights, reg.jobId) != {}
  {
    var s, job := Run(START, steps), reg.jobId;
    var registered := steps + [Register(reg)];
    RegisteredAnew(steps, reg);
    if RunningOf(s.flights, job) == {} {
      forall more | NoRegistration(more, job) ensures !Exceeds(Run(START, registered + more), job) {
        OneLimiterLasts(registered, more, job);
        EveryReachableStateIsConsistent(registered + more);
        OneLimiterBounds(Run(START, registered + more), job);
      }
    } else {
      var n := MaximumOf(Run(START, registered), job);
      TriggersAdd(registered, job, n);
      NoTriggerRegisters(job, n);
      hide Run, Triggers;
      assert Exceeds(Run(START, registered + Triggers(job, n)), job);
    }
  }
}
