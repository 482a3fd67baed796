/** The scheduler's objects, each method proved to be the step of `Schedulers` it
    stands for. A suspended `run` names the limiter object it captured by that
    object's place in `pool`, the list of all limiters created so far. */
module SchedulerObjects {
  import opened Common
  import opened Schedulers

  class ConcurrencyLimiter {
    const maxConcurrency: int
    var counts: map<string, int>

    ghost function Model(): Limiter
      reads this
    {
      Limiter(maxConcurrency, counts)
    }

    constructor (maxConcurrency: int)
      ensures Model() == Limiter(maxConcurrency, map[])
    {
      this.maxConcurrency := maxConcurrency;
      counts := map[];
    }

    method GetCount(key: string) returns (n: int)
      ensures n == CountOf(Model(), key)
    {
      n := if key in counts then counts[key] else 0;
    }

    method Allows(key: string) returns (allowed: bool)
      ensures allowed <==> IsAllowed(Model(), key)
    {
      var n := GetCount(key);
      return n < maxConcurrency;
    }

    method AcquireFor(key: string)
      modifies this
      ensures Model() == Acquire(old(Model()), key)
    {
      var n := GetCount(key);
      counts := counts[key := n + 1];
    }

    method ReleaseFor(key: string)
      modifies this
      ensures Model() == Release(old(Model()), key)
    {
      var n := GetCount(key);
      if n > 0 {
        counts := counts[key := n - 1];
      }
    }

    method Reset()
      modifies this
      ensures Model() == Limiter(maxConcurrency, map[])
    {
      counts := map[];
    }
  }

  // ------------------------------------------------------------------
  // The retry loop of one execution
  // ------------------------------------------------------------------

  /** How each attempt and each delay of a run ends, by its number: None when it does well. */
  datatype Course = Course(job: nat -> Option<string>, delay: nat -> Option<string>)

  function Settle(f: Flight, course: Course): Flight
    requires f.phase.Calling? && f.phase.attempt <= f.maxRetries
    decreases f.maxRetries - f.phase.attempt
  {
    var n := f.phase.attempt + 1;
    var g := AfterAttempt(f, course.job(n));
    if !g.phase.Waiting? then g
    else
      var h := AfterDelay(g, course.delay(n));
      if h.phase.Calling? then Settle(h, course) else h
  }

  ghost predicate FailsAndWaits(course: Course, from: nat, to: nat) {
    forall n :: from <= n < to ==> course.job(n).Some? && course.delay(n).None?
  }

  /** A run returns exactly when a permitted attempt succeeds before any delay has rejected;
      otherwise it reports the delay that rejected, or the last attempt's failure. */
  lemma {:induction false} SettleOutcome(f: Flight, course: Course)
    requires RetryInv(f) && f.phase.Calling?
    ensures var g := Settle(f, course);
            RetryInv(g) && f.calls <= g.calls <= f.maxRetries + 1 && g.maxRetries == f.maxRetries &&
            FailsAndWaits(course, f.calls, g.calls) &&
            match g.phase
            case Returned => course.job(g.calls).None?
            case Thrown(reason) =>
              course.job(g.calls).Some? &&
              Some(reason) == if g.calls <= f.maxRetries then course.delay(g.calls) else course.job(g.calls)
            case _ => false
    decreases f.maxRetries - f.phase.attempt
  {
    var n := f.phase.attempt + 1;
    AttemptKeepsRetries(f, course.job(n));
    var g := AfterAttempt(f, course.job(n));
    hide TotalBackoff;
    if g.phase.Waiting? {
      DelayKeepsRetries(g, course.delay(n));
      if course.delay(n).None? {
        SettleOutcome(AfterDelay(g, course.delay(n)), course);
      }
    }
  }

  /** The delay after the attempt of that number, from 0. */
  function DelayAfter(backoffMs: real, attempt: nat): real {
    backoffMs * Pow2(attempt) as real
  }

  ghost predicate DelaysDouble(delays: seq<real>, backoffMs: real) {
    forall i :: 0 <= i < |delays| ==> delays[i] == DelayAfter(backoffMs, i)
  }

  /** Before attempt `f.phase.attempt + 1`, with as many delays behind it. */
  ghost predicate Underway(f: Flight, delays: seq<real>, start: Flight, course: Course)
    requires start.phase.Calling? && start.phase.attempt <= start.maxRetries
  {
    f.phase.Calling? && f.phase.attempt <= f.maxRetries && f.maxRetries == start.maxRetries &&
    f.backoffMs == start.backoffMs && f.calls == f.phase.attempt + 1 && |delays| == f.phase.attempt &&
    Settle(f, course) == Settle(start, course) && DelaysDouble(delays, start.backoffMs)
  }

  lemma NextUnderway(f: Flight, delays: seq<real>, start: Flight, course: Course)
    requires start.phase.Calling? && start.phase.attempt <= start.maxRetries
    requires Underway(f, delays, start, course)
    ensures var attempt := f.phase.attempt;
            var g := AfterAttempt(f, course.job(attempt + 1));
            var more := delays + [DelayAfter(f.backoffMs, attempt)];
            if !g.phase.Waiting? then g == Settle(start, course) && |delays| == DelaysOf(g)
            else
              var h := AfterDelay(g, course.delay(attempt + 1));
              DelaysDouble(more, start.backoffMs) &&
              if h.phase.Calling? then Underway(h, more, start, course)
              else h == Settle(start, course) && |more| == DelaysOf(h)
  {
    hide DelayAfter;
  }

  /** How many delays a settled run has asked for. */
  function DelaysOf(f: Flight): int {
    if f.phase.Thrown? && f.calls <= f.maxRetries then f.calls else f.calls - 1
  }

  /** The loop of `runWithRetries`, with the delays it asked for. */
  method Retry(start: Flight, course: Course) returns (f: Flight, delays: seq<real>)
    requires start.phase == Calling(0) && start.calls == 1 && start.maxRetries >= 0
    ensures f == Settle(start, course) && |delays| == DelaysOf(f) && DelaysDouble(delays, start.backoffMs)
  {
    f, delays := start, [];
    while true
      invariant Underway(f, delays, start, course)
      decreases f.maxRetries - f.phase.attempt
    {
      NextUnderway(f, delays, start, course);
      hide Underway, Settle, DelayAfter, DelaysDouble;
      var attempt := f.phase.attempt;
      var g := AfterAttempt(f, course.job(attempt + 1));
      if !g.phase.Waiting? {
        f := g;
        return;
      }
      delays := delays + [DelayAfter(f.backoffMs, attempt)];
      f := AfterDelay(g, course.delay(attempt + 1));
      if !f.phase.Calling? {
        return;
      }
    }
  }

  /** `runWithRetries`: a negative `maxRetries` never enters the loop. */
  method RunWithRetries(base: Record, limiter: Option<nat>, reg: Registration, course: Course)
    returns (f: Flight, delays: seq<real>)
    ensures reg.maxRetries.GetOr(0) < 0 ==> f == Launch(base, limiter, reg) && f.calls == 0 && delays == []
    ensures reg.maxRetries.GetOr(0) >= 0 ==>
      f == Settle(Launch(base, limiter, reg), course) && |delays| == DelaysOf(f)
    ensures DelaysDouble(delays, reg.retryBackoffMs.GetOr(100.0))
  {
    f := Launch(base, limiter, reg);
    delays := [];
    if reg.maxRetries.GetOr(0) >= 0 {
      f, delays := Retry(f, course);
    }
  }

  // ------------------------------------------------------------------
  // The scheduler
  // ------------------------------------------------------------------

  datatype TriggerResult = Started(id: ExecutionId) | JobNotFound | ConcurrencyLimit(max: int)

  class InMemoryScheduler {
    var registry: map<string, Registration>
    var limiterOf: map<string, nat>
    var pool: seq<ConcurrencyLimiter>
    var records: map<ExecutionId, Record>
    var history: map<string, seq<ExecutionId>>
    var stats: Stats
    var idCounter: nat
    var flights: map<ExecutionId, Flight>

    ghost predicate Valid()
      reads this
    {
      (forall i, j :: 0 <= i < j < |pool| ==> pool[i] != pool[j]) &&
      (forall job :: job in registry ==> registry[job].jobId == job) &&
      (forall job :: job in limiterOf ==> limiterOf[job] < |pool|) &&
      (forall id :: id in flights && flights[id].limiter.Some? ==> flights[id].limiter.value < |pool|)
    }

    ghost function Limiters(): seq<Limiter>
      reads this, pool
    {
      seq(|pool|, i requires 0 <= i < |pool| reads this, pool => pool[i].Model())
    }

    ghost function Model(): State
      reads this, pool
    {
      State(registry, limiterOf, Limiters(), records, history, stats, idCounter, flights)
    }

    constructor ()
      ensures Valid() && Model() == START
    {
      registry, limiterOf, pool := map[], map[], [];
      records, history, stats := map[], map[], Stats(0, 0, 0, 0);
      idCounter, flights := 0, map[];
    }

    method RegisterJob(reg: Registration) returns (ok: bool)
      requires Valid()
      modifies this
      ensures Valid() && Model() == Next(old(Model()), Register(reg))
      ensures ok <==> reg.jobId !in old(registry)
      ensures !ok ==> Model() == old(Model())
      ensures ok ==> registry == old(registry)[reg.jobId := reg]
    {
      if reg.jobId in registry {
        return false;
      }
      registry := registry[reg.jobId := reg];
      var limiter := new ConcurrencyLimiter(reg.maxConcurrency.GetOr(1));
      limiterOf := limiterOf[reg.jobId := |pool|];
      pool := pool + [limiter];
      assert Limiters() == old(Limiters()) + [limiter.Model()];
      return true;
    }

    method UnregisterJob(jobId: string) returns (ok: bool)
      requires Valid()
      modifies this
      ensures Valid() && Model() == Next(old(Model()), Unregister(jobId))
      ensures ok <==> jobId in old(registry)
      ensures if ok then registry == old(registry) - {jobId} && limiterOf == old(limiterOf) - {jobId}
              else Model() == old(Model())
    {
      if jobId !in registry {
        return false;
      }
      registry := registry - {jobId};
      limiterOf := limiterOf - {jobId};
      return true;
    }

    /** The limiter part of `trigger`: check, then acquire. */
    method TakeSlot(jobId: string) returns (captured: Option<nat>, allowed: bool)
      requires Valid()
      modifies pool
      ensures captured == LimiterFor(old(Model()), jobId)
      ensures allowed <==> !Limited(old(Model()), jobId)
      ensures Limiters() == if allowed then AcquireAt(old(Limiters()), captured, jobId)
                            else old(Limiters())
    {
      if jobId !in limiterOf {
        return None, true;
      }
      var limiter := pool[limiterOf[jobId]];
      captured := Some(limiterOf[jobId]);
      allowed := limiter.Allows(jobId);
      if allowed {
        limiter.AcquireFor(jobId);
      }
      assert Limiters() == if allowed then AcquireAt(old(Limiters()), captured, jobId)
                           else old(Limiters());
    }

    /** The code of `trigger` and `run` up to the first await. */
    method TriggerJob(jobId: string, now: int) returns (r: TriggerResult)
      requires Valid()
      modifies this, pool
      ensures Valid() && pool == old(pool) && Model() == Next(old(Model()), Trigger(jobId, now))
      ensures r == if jobId !in old(registry) then JobNotFound
                   else if Limited(old(Model()), jobId)
                   then ConcurrencyLimit(old(registry)[jobId].maxConcurrency.GetOr(1))
                   else Started(ExecutionId(old(idCounter) + 1, now))
    {
      if jobId !in registry {
        return JobNotFound;
      }
      var reg := registry[jobId];
      var captured, allowed := TakeSlot(jobId);
      if !allowed {
        return ConcurrencyLimit(reg.maxConcurrency.GetOr(1));
      }
      r := Begin(reg, captured, now);
    }

    /** The bookkeeping of `trigger` once the limiter has been passed. */
    method Begin(reg: Registration, captured: Option<nat>, now: int) returns (r: TriggerResult)
      modifies this
      ensures r == Started(ExecutionId(old(idCounter) + 1, now))
      ensures registry == old(registry) && limiterOf == old(limiterOf) && pool == old(pool)
      ensures idCounter == old(idCounter) + 1
      ensures var base := RunningRecord(reg, r.id, now);
              records == old(records)[r.id := base] &&
              flights == old(flights)[r.id := Launch(base, captured, reg)]
      ensures history == old(history)[reg.jobId := HistoryOf(old(history), reg.jobId) + [r.id]]
      ensures stats == IncrementActive(old(stats))
    {
      var id := ExecutionId(idCounter + 1, now);
      var base := RunningRecord(reg, id, now);
      idCounter := idCounter + 1;
      records := records[id := base];
      history := history[reg.jobId := HistoryOf(history, reg.jobId) + [id]];
      stats := IncrementActive(stats);
      flights := flights[id := Launch(base, captured, reg)];
      return Started(id);
    }

    /** `finalize`: the code that runs once the retries have settled. */
    method FinalizeRun(id: ExecutionId, now: int) returns (done: Record)
      requires Valid() && ReadyToFinalize(Model(), id)
      modifies this, pool
      ensures Valid() && pool == old(pool) && Model() == Next(old(Model()), Finalize(id, now))
      ensures done == FinishedRecord(old(flights)[id].base, old(flights)[id].phase, now)
      ensures var f := old(flights)[id];
              done == records[id] && done.completedAtMs == Some(now) &&
              match f.phase
              case Thrown(reason) => done.status == Failed && done.failureReason == Some(reason)
              case _ => done.status == Succeeded && done.failureReason == f.base.failureReason
    {
      var f := flights[id];
      ghost var before := Limiters();
      done := FinishedRecord(f.base, f.phase, now);
      records := records[id := done];
      stats := DecrementActive(stats, done.status);
      match f.limiter {
        case Some(l) => pool[l].ReleaseFor(f.base.jobId);
        case None =>
      }
      assert Limiters() == ReleaseAt(before, f.limiter, f.base.jobId);
      hide ReleaseAt, FinishedRecord, DecrementActive;
      flights := flights - {id};
    }
  }
}
