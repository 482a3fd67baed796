/** The in-memory job scheduler as a system of atomic steps: each step is the code
    between two `await`s. Triggers, attempts, delays, finishes, registrations and
    removals interleave in any way. */
module Schedulers {
  import opened Common

  datatype Registration = Registration(
    jobId: string, jobName: string,
    maxConcurrency: Option<int>, maxRetries: Option<int>, retryBackoffMs: Option<real>)

  datatype Status = Running | Succeeded | Failed

  /** `exec-<counter>-<ms>`: the counter alone makes the id unique. */
  datatype ExecutionId = ExecutionId(counter: nat, ms: int)

  datatype Record = Record(
    jobId: string, jobName: string, id: ExecutionId, status: Status,
    scheduledAtMs: int, startedAtMs: int, completedAtMs: Option<int>,
    failureReason: Option<string>, attemptNumber: nat)

  datatype Stats = Stats(total: int, succeeded: int, failed: int, active: int)

  datatype Limiter = Limiter(maxConcurrency: int, counts: map<string, int>)

  /** Where a suspended `run` stands: awaiting the job, awaiting the backoff delay,
      or about to be finalized. */
  datatype Phase = Calling(attempt: nat) | Waiting(attempt: nat) | Returned | Thrown(reason: string)

  /** A suspended call of `run` with the limiter it captured; `calls` and `waitedMs`
      count the job's executions and the delay asked for so far. */
  datatype Flight = Flight(
    base: Record, limiter: Option<nat>, maxRetries: int, backoffMs: real,
    phase: Phase, calls: nat, waitedMs: real)

  datatype State = State(
    registry: map<string, Registration>,
    limiterOf: map<string, nat>,
    limiters: seq<Limiter>,
    records: map<ExecutionId, Record>,
    history: map<string, seq<ExecutionId>>,
    stats: Stats,
    idCounter: nat,
    flights: map<ExecutionId, Flight>)

  const START := State(map[], map[], [], map[], map[], Stats(0, 0, 0, 0), 0, map[])

  datatype Step =
    | Register(registration: Registration)
    | Unregister(jobId: string)
    | Trigger(jobId: string, now: int)
    | AttemptEnds(id: ExecutionId, failure: Option<string>)
    | DelayEnds(id: ExecutionId, failure: Option<string>)  // an injected delay may reject
    | Finalize(id: ExecutionId, now: int)
    | OtherScheduler  // the id counter is shared by all schedulers of the process

  // ------------------------------------------------------------------
  // Bookkeeping helpers
  // ------------------------------------------------------------------

  function CountOf(limiter: Limiter, key: string): int {
    if key in limiter.counts then limiter.counts[key] else 0
  }

  predicate IsAllowed(limiter: Limiter, key: string) {
    CountOf(limiter, key) < limiter.maxConcurrency
  }

  function Acquire(limiter: Limiter, key: string): Limiter {
    limiter.(counts := limiter.counts[key := CountOf(limiter, key) + 1])
  }

  function Release(limiter: Limiter, key: string): Limiter {
    if CountOf(limiter, key) > 0 then limiter.(counts := limiter.counts[key := CountOf(limiter, key) - 1])
    else limiter
  }

  function IncrementActive(s: Stats): Stats {
    s.(total := s.total + 1, active := s.active + 1)
  }

  function DecrementActive(s: Stats, outcome: Status): Stats {
    if outcome == Succeeded then s.(succeeded := s.succeeded + 1, active := s.active - 1)
    else s.(failed := s.failed + 1, active := s.active - 1)
  }

  function RunningRecord(reg: Registration, id: ExecutionId, now: int): Record {
    Record(reg.jobId, reg.jobName, id, Running, now, now, None, None, 1)
  }

  function FinishedRecord(base: Record, phase: Phase, now: int): Record
    requires phase.Returned? || phase.Thrown?
  {
    match phase
    case Returned => base.(status := Succeeded, completedAtMs := Some(now))
    case Thrown(reason) => base.(status := Failed, completedAtMs := Some(now), failureReason := Some(reason))
  }

  function HistoryOf(history: map<string, seq<ExecutionId>>, jobId: string): seq<ExecutionId> {
    if jobId in history then history[jobId] else []
  }

  /** The synchronous start of `runWithRetries`: a negative `maxRetries` never calls
      the job and rejects with an undefined error. */
  function Launch(base: Record, limiter: Option<nat>, reg: Registration): Flight {
    var maxRetries := reg.maxRetries.GetOr(0);
    var backoffMs := reg.retryBackoffMs.GetOr(100.0);
    if maxRetries < 0 then Flight(base, limiter, maxRetries, backoffMs, Thrown("undefined"), 0, 0.0)
    else Flight(base, limiter, maxRetries, backoffMs, Calling(0), 1, 0.0)
  }

  function AfterAttempt(f: Flight, failure: Option<string>): Flight
    requires f.phase.Calling?
  {
    match failure
    case None => f.(phase := Returned)
    case Some(reason) =>
      if f.phase.attempt < f.maxRetries then
        f.(phase := Waiting(f.phase.attempt),
           waitedMs := f.waitedMs + f.backoffMs * Pow2(f.phase.attempt) as real)
      else f.(phase := Thrown(reason))
  }

  /** A delay that rejects ends the loop with its own error. */
  function AfterDelay(f: Flight, failure: Option<string>): Flight
    requires f.phase.Waiting?
  {
    match failure
    case None => f.(phase := Calling(f.phase.attempt + 1), calls := f.calls + 1)
    case Some(reason) => f.(phase := Thrown(reason))
  }

  // ------------------------------------------------------------------
  // The steps
  // ------------------------------------------------------------------

  predicate Limited(s: State, jobId: string) {
    jobId in s.limiterOf && s.limiterOf[jobId] < |s.limiters| &&
    !IsAllowed(s.limiters[s.limiterOf[jobId]], jobId)
  }

  function LimiterFor(s: State, jobId: string): Option<nat> {
    if jobId in s.limiterOf && s.limiterOf[jobId] < |s.limiters| then Some(s.limiterOf[jobId]) else None
  }

  function AcquireAt(limiters: seq<Limiter>, at: Option<nat>, key: string): seq<Limiter> {
    if at.Some? && at.value < |limiters| then limiters[at.value := Acquire(limiters[at.value], key)] else limiters
  }

  function ReleaseAt(limiters: seq<Limiter>, at: Option<nat>, key: string): seq<Limiter> {
    if at.Some? && at.value < |limiters| then limiters[at.value := Release(limiters[at.value], key)] else limiters
  }

  function DoTrigger(s: State, jobId: string, now: int): State
    requires jobId in s.registry && !Limited(s, jobId)
  {
    var reg := s.registry[jobId];
    var id := ExecutionId(s.idCounter + 1, now);
    var base := RunningRecord(reg, id, now);
    var limiter := LimiterFor(s, jobId);
    s.(limiters := AcquireAt(s.limiters, limiter, jobId),
       records := s.records[id := base],
       history := s.history[jobId := HistoryOf(s.history, jobId) + [id]],
       stats := IncrementActive(s.stats),
       idCounter := s.idCounter + 1,
       flights := s.flights[id := Launch(base, limiter, reg)])
  }

  predicate ReadyToFinalize(s: State, id: ExecutionId) {
    id in s.flights && (s.flights[id].phase.Returned? || s.flights[id].phase.Thrown?)
  }

  function DoFinalize(s: State, id: ExecutionId, now: int): State
    requires ReadyToFinalize(s, id)
  {
    var f := s.flights[id];
    var done := FinishedRecord(f.base, f.phase, now);
    s.(limiters := ReleaseAt(s.limiters, f.limiter, f.base.jobId),
       records := s.records[id := done],
       stats := DecrementActive(s.stats, done.status),
       flights := s.flights - {id})
  }

  function DoRegister(s: State, reg: Registration): State {
    s.(registry := s.registry[reg.jobId := reg],
       limiterOf := s.limiterOf[reg.jobId := |s.limiters|],
       limiters := s.limiters + [Limiter(reg.maxConcurrency.GetOr(1), map[])])
  }

  /** A step that throws (a job already registered, unknown, or at its limit) changes nothing. */
  function Next(s: State, step: Step): State {
    match step
    case Register(reg) => if reg.jobId in s.registry then s else DoRegister(s, reg)
    case Unregister(jobId) =>
      if jobId !in s.registry then s
      else s.(registry := s.registry - {jobId}, limiterOf := s.limiterOf - {jobId})
    case Trigger(jobId, now) =>
      if jobId !in s.registry || Limited(s, jobId) then s else DoTrigger(s, jobId, now)
    case AttemptEnds(id, failure) =>
      if id in s.flights && s.flights[id].phase.Calling?
      then s.(flights := s.flights[id := AfterAttempt(s.flights[id], failure)]) else s
    case DelayEnds(id, failure) =>
      if id in s.flights && s.flights[id].phase.Waiting?
      then s.(flights := s.flights[id := AfterDelay(s.flights[id], failure)]) else s
    case Finalize(id, now) => if ReadyToFinalize(s, id) then DoFinalize(s, id, now) else s
    case OtherScheduler => s.(idCounter := s.idCounter + 1)
  }

  function Run(s: State, steps: seq<Step>): State {
    if steps == [] then s else Next(Run(s, steps[..|steps| - 1]), steps[|steps| - 1])
  }

  // ------------------------------------------------------------------
  // Invariants
  // ------------------------------------------------------------------

  function WithStatus(records: map<ExecutionId, Record>, status: Status): set<ExecutionId> {
    set id | id in records && records[id].status == status
  }

  /** Each counter is the number of records in that status, and they add up. */
  ghost predicate StatsInv(records: map<ExecutionId, Record>, stats: Stats) {
    stats.active == |WithStatus(records, Running)| &&
    stats.succeeded == |WithStatus(records, Succeeded)| &&
    stats.failed == |WithStatus(records, Failed)| &&
    stats.total == |records| &&
    stats.total == stats.succeeded + stats.failed + stats.active
  }

  /** Ids in the order in which their executions started. */
  ghost predicate InStartOrder(ids: seq<ExecutionId>) {
    forall i, j :: 0 <= i < j < |ids| ==> ids[i].counter < ids[j].counter
  }

  /** The history lists partition the records by job, each in start order. */
  ghost predicate HistoryInv(records: map<ExecutionId, Record>, history: map<string, seq<ExecutionId>>) {
    (forall job :: job in history ==> InStartOrder(history[job])) &&
    (forall job, i :: job in history && 0 <= i < |history[job]| ==>
       history[job][i] in records && records[history[job][i]].jobId == job) &&
    (forall id :: id in records ==> records[id].jobId in history && id in history[records[id].jobId])
  }

  /** The suspended runs are exactly the running records. */
  ghost predicate FlightInv(records: map<ExecutionId, Record>, flights: map<ExecutionId, Flight>) {
    flights.Keys == WithStatus(records, Running) &&
    (forall id :: id in records ==> records[id].id == id) &&
    (forall id :: id in flights ==> flights[id].base == records[id])
  }

  function StartedUnder(flights: map<ExecutionId, Flight>, limiter: nat, key: string): set<ExecutionId> {
    set id | id in flights && flights[id].limiter == Some(limiter) && flights[id].base.jobId == key
  }

  /** A limiter's count is the number of unfinished executions started under it, and
      it never passes the limiter's maximum. */
  ghost predicate LimiterInv(limiters: seq<Limiter>, flights: map<ExecutionId, Flight>) {
    (forall id :: id in flights && flights[id].limiter.Some? ==> flights[id].limiter.value < |limiters|) &&
    forall l, key :: 0 <= l < |limiters| ==> LimiterCounts(limiters[l], flights, l, key)
  }

  ghost predicate LimiterCounts(limiter: Limiter, flights: map<ExecutionId, Flight>, l: nat, key: string) {
    CountOf(limiter, key) == |StartedUnder(flights, l, key)| &&
    CountOf(limiter, key) <= Max(limiter.maxConcurrency, 0)
  }

  ghost predicate RegistryInv(s: State) {
    s.registry.Keys == s.limiterOf.Keys &&
    forall job :: job in s.registry ==>
      s.registry[job].jobId == job && s.limiterOf[job] < |s.limiters| &&
      s.limiters[s.limiterOf[job]].maxConcurrency == s.registry[job].maxConcurrency.GetOr(1)
  }

  ghost predicate IdInv(s: State) {
    forall id :: id in s.records ==> id.counter <= s.idCounter
  }

  /** What k delays add up to: the base, twice the base, four times the base, ... */
  function TotalBackoff(backoffMs: real, k: nat): real {
    backoffMs * (Pow2(k) as real - 1.0)
  }

  /** Attempts and backoff: the k-th delay is the base times a power of two, and the
      job is executed at most `maxRetries + 1` times. */
  ghost predicate RetryInv(f: Flight) {
    match f.phase
    case Calling(a) =>
      a <= f.maxRetries && f.calls == a + 1 && f.waitedMs == TotalBackoff(f.backoffMs, a)
    case Waiting(a) =>
      a < f.maxRetries && f.calls == a + 1 && f.waitedMs == TotalBackoff(f.backoffMs, a + 1)
    case Returned =>
      1 <= f.calls <= f.maxRetries + 1 && f.waitedMs == TotalBackoff(f.backoffMs, f.calls - 1)
    case Thrown(_) => OutOfRetries(f) || EndedByDelay(f)
  }

  ghost predicate OutOfRetries(f: Flight) {
    f.calls == Max(f.maxRetries + 1, 0) && f.waitedMs == TotalBackoff(f.backoffMs, Max(f.maxRetries, 0))
  }

  /** The delay after the latest attempt rejected. */
  ghost predicate EndedByDelay(f: Flight) {
    1 <= f.calls <= f.maxRetries && f.waitedMs == TotalBackoff(f.backoffMs, f.calls)
  }

  ghost predicate RetriesInv(flights: map<ExecutionId, Flight>) {
    forall id :: id in flights ==> RetryInv(flights[id])
  }

  ghost predicate Inv(s: State) {
    RegistryInv(s) && IdInv(s) && StatsInv(s.records, s.stats) && HistoryInv(s.records, s.history) &&
    FlightInv(s.records, s.flights) && LimiterInv(s.limiters, s.flights) && RetriesInv(s.flights)
  }

  // ------------------------------------------------------------------
  // Starting an execution
  // ------------------------------------------------------------------

  lemma StatusAfterNew(records: map<ExecutionId, Record>, id: ExecutionId, base: Record, status: Status)
    requires id !in records
    ensures |WithStatus(records[id := base], status)|
            == |WithStatus(records, status)| + if base.status == status then 1 else 0
  {
    assert WithStatus(records[id := base], status)
        == WithStatus(records, status) + if base.status == status then {id} else {};
  }

  lemma StatusAfterChange(records: map<ExecutionId, Record>, id: ExecutionId, done: Record, status: Status)
    requires id in records && records[id].status != done.status
    ensures |WithStatus(records[id := done], status)|
            == |WithStatus(records, status)| + (if done.status == status then 1 else 0)
               - if records[id].status == status then 1 else 0
  {
    if records[id].status == status {
      assert WithStatus(records[id := done], status) == WithStatus(records, status) - {id};
    } else if done.status == status {
      assert WithStatus(records[id := done], status) == WithStatus(records, status) + {id};
    } else {
      assert WithStatus(records[id := done], status) == WithStatus(records, status);
    }
  }

  lemma SizeAfterUpdate(records: map<ExecutionId, Record>, id: ExecutionId, r: Record)
    ensures |records[id := r]| == |records| + if id in records then 0 else 1
  {
    assert records[id := r].Keys == records.Keys + {id};
    assert |records[id := r]| == |records[id := r].Keys| && |records| == |records.Keys|;
  }

  lemma NewRecordKeepsStats(records: map<ExecutionId, Record>, stats: Stats, id: ExecutionId, base: Record)
    requires StatsInv(records, stats) && id !in records && base.status == Running
    ensures StatsInv(records[id := base], IncrementActive(stats))
  {
    hide WithStatus;
    StatusAfterNew(records, id, base, Running);
    StatusAfterNew(records, id, base, Succeeded);
    StatusAfterNew(records, id, base, Failed);
    SizeAfterUpdate(records, id, base);
  }

  lemma NewRecordKeepsHistory(records: map<ExecutionId, Record>, history: map<string, seq<ExecutionId>>,
                              id: ExecutionId, base: Record)
    requires HistoryInv(records, history)
    requires forall other :: other in records ==> other.counter < id.counter
    ensures HistoryInv(records[id := base], history[base.jobId := HistoryOf(history, base.jobId) + [id]])
  {
    var list := HistoryOf(history, base.jobId);
    var after := records[id := base];
    var longer := history[base.jobId := list + [id]];
    forall i | 0 <= i < |list| ensures list[i] != id && list[i] in records && records[list[i]].jobId == base.jobId {}
    forall other | other in after ensures after[other].jobId in longer && other in longer[after[other].jobId] {
      if other == id { assert (list + [id])[|list|] == id; }
    }
  }

  lemma NewFlightKeepsFlights(records: map<ExecutionId, Record>, flights: map<ExecutionId, Flight>,
                              id: ExecutionId, f: Flight)
    requires FlightInv(records, flights) && id !in records && f.base.id == id && f.base.status == Running
    ensures FlightInv(records[id := f.base], flights[id := f]) && id !in flights
  {
    assert WithStatus(records[id := f.base], Running) == WithStatus(records, Running) + {id};
  }

  lemma NewFlightKeepsLimiters(limiters: seq<Limiter>, flights: map<ExecutionId, Flight>, id: ExecutionId, f: Flight,
                               l: nat)
    requires LimiterInv(limiters, flights) && id !in flights
    requires l < |limiters| && f.limiter == Some(l) && IsAllowed(limiters[l], f.base.jobId)
    ensures LimiterInv(AcquireAt(limiters, Some(l), f.base.jobId), flights[id := f])
  {
    var after := flights[id := f];
    var updated := AcquireAt(limiters, Some(l), f.base.jobId);
    forall m, key | 0 <= m < |updated| ensures LimiterCounts(updated[m], after, m, key) {
      assert LimiterCounts(limiters[m], flights, m, key);
      if m == l && key == f.base.jobId {
        assert StartedUnder(after, m, key) == StartedUnder(flights, m, key) + {id};
      } else {
        assert StartedUnder(after, m, key) == StartedUnder(flights, m, key);
      }
    }
  }

  lemma LaunchKeepsRetries(base: Record, limiter: Option<nat>, reg: Registration)
    ensures var f := Launch(base, limiter, reg); RetryInv(f) && f.base == base && f.limiter == limiter
  {
    assert Pow2(0) == 1;
  }

  lemma TriggerKeepsInv(s: State, jobId: string, now: int)
    requires Inv(s) && jobId in s.registry && !Limited(s, jobId)
    ensures Inv(DoTrigger(s, jobId, now))
  {
    hide StatsInv, HistoryInv, FlightInv, LimiterInv, RetryInv, Launch;
    var reg := s.registry[jobId];
    var id := ExecutionId(s.idCounter + 1, now);
    var base := RunningRecord(reg, id, now);
    var l := s.limiterOf[jobId];
    var f := Launch(base, Some(l), reg);
    assert id !in s.records;
    LaunchKeepsRetries(base, Some(l), reg);
    NewRecordKeepsStats(s.records, s.stats, id, base);
    NewRecordKeepsHistory(s.records, s.history, id, base);
    NewFlightKeepsFlights(s.records, s.flights, id, f);
    NewFlightKeepsLimiters(s.limiters, s.flights, id, f, l);
  }

  // ------------------------------------------------------------------
  // Finishing an execution
  // ------------------------------------------------------------------

  lemma FinishKeepsStats(records: map<ExecutionId, Record>, stats: Stats, id: ExecutionId, done: Record)
    requires StatsInv(records, stats) && id in records && records[id].status == Running && done.status != Running
    ensures StatsInv(records[id := done], DecrementActive(stats, done.status))
  {
    hide WithStatus;
    StatusAfterChange(records, id, done, Running);
    StatusAfterChange(records, id, done, Succeeded);
    StatusAfterChange(records, id, done, Failed);
    SizeAfterUpdate(records, id, done);
  }

  lemma FinishKeepsLimiters(limiters: seq<Limiter>, flights: map<ExecutionId, Flight>, id: ExecutionId)
    requires LimiterInv(limiters, flights) && id in flights
    ensures LimiterInv(ReleaseAt(limiters, flights[id].limiter, flights[id].base.jobId), flights - {id})
  {
    var f := flights[id];
    var after := flights - {id};
    var updated := ReleaseAt(limiters, f.limiter, f.base.jobId);
    forall m, key | 0 <= m < |updated| ensures LimiterCounts(updated[m], after, m, key) {
      assert LimiterCounts(limiters[m], flights, m, key);
      if f.limiter == Some(m) && key == f.base.jobId {
        assert id in StartedUnder(flights, m, key);
        assert StartedUnder(after, m, key) == StartedUnder(flights, m, key) - {id};
      } else {
        assert StartedUnder(after, m, key) == StartedUnder(flights, m, key);
      }
    }
  }

  lemma FinishKeepsHistory(records: map<ExecutionId, Record>, history: map<string, seq<ExecutionId>>,
                           id: ExecutionId, done: Record)
    requires HistoryInv(records, history) && id in records && done.jobId == records[id].jobId
    ensures HistoryInv(records[id := done], history)
  {
  }

  lemma FlightIsRunning(records: map<ExecutionId, Record>, flights: map<ExecutionId, Flight>, id: ExecutionId)
    requires FlightInv(records, flights) && id in flights
    ensures id in records && flights[id].base == records[id] && records[id].status == Running && records[id].id == id
  {
    assert id in WithStatus(records, Running);
  }

  lemma FinishKeepsFlights(records: map<ExecutionId, Record>, flights: map<ExecutionId, Flight>,
                           id: ExecutionId, done: Record)
    requires FlightInv(records, flights) && id in flights
    requires done.id == id && done.status != Running
    ensures FlightInv(records[id := done], flights - {id})
  {
    assert WithStatus(records[id := done], Running) == WithStatus(records, Running) - {id};
  }

  lemma FinalizeKeepsInv(s: State, id: ExecutionId, now: int)
    requires Inv(s) && ReadyToFinalize(s, id)
    ensures Inv(DoFinalize(s, id, now))
  {
    hide StatsInv, HistoryInv, LimiterInv, FlightInv, RetryInv;
    var f := s.flights[id];
    var done := FinishedRecord(f.base, f.phase, now);
    FlightIsRunning(s.records, s.flights, id);
    FinishKeepsFlights(s.records, s.flights, id, done);
    FinishKeepsStats(s.records, s.stats, id, done);
    FinishKeepsHistory(s.records, s.history, id, done);
    FinishKeepsLimiters(s.limiters, s.flights, id);
  }

  // ------------------------------------------------------------------
  // The other steps
  // ------------------------------------------------------------------

  lemma PhaseChangeKeepsLimiters(limiters: seq<Limiter>, flights: map<ExecutionId, Flight>, id: ExecutionId, f: Flight)
    requires LimiterInv(limiters, flights) && id in flights
    requires f.base == flights[id].base && f.limiter == flights[id].limiter
    ensures LimiterInv(limiters, flights[id := f])
  {
    var after := flights[id := f];
    forall l, key | 0 <= l < |limiters| ensures LimiterCounts(limiters[l], after, l, key) {
      assert LimiterCounts(limiters[l], flights, l, key);
      assert StartedUnder(after, l, key) == StartedUnder(flights, l, key);
    }
  }

  lemma PhaseChangeKeepsInv(s: State, id: ExecutionId, f: Flight)
    requires Inv(s) && id in s.flights
    requires f.base == s.flights[id].base && f.limiter == s.flights[id].limiter && RetryInv(f)
    ensures Inv(s.(flights := s.flights[id := f]))
  {
    hide StatsInv, HistoryInv, LimiterInv, RetryInv, WithStatus;
    PhaseChangeKeepsLimiters(s.limiters, s.flights, id, f);
    assert s.flights[id := f].Keys == s.flights.Keys;
  }

  lemma DoublingDelay(backoffMs: real, a: nat)
    ensures TotalBackoff(backoffMs, a) + backoffMs * Pow2(a) as real == TotalBackoff(backoffMs, a + 1)
  {
    var p := Pow2(a) as real;
    assert Pow2(a + 1) as real == 2.0 * p;
    assert backoffMs * (p - 1.0) + backoffMs * p == backoffMs * (2.0 * p - 1.0);
  }

  lemma AttemptKeepsRetries(f: Flight, failure: Option<string>)
    requires RetryInv(f) && f.phase.Calling?
    ensures RetryInv(AfterAttempt(f, failure))
  {
    var a := f.phase.attempt;
    if failure.Some? && a < f.maxRetries {
      DoublingDelay(f.backoffMs, a);
      assert AfterAttempt(f, failure).waitedMs == TotalBackoff(f.backoffMs, a + 1);
    } else {
      assert AfterAttempt(f, failure).waitedMs == TotalBackoff(f.backoffMs, a);
    }
    hide TotalBackoff;
  }

  lemma AttemptChangesOnlyThePhase(f: Flight, failure: Option<string>)
    requires f.phase.Calling?
    ensures AfterAttempt(f, failure).base == f.base && AfterAttempt(f, failure).limiter == f.limiter
  {
  }

  lemma DelayChangesOnlyThePhase(f: Flight, failure: Option<string>)
    requires f.phase.Waiting?
    ensures AfterDelay(f, failure).base == f.base && AfterDelay(f, failure).limiter == f.limiter
  {
  }

  lemma DelayKeepsRetries(f: Flight, failure: Option<string>)
    requires RetryInv(f) && f.phase.Waiting?
    ensures RetryInv(AfterDelay(f, failure)) && AfterDelay(f, failure).base == f.base &&
            AfterDelay(f, failure).limiter == f.limiter
  {
  }

  lemma OtherSchedulerKeepsInv(s: State)
    requires Inv(s)
    ensures Inv(Next(s, OtherScheduler))
  {
    hide StatsInv, HistoryInv, FlightInv, LimiterInv, RetriesInv;
  }

  lemma RegisterKeepsInv(s: State, reg: Registration)
    requires Inv(s) && reg.jobId !in s.registry
    ensures Inv(DoRegister(s, reg))
  {
    hide StatsInv, HistoryInv, FlightInv, RetriesInv;
    var after := DoRegister(s, reg);
    forall l, key | 0 <= l < |after.limiters| ensures LimiterCounts(after.limiters[l], s.flights, l, key) {
      if l == |s.limiters| {
        assert StartedUnder(s.flights, l, key) == {};
      } else {
        assert LimiterCounts(s.limiters[l], s.flights, l, key);
      }
    }
  }

  lemma UnregisterKeepsInv(s: State, jobId: string)
    requires Inv(s)
    ensures Inv(Next(s, Unregister(jobId)))
  {
    hide StatsInv, HistoryInv, FlightInv, LimiterInv, RetriesInv;
  }

  lemma NextKeepsInv(s: State, step: Step)
    requires Inv(s)
    ensures Inv(Next(s, step))
  {
    hide StatsInv, HistoryInv, FlightInv, LimiterInv, RetryInv, RegistryInv;
    hide DoTrigger, DoFinalize, DoRegister, AfterAttempt, AfterDelay;
    match step
    case Register(reg) => if reg.jobId !in s.registry { RegisterKeepsInv(s, reg); }
    case Unregister(jobId) => UnregisterKeepsInv(s, jobId);
    case Trigger(jobId, now) => if jobId in s.registry && !Limited(s, jobId) { TriggerKeepsInv(s, jobId, now); }
    case AttemptEnds(id, failure) =>
      if id in s.flights && s.flights[id].phase.Calling? {
        AttemptKeepsRetries(s.flights[id], failure);
        AttemptChangesOnlyThePhase(s.flights[id], failure);
        PhaseChangeKeepsInv(s, id, AfterAttempt(s.flights[id], failure));
      }
    case DelayEnds(id, failure) =>
      if id in s.flights && s.flights[id].phase.Waiting? {
        DelayKeepsRetries(s.flights[id], failure);
        PhaseChangeKeepsInv(s, id, AfterDelay(s.flights[id], failure));
      }
    case Finalize(id, now) => if ReadyToFinalize(s, id) { FinalizeKeepsInv(s, id, now); }
    case OtherScheduler => OtherSchedulerKeepsInv(s);
  }

  lemma StartIsConsistent()
    ensures Inv(START)
  {
    assert forall st :: WithStatus(START.records, st) == {};
  }

  /** Every state the scheduler can reach, under every interleaving, keeps its books. */
  lemma {:induction false} EveryReachableStateIsConsistent(steps: seq<Step>)
    ensures Inv(Run(START, steps))
    decreases |steps|
  {
    hide Inv, Next;
    if steps == [] {
      StartIsConsistent();
    } else {
      EveryReachableStateIsConsistent(steps[..|steps| - 1]);
      NextKeepsInv(Run(START, steps[..|steps| - 1]), steps[|steps| - 1]);
    }
  }

  // ------------------------------------------------------------------
  // Each record leaves `running` exactly once
  // ------------------------------------------------------------------

  predicate IsRunning(s: State, id: ExecutionId) {
    id in s.records && s.records[id].status == Running
  }

  /** How often, during a run, the record stops being `running`. */
  function TimesFinished(s: State, steps: seq<Step>, id: ExecutionId): nat {
    if steps == [] then 0
    else
      var before := Run(s, steps[..|steps| - 1]);
      TimesFinished(s, steps[..|steps| - 1], id) +
      (if IsRunning(before, id) && !IsRunning(Next(before, steps[|steps| - 1]), id) then 1 else 0)
  }

  /** A record that has left `running` never changes again, and only a start creates one. */
  lemma FinishedRecordIsFinal(s: State, step: Step, id: ExecutionId)
    requires Inv(s)
    ensures id in s.records ==> id in Next(s, step).records
    ensures id in s.records && !IsRunning(s, id) ==> Next(s, step).records[id] == s.records[id]
    ensures id !in s.records && id in Next(s, step).records ==> IsRunning(Next(s, step), id)
  {
    hide StatsInv, HistoryInv, LimiterInv, RetriesInv, RegistryInv, Launch, AfterAttempt, AfterDelay;
    if step.Finalize? && ReadyToFinalize(s, step.id) {
      assert step.id in WithStatus(s.records, Running);
    }
  }

  lemma {:induction false} LeavesRunningExactlyOnce(steps: seq<Step>, id: ExecutionId)
    ensures var s := Run(START, steps);
            TimesFinished(START, steps, id) == if id in s.records && !IsRunning(s, id) then 1 else 0
    decreases |steps|
  {
    if steps != [] {
      var init := steps[..|steps| - 1];
      LeavesRunningExactlyOnce(init, id);
      EveryReachableStateIsConsistent(init);
      FinishedRecordIsFinal(Run(START, init), steps[|steps| - 1], id);
    }
  }

  /** `getJobHistory`: the records of the listed ids, skipping ids without a record. */
  function JobHistory(s: State, ids: seq<ExecutionId>): seq<Record> {
    if ids == [] then []
    else JobHistory(s, ids[..|ids| - 1]) +
         (if ids[|ids| - 1] in s.records then [s.records[ids[|ids| - 1]]] else [])
  }

  lemma {:induction false} NoIdIsSkipped(s: State, ids: seq<ExecutionId>)
    requires forall i :: 0 <= i < |ids| ==> ids[i] in s.records
    ensures |JobHistory(s, ids)| == |ids|
    ensures forall i :: 0 <= i < |ids| ==> JobHistory(s, ids)[i] == s.records[ids[i]]
    decreases |ids|
  {
    if ids != [] {
      NoIdIsSkipped(s, ids[..|ids| - 1]);
    }
  }

  /** A job's history is every record of that job, once, in the order they started. */
  lemma HistoryIsExactlyTheJobsRecords(steps: seq<Step>, jobId: string)
    ensures var s := Run(START, steps);
            var h := JobHistory(s, HistoryOf(s.history, jobId));
            (forall id :: id in s.records && s.records[id].jobId == jobId ==> s.records[id] in h) &&
            (forall i :: 0 <= i < |h| ==> h[i].jobId == jobId && h[i].id in s.records && s.records[h[i].id] == h[i]) &&
            (forall i, j :: 0 <= i < j < |h| ==> h[i].id.counter < h[j].id.counter)
  {
    hide LimiterInv, RetriesInv, RegistryInv, StatsInv;
    EveryReachableStateIsConsistent(steps);
    var s := Run(START, steps);
    NoIdIsSkipped(s, HistoryOf(s.history, jobId));
  }

  /** With nothing in flight every limiter is free again and every execution has an outcome. */
  lemma IdleMeansSettled(steps: seq<Step>)
    requires Run(START, steps).flights == map[]
    ensures var s := Run(START, steps);
            s.stats.active == 0 && s.stats.total == s.stats.succeeded + s.stats.failed &&
            forall l, key :: 0 <= l < |s.limiters| ==> CountOf(s.limiters[l], key) == 0
  {
    hide HistoryInv, RetriesInv, RegistryInv, Next;
    EveryReachableStateIsConsistent(steps);
    var s := Run(START, steps);
    assert WithStatus(s.records, Running) == {};
    forall l, key | 0 <= l < |s.limiters| ensures CountOf(s.limiters[l], key) == 0 {
      assert LimiterCounts(s.limiters[l], s.flights, l, key);
      assert StartedUnder(s.flights, l, key) == {};
    }
  }
}
