/** Which executions succeed: every record told from the steps of the run alone, without the
    functions that write it. */
module SchedulerOutcomes {
  import opened Common
  import opened Schedulers

  /** How an execution was started: the job's registration at the trigger, and its time. */
  datatype Beginning = Beginning(reg: Registration, at: int)

  /** What the execution last waited for, and how that ended: a failure, or none. */
  datatype Ending = NothingYet | JobEnded(failure: Option<string>) | DelayEnded(failure: Option<string>)

  /** What the steps of a run tell about one execution. */
  datatype Story = Story(beginning: Option<Beginning>, attempts: nat, ending: Ending, finalizedAt: Option<int>)

  const UNTOLD := Story(None, 0, NothingYet, None)

  predicate Awaits(s: State, id: ExecutionId, delay: bool) {
    id in s.flights && if delay then s.flights[id].phase.Waiting? else s.flights[id].phase.Calling?
  }

  /** The story goes on with a step that concerns this execution. A trigger begins the one
      whose record is new; an attempt or a delay ends only while it is awaited; and a
      finalization takes effect only while the execution is in flight. */
  function Tell(story: Story, s: State, step: Step, id: ExecutionId): Story {
    match step
    case Trigger(jobId, now) =>
      if id !in s.records && id in Next(s, step).records && jobId in s.registry
      then story.(beginning := Some(Beginning(s.registry[jobId], now))) else story
    case AttemptEnds(other, failure) =>
      if other == id && Awaits(s, id, false)
      then story.(attempts := story.attempts + 1, ending := JobEnded(failure)) else story
    case DelayEnds(other, failure) =>
      if other == id && Awaits(s, id, true) then story.(ending := DelayEnded(failure)) else story
    case Finalize(other, now) =>
      if other == id && id in s.flights && id !in Next(s, step).flights then story.(finalizedAt := Some(now)) else story
    case _ => story
  }

  function StoryOf(steps: seq<Step>, id: ExecutionId): Story {
    if steps == [] then UNTOLD
    else Tell(StoryOf(steps[..|steps| - 1], id), Run(START, steps[..|steps| - 1]), steps[|steps| - 1], id)
  }

  // ------------------------------------------------------------------
  // What the story says of a flight and of a record
  // ------------------------------------------------------------------

  /** Why an execution that has not succeeded ended: the last attempt's failure, the delay
      that rejected, or no attempt at all. */
  function ReasonOf(story: Story): Option<string> {
    match story.ending
    case JobEnded(failure) => failure
    case DelayEnded(failure) => failure
    case NothingYet => Some("undefined")
  }

  predicate Retries(story: Story, maxRetries: int) {
    story.beginning.Some? && maxRetries == story.beginning.value.reg.maxRetries.GetOr(0)
  }

  /** What the execution awaits, as the story tells it. */
  ghost predicate PhaseTold(story: Story, phase: Phase, maxRetries: int) {
    match phase
    case Calling(a) =>
      a == story.attempts <= maxRetries && story.ending == (if a == 0 then NothingYet else DelayEnded(None))
    case Waiting(a) =>
      story.attempts == a + 1 <= maxRetries && story.ending.JobEnded? && story.ending.failure.Some?
    case Returned => EndedWell(story) && story.attempts <= maxRetries + 1
    case Thrown(reason) => GaveUp(story, maxRetries) && ReasonOf(story) == Some(reason)
  }

  predicate EndedWell(story: Story) {
    story.ending == JobEnded(None)
  }

  /** All attempts failed, a delay rejected before the last of them, or there were none to make. */
  predicate GaveUp(story: Story, maxRetries: int) {
    match story.ending
    case JobEnded(failure) => failure.Some? && story.attempts == maxRetries + 1
    case DelayEnded(failure) => failure.Some? && 1 <= story.attempts <= maxRetries
    case NothingYet => maxRetries < 0 && story.attempts == 0
  }

  /** The record of the execution, as the story tells it. */
  ghost predicate RecordTold(story: Story, record: Record, id: ExecutionId) {
    story.beginning.Some? &&
    var b := story.beginning.value;
    var maxRetries := b.reg.maxRetries.GetOr(0);
    record.jobId == b.reg.jobId && record.jobName == b.reg.jobName && record.id == id &&
    record.scheduledAtMs == record.startedAtMs == b.at == id.ms && record.attemptNumber == 1 &&
    record.completedAtMs == story.finalizedAt &&
    (record.status == Running <==> story.finalizedAt == None) &&
    (record.status == Succeeded <==> story.finalizedAt.Some? && EndedWell(story)) &&
    (record.status == Failed <==> story.finalizedAt.Some? && !EndedWell(story)) &&
    (record.status == Failed ==> GaveUp(story, maxRetries)) &&
    record.failureReason == if record.status == Failed then ReasonOf(story) else None
  }

  ghost predicate FlightTold(story: Story, f: Flight) {
    story.finalizedAt == None && Retries(story, f.maxRetries) && PhaseTold(story, f.phase, f.maxRetries)
  }

  /** Of an execution that never started there is nothing to tell. */
  ghost predicate Told(s: State, story: Story, id: ExecutionId) {
    (id !in s.records ==> story == UNTOLD) &&
    (id in s.records ==> RecordTold(story, s.records[id], id)) &&
    (id in s.flights ==> FlightTold(story, s.flights[id]))
  }

  // ------------------------------------------------------------------
  // Every step keeps it told
  // ------------------------------------------------------------------

  lemma OthersAreTold(s: State, story: Story, step: Step, id: ExecutionId)
    requires Inv(s) && Told(s, story, id)
    requires step.Register? || step.Unregister? || step.OtherScheduler? ||
             (step.AttemptEnds? && step.id != id) || (step.DelayEnds? && step.id != id) ||
             (step.Finalize? && step.id != id)
    ensures Told(Next(s, step), Tell(story, s, step, id), id)
  {
    hide Inv, RecordTold, FlightTold, AfterAttempt, AfterDelay, FinishedRecord;
  }

  lemma NewExecutionIsTold(reg: Registration, limiter: Option<nat>, id: ExecutionId)
    ensures var story := UNTOLD.(beginning := Some(Beginning(reg, id.ms)));
            var base := RunningRecord(reg, id, id.ms);
            RecordTold(story, base, id) && FlightTold(story, Launch(base, limiter, reg))
  {
  }

  lemma TriggerAdds(s: State, jobId: string, now: int)
    requires jobId in s.registry && !Limited(s, jobId)
    ensures var id := ExecutionId(s.idCounter + 1, now);
            var base := RunningRecord(s.registry[jobId], id, now);
            var after := Next(s, Trigger(jobId, now));
            after.records == s.records[id := base] &&
            after.flights == s.flights[id := Launch(base, LimiterFor(s, jobId), s.registry[jobId])]
  {
  }

  lemma NewIdIsUnused(s: State, now: int)
    requires Inv(s)
    ensures var id := ExecutionId(s.idCounter + 1, now); id !in s.records && id !in s.flights
  {
    assert s.flights.Keys == WithStatus(s.records, Running);
  }

  lemma TriggerIsTold(s: State, story: Story, jobId: string, now: int, id: ExecutionId)
    requires Inv(s) && Told(s, story, id)
    ensures Told(Next(s, Trigger(jobId, now)), Tell(story, s, Trigger(jobId, now), id), id)
  {
    if jobId in s.registry && !Limited(s, jobId) {
      NewIdIsUnused(s, now);
      TriggerAdds(s, jobId, now);
      NewExecutionIsTold(s.registry[jobId], LimiterFor(s, jobId), ExecutionId(s.idCounter + 1, now));
      hide Inv, RecordTold, FlightTold, Launch, LimiterFor, RunningRecord, Next, Limited;
    }
  }

  /** While an execution runs, its record does not depend on what it awaits. */
  lemma RunningIsTold(story: Story, attempts: nat, ending: Ending, record: Record, id: ExecutionId)
    requires RecordTold(story, record, id) && record.status == Running
    ensures RecordTold(story.(attempts := attempts, ending := ending), record, id)
  {
  }

  lemma FlightIsRunningTold(s: State, story: Story, id: ExecutionId)
    requires Inv(s) && Told(s, story, id) && id in s.flights
    ensures id in s.records && s.records[id].status == Running && FlightTold(story, s.flights[id])
  {
    hide RecordTold, FlightTold, StatsInv, HistoryInv, LimiterInv, RetriesInv, RegistryInv;
    FlightIsRunning(s.records, s.flights, id);
  }

  lemma AttemptFlightIsTold(story: Story, f: Flight, failure: Option<string>)
    requires FlightTold(story, f) && f.phase.Calling?
    ensures FlightTold(story.(attempts := story.attempts + 1, ending := JobEnded(failure)), AfterAttempt(f, failure))
  {
    hide Pow2;
  }

  lemma DelayFlightIsTold(story: Story, f: Flight, failure: Option<string>)
    requires FlightTold(story, f) && f.phase.Waiting?
    ensures FlightTold(story.(ending := DelayEnded(failure)), AfterDelay(f, failure))
  {
  }

  lemma AttemptIsTold(s: State, story: Story, id: ExecutionId, failure: Option<string>)
    requires Inv(s) && Told(s, story, id)
    ensures Told(Next(s, AttemptEnds(id, failure)), Tell(story, s, AttemptEnds(id, failure), id), id)
  {
    if Awaits(s, id, false) {
      FlightIsRunningTold(s, story, id);
      hide Inv, RecordTold, FlightTold, AfterAttempt;
      RunningIsTold(story, story.attempts + 1, JobEnded(failure), s.records[id], id);
      AttemptFlightIsTold(story, s.flights[id], failure);
    }
  }

  lemma DelayIsTold(s: State, story: Story, id: ExecutionId, failure: Option<string>)
    requires Inv(s) && Told(s, story, id)
    ensures Told(Next(s, DelayEnds(id, failure)), Tell(story, s, DelayEnds(id, failure), id), id)
  {
    if Awaits(s, id, true) {
      FlightIsRunningTold(s, story, id);
      hide Inv, RecordTold, FlightTold, AfterDelay;
      RunningIsTold(story, story.attempts, DelayEnded(failure), s.records[id], id);
      DelayFlightIsTold(story, s.flights[id], failure);
    }
  }

  lemma FinalizationIsTold(s: State, story: Story, id: ExecutionId, now: int)
    requires Inv(s) && Told(s, story, id)
    ensures Told(Next(s, Finalize(id, now)), Tell(story, s, Finalize(id, now), id), id)
  {
    if ReadyToFinalize(s, id) {
      assert id in WithStatus(s.records, Running) && s.flights[id].base == s.records[id];
      hide StatsInv, HistoryInv, LimiterInv, RetriesInv, FlightInv, RegistryInv;
    }
  }

  lemma StepIsTold(s: State, story: Story, step: Step, id: ExecutionId)
    requires Inv(s) && Told(s, story, id)
    ensures Told(Next(s, step), Tell(story, s, step, id), id)
  {
    hide Inv, Told, Next, Tell;
    match step {
      case Trigger(jobId, now) => TriggerIsTold(s, story, jobId, now, id);
      case AttemptEnds(other, failure) =>
        if other == id { AttemptIsTold(s, story, id, failure); } else { OthersAreTold(s, story, step, id); }
      case DelayEnds(other, failure) =>
        if other == id { DelayIsTold(s, story, id, failure); } else { OthersAreTold(s, story, step, id); }
      case Finalize(other, now) =>
        if other == id { FinalizationIsTold(s, story, id, now); } else { OthersAreTold(s, story, step, id); }
      case _ => OthersAreTold(s, story, step, id);
    }
  }

  lemma {:induction false} EveryExecutionIsTold(steps: seq<Step>, id: ExecutionId)
    ensures Told(Run(START, steps), StoryOf(steps, id), id)
    decreases |steps|
  {
    if steps != [] {
      hide Told, Next, Tell, Inv;
      EveryExecutionIsTold(steps[..|steps| - 1], id);
      EveryReachableStateIsConsistent(steps[..|steps| - 1]);
      StepIsTold(Run(START, steps[..|steps| - 1]), StoryOf(steps[..|steps| - 1], id), steps[|steps| - 1], id);
    }
  }

  /** Every record of every reachable state is what the steps of the run tell. It is that of
      the job as registered when it was triggered, and its start is the trigger. It is running
      until a finalization takes effect, whose time completes it. Then it has succeeded exactly
      when what it waited for last was an attempt that did not fail; otherwise it has failed,
      with the failure of the last attempt permitted, with that of the delay which rejected
      before it, or without an attempt when `maxRetries` is negative. */
  lemma EveryRecordIsTold(steps: seq<Step>, id: ExecutionId)
    requires id in Run(START, steps).records
    ensures RecordTold(StoryOf(steps, id), Run(START, steps).records[id], id)
  {
    EveryExecutionIsTold(steps, id);
    hide RecordTold;
  }

  /** An execution in flight whose story is over can be finalized, and is recorded with the
      outcome that the story tells. */
  lemma FinalizationTakesEffect(steps: seq<Step>, id: ExecutionId, now: int)
    requires id in Run(START, steps).flights && StoryOf(steps, id).beginning.Some?
    requires var story := StoryOf(steps, id);
             EndedWell(story) || GaveUp(story, story.beginning.value.reg.maxRetries.GetOr(0))
    ensures var s, story := Run(START, steps), StoryOf(steps, id);
            var after := Next(s, Finalize(id, now));
            id !in after.flights && id in after.records && after.records[id].completedAtMs == Some(now) &&
            after.records[id].status == (if EndedWell(story) then Succeeded else Failed) &&
            after.records[id].failureReason == if EndedWell(story) then None else ReasonOf(story)
  {
    EveryExecutionIsTold(steps, id);
    EveryReachableStateIsConsistent(steps);
    var s, story := Run(START, steps), StoryOf(steps, id);
    FlightIsRunningTold(s, story, id);
    FlightIsRunning(s.records, s.flights, id);
    hide Run, StoryOf, Inv, FlightInv;
  }
}
