# Verified models of the platform packages

This Dafny project models sixteen in-memory engines and protocol handlers of the
monorepo and proves what their callers rely on. `dafny verify dfyconfig.toml` checks
all of it. Each module stands for one component.

| module | component |
|---|---|
| `BankAccounts`, `EventStores`, `OptimisticWrites` | the event-sourced aggregate, the event store, and any number of writers racing over it |
| `Schedulers`, `SchedulerObjects`, `SchedulerLimits`, `SchedulerOutcomes` | the job scheduler: records, statistics, histories, limiters and retries under interleaving, how many executions of a job run at a time, and which succeed |
| `Envelopes`, `KafkaConsumers`, `RabbitConsumers` | the two event consumers against an abstract log and an abstract queue |
| `Geofences` | ray casting over polygons, and ring closing |
| `AnomalyDetectors` | the z-score detector |
| `Downsamplers` | mean and largest-triangle downsampling |
| `IncrementalCompilers` | the reverse dependency index and its closure |
| `FeatureRollouts`, `FeatureFallbacks` | the hash, A/B assignment and percentage rollouts, and when assignment falls back |
| `RateLimiters` | the sliding-window limiter and the notification adapter |
| `RedisLocks` | the lock with a lifetime, over a store shared by many clients |
| `LoadBalancers` | round robin and least connections |
| `Sagas` | the stack of compensations |
| `MultipartStorages` | multipart uploads and range downloads |
| `SchemaEvolutions` | schema diff and its application |
| `SecretCaches` | the secrets cache |
| `Common`, `RealArithmetic`, `IntegerArithmetic` | shared vocabulary and arithmetic |

## How the models are made

- A component whose calls interleave is a step system: a state, a `Step` datatype with one
  constructor for each stretch of code between two awaits (or each event of the
  environment), a function `Next`, and runs over arbitrary step lists. A step that is not
  enabled leaves the state alone, so that a statement about all step lists is one about all
  interleavings. Saga calls are awaited one after another, so that there one call is one step.
- An object that changes its fields is a class with those fields. Its methods promise
  that their effect is the step of the system (`Model() == Next(old(Model()), ...)`), so that
  what is proved about runs holds of the object. Loops stay loops and are proved
  against a specification function.
- Clocks, random and generated ids, job and handler outcomes, compensations and the square
  root are parameters. Numbers are mathematical integers and reals, except the hash, whose
  arithmetic is done in a type that admits only exactly represented integers.
- The Kafka broker delivers one message at a time to a partition's owner, in order, starts an
  assignment without a committed offset at the start or the present end of the log as
  `fromBeginning` says, and refuses a commit from an assignment that is over. The RabbitMQ queue and the timers hand
  out copies in any order. The Redis store applies each command at one moment and treats an
  entry as gone when its lifetime is over.

## Where the code and its documentation differ

The models follow the code.

- `packages/eventsourcing/README.md:44` appends with `order.version`, which already counts the
  uncommitted events. The store accepts such an append exactly when somebody else has
  meanwhile appended as many events as the writer has; the example that works, in
  `examples/event-sourcing-example.ts:233`, uses the length of the loaded history.
- `packages/messaging-kafka/src/KafkaEventConsumer.ts:17` promises at-least-once delivery with manual
  commits. With `fromBeginning` false, the default, that holds from the first committed message
  on; what was written before it can be passed by, also after a crash before the first commit.
- `maxConcurrency` (`packages/scheduler/src/JobTypes.ts:76`) bounds the executions of a job per registration: each
  registration makes a new limiter, which does not count executions that are still running.
- `withdraw` accepts an amount that is zero or negative (`examples/event-sourcing-example.ts:99-103`).
- `extras/timeseries/src/Downsampler.ts:13-15` promises at most `targetPoints` points; LTTB returns two for a target
  below two when there are more points than that.
- `extras/features/src/TargetingEngine.ts:4-5` calls the hash safe for several hundred characters; it is safe for
  any length.
- `packages/notifications/src/RateLimiter.ts:22-23` advises to record after a successful send. Then the limit holds
  only as long as at most one caller of a key is between its check and its record; it always holds for the
  adapter, which records before the send.
- `packages/messaging-rabbitmq/src/RabbitMQEventConsumer.ts:16` describes the dead-letter queue as one for failed messages. The
  queue is declared with the dead-letter exchange, so that the broker also dead-letters the
  copy rejected before each retry.
- `packages/cache-redis/src/RedisLock.ts:4-5` says that only one caller can hold the lock at any time; that holds while no
  section outlives its lifetime, release being unconditional.
- `packages/secrets/src/CachedSecretsAdapter.ts:24` says that `set` evicts; it stores the new value. A `set`, `delete` or `rotate` that takes effect and
  then rejects leaves the cached value from before in place.
- A failed file leaves the incremental compiler's dirty set like any other
  (`extras/hotreload/src/IncrementalCompiler.ts:69`), and `success` depends on the errors passed in, not on those that
  concern the changed files (`extras/hotreload/src/IncrementalCompiler.ts:76`).
- `SagaTransaction.commit` does not keep a later `rollback` from compensating.

## Model

| member | source | states |
|---|---|---|
| `OptimisticWrites.Serializable` | packages/eventsourcing/src/EventStore.ts:66-79 | Under every interleaving of any number of writers that load, raise and append with the version they loaded, the store holds exactly what the committed units of work leave when run one after another, alone, with no command refused |
| `OptimisticWrites.EveryReachableStreamIsSound` | examples/event-sourcing-example.ts:78-122 | Every reachable stream replays at every prefix to a balance that is not negative, moves no money after a freeze, is opened at most by its first event, and holds only its own account's events |
| `OptimisticWrites.BalanceIsWhatWasCommitted` | examples/event-sourcing-example.ts:78-107 | Under every interleaving a stream's balance is the initial balances plus the deposit amounts less the withdrawal amounts that the committed units of work on it were asked for |
| `OptimisticWrites.CommandsAreCarriedOut` | examples/event-sourcing-example.ts:93-107 | In any state a deposit is accepted exactly when the account is not frozen and the amount is positive, a withdrawal exactly when it is not frozen and the amount is covered, a freeze always; each refusal has its reason, and an accepted command moves the balance by exactly its amount |
| `OptimisticWrites.ExecuteNotesTheCommand` | examples/event-sourcing-example.ts:93-107 | A command in the hands of a writer either changes nothing or moves the balance by its amount and is noted as the next command of the unit of work; no stream and no other writer changes |
| `OptimisticWrites.OpenAndLoadNoteTheirBase` | examples/event-sourcing-example.ts:78-89 | Opening gives a fresh account with the initial balance, or changes nothing when that is negative; loading gives the replay of the whole stream and its length |
| `OptimisticWrites.AppendExtendsWhatWasDecided` | packages/eventsourcing/src/EventStore.ts:66-79 | An append succeeds exactly when the stream has not grown since the writer loaded it; it then extends the very history the writer decided on, so that replaying gives the writer's state; otherwise nothing changes |
| `OptimisticWrites.StaleStaysStale` | packages/eventsourcing/src/EventStore.ts:66-70 | Once another writer got in first, every further append by this one fails and changes nothing until it loads again, whatever it and the others do in between |
| `OptimisticWrites.DocumentedVersionExtendsOnlyNothing` | packages/eventsourcing/README.md:44 | Appending with the aggregate's own `version`, when accepted, extends the history decided on exactly when there is nothing to append |
| `OptimisticWrites.DocumentedVersionStoresNothing` | packages/eventsourcing/README.md:44 | If every writer appends with its own `version`, no run ever stores an event: an append is accepted only when there is nothing to append |
| `OptimisticWrites.OneDocumentedWriterOverdraws` | packages/eventsourcing/README.md:44 | In a run with writers of both kinds, one that uses that version has its withdrawal accepted because another's got in first, and the stream replays to a debt |
| `OptimisticWrites.RunKeepsInv` | packages/eventsourcing/src/EventSourcedAggregate.ts:71-86 | In every run each writer's state, version and uncommitted events are those of replaying the prefix it loaded and then its own decisions |
| `OptimisticWrites.NextOnlyGrows` | packages/eventsourcing/src/EventStore.ts:66-79 | No step ever removes or rewrites an event of any stream |
| `OptimisticWrites.SerialRunIsSound` | examples/event-sourcing-example.ts:78-122 | Units of work that run one after another keep every stream sound |
| `OptimisticWrites.RaisedEventsKeepSound` | examples/event-sourcing-example.ts:78-107 | Any list of commands accepted one by one on a sound history extends it to a sound one |
| `BankAccounts.DecidedEventKeepsSound` | examples/event-sourcing-example.ts:78-107 | An event that a command decides on, given the replayed history, keeps the stream sound |
| `BankAccounts.FrozenIffFreezeRecorded` | examples/event-sourcing-example.ts:111-122 | A replayed account is frozen exactly when its history holds a freeze |
| `BankAccounts.ReplayConcat` | packages/eventsourcing/src/EventSourcedAggregate.ts:71-76 | Replaying a history in two instalments gives the same state as in one |
| `BankAccounts.ProjectionAgrees` | examples/event-sourcing-example.ts:149-177 | The read model agrees with the aggregate on owner, balance and freeze for every stream |
| `BankAccounts.MoneyIsConserved` | examples/event-sourcing-example.ts:160-176 | In the read model of an account opened at most first, the balance is the opening balance plus deposits less withdrawals |
| `BankAccounts.ProjectionCounts` | examples/event-sourcing-example.ts:163-172 | The totals of the read model are the sums of the deposits and of the withdrawals of the stream, and it counts one transaction for each |
| `BankAccounts.BankAccount.Open` | examples/event-sourcing-example.ts:78-83 | Opening either throws for a negative balance or leaves one uncommitted event, applied, at version 1 |
| `BankAccounts.BankAccount.Execute` | examples/event-sourcing-example.ts:93-107 | From the fields before the call: which commands are refused and why; a deposit adds and a withdrawal takes exactly its amount, a freeze only freezes; one event is queued and one version counted, or nothing changes |
| `BankAccounts.BankAccount.Raise` | packages/eventsourcing/src/EventSourcedAggregate.ts:82-86 | Raising applies the event, counts it and queues it |
| `BankAccounts.BankAccount.LoadFromHistory` | packages/eventsourcing/src/EventSourcedAggregate.ts:71-76 | Loading replays the whole history onto the fields and counts every event |
| `BankAccounts.BankAccount.MarkCommitted` | packages/eventsourcing/src/EventSourcedAggregate.ts:63-65 | Marking committed empties the queue and nothing else |
| `BankAccounts.BankAccount.Apply` | examples/event-sourcing-example.ts:111-122 | The fields change as the event says, once |
| `BankAccounts.BankAccount.constructor` | examples/event-sourcing-example.ts:68-74 | A blank account at version 0 with nothing to commit |
| `EventStores.SubscriberSeesTheAppend` | packages/eventsourcing/src/EventStore.ts:73-77 | A handler subscribed once is called with exactly the appended events, in order; one not subscribed is not called |
| `EventStores.CallsAreInOrder` | packages/eventsourcing/src/EventStore.ts:73-77 | The appended events are announced one after the other, each to all handlers in the order of their subscriptions |
| `EventStores.InMemoryEventStore.Append` | packages/eventsourcing/src/EventStore.ts:66-79 | A conflict reports both versions and changes nothing; otherwise the stream grows by the events and every handler is told of every event in turn |
| `EventStores.InMemoryEventStore.GetEvents` | packages/eventsourcing/src/EventStore.ts:81-84 | The stream from a version on, negative and excessive versions as `slice` treats them |
| `EventStores.InMemoryEventStore.Subscribe` | packages/eventsourcing/src/EventStore.ts:86-87 | The handler joins the end of the list |
| `EventStores.InMemoryEventStore.Unsubscribe` | packages/eventsourcing/src/EventStore.ts:88-93 | The first entry of the handler goes, and only that; without one nothing changes |
| `Schedulers.EveryReachableStateIsConsistent` | packages/scheduler/src/InMemoryScheduler.ts:125-205 | In every state reachable by interleaved triggers, attempts, delays that end or reject, finishes, registrations and removals: total = succeeded + failed + active, each counter is the number of records in that status, the histories partition the records, every limiter's count is the number of unfinished executions started under it and not over its maximum, and each execution's calls and delays so far fit its attempt |
| `SchedulerLimits.NoMoreThanTheMaximum` | packages/scheduler/src/InMemoryScheduler.ts:125-150 | In every run that registers a job only while none of its executions is unfinished, no more than its maximum run at a time |
| `SchedulerLimits.MaximumCanBeExceededExactlyWhen` | packages/scheduler/src/InMemoryScheduler.ts:125-133 | After any run, registering a job lets its executions exceed its maximum before the next registration exactly when some are unfinished at that moment |
| `SchedulerLimits.RunKeepsOneLimiter` | packages/scheduler/src/InMemoryScheduler.ts:125-150 | In such runs every unfinished execution of a registered job was started under the limiter of that registration |
| `Schedulers.LeavesRunningExactlyOnce` | packages/scheduler/src/InMemoryScheduler.ts:188-200 | Over any run a record leaves `running` once if it is finished and never otherwise |
| `Schedulers.FinishedRecordIsFinal` | packages/scheduler/src/InMemoryScheduler.ts:188-200 | A finished record never changes or disappears, and a record first appears as running |
| `SchedulerOutcomes.EveryRecordIsTold` | packages/scheduler/src/InMemoryScheduler.ts:57-65 | In every reachable state each record is what the steps of the run tell: the job as registered at its trigger and that moment; finished by the finalization that took effect, at its time; succeeded exactly when the last thing it awaited was an attempt without failure; else failed with the failure of the last permitted attempt, of the delay that rejected before it, or with no attempt for a negative maxRetries |
| `SchedulerOutcomes.EveryExecutionIsTold` | packages/scheduler/src/InMemoryScheduler.ts:75-93 | The same for executions in flight: how many attempts have ended, and what is awaited next |
| `SchedulerOutcomes.FinalizationTakesEffect` | packages/scheduler/src/InMemoryScheduler.ts:188-200 | An execution whose last attempt succeeded, or that has given up, is recorded as succeeded or failed with its reason by the next finalization |
| `Schedulers.HistoryIsExactlyTheJobsRecords` | packages/scheduler/src/InMemoryScheduler.ts:202-218 | A job's history is every record of that job, once, in the order they started |
| `Schedulers.IdleMeansSettled` | packages/scheduler/src/InMemoryScheduler.ts:161-200 | With nothing in flight every limiter is free and every execution has an outcome |
| `Schedulers.TriggerKeepsInv` | packages/scheduler/src/InMemoryScheduler.ts:139-159 | A trigger that passes its limiter keeps all the books |
| `Schedulers.FinalizeKeepsInv` | packages/scheduler/src/InMemoryScheduler.ts:188-200 | Finishing, also after the job was unregistered or registered anew, keeps all the books |
| `Schedulers.AttemptKeepsRetries` | packages/scheduler/src/InMemoryScheduler.ts:75-93 | An attempt that ends keeps calls, attempt number and accumulated delays in step |
| `Schedulers.DoublingDelay` | packages/scheduler/src/InMemoryScheduler.ts:89 | The delays before attempt n add up to backoff times (2 to the n, less one) |
| `SchedulerObjects.SettleOutcome` | packages/scheduler/src/InMemoryScheduler.ts:75-93 | A run returns at the first permitted attempt that succeeds before any delay has rejected; otherwise it fails with the error of the delay that rejected, or of the last attempt after maxRetries + 1 calls |
| `SchedulerObjects.Retry` | packages/scheduler/src/InMemoryScheduler.ts:75-93 | The retry loop ends as that outcome says, having asked for one delay per failed attempt it went on from, each double the one before; a delay that rejects ends it |
| `SchedulerObjects.RunWithRetries` | packages/scheduler/src/InMemoryScheduler.ts:75-93 | Defaults of no retries and 100 ms; with a negative maxRetries the job is never called and the run fails |
| `SchedulerObjects.ConcurrencyLimiter.Allows` | packages/scheduler/src/ConcurrencyLimiter.ts:21-23 | Allowed exactly while the count is below the maximum |
| `SchedulerObjects.ConcurrencyLimiter.AcquireFor` | packages/scheduler/src/ConcurrencyLimiter.ts:26-28 | The key's count grows by one, the others stay |
| `SchedulerObjects.ConcurrencyLimiter.ReleaseFor` | packages/scheduler/src/ConcurrencyLimiter.ts:31-34 | The key's count falls by one unless it is zero |
| `SchedulerObjects.ConcurrencyLimiter.GetCount` | packages/scheduler/src/ConcurrencyLimiter.ts:37-39 | The count of a key, zero when unknown |
| `SchedulerObjects.ConcurrencyLimiter.Reset` | packages/scheduler/src/ConcurrencyLimiter.ts:42-44 | Every count is zero again |
| `SchedulerObjects.InMemoryScheduler.RegisterJob` | packages/scheduler/src/InMemoryScheduler.ts:125-128 | The object's step is the step system's; a duplicate id is refused |
| `SchedulerObjects.InMemoryScheduler.UnregisterJob` | packages/scheduler/src/InMemoryScheduler.ts:130-133 | The object's step is the step system's; an unknown id is refused |
| `SchedulerObjects.InMemoryScheduler.TriggerJob` | packages/scheduler/src/InMemoryScheduler.ts:139-159 | The object's step is the step system's; unknown jobs and full limiters are reported and change nothing |
| `SchedulerObjects.InMemoryScheduler.TakeSlot` | packages/scheduler/src/InMemoryScheduler.ts:146-150 | The limiter of the job at that moment is checked and, if it allows, acquired |
| `SchedulerObjects.InMemoryScheduler.Begin` | packages/scheduler/src/InMemoryScheduler.ts:152-158 | A fresh id, its running record, its place in the history, and one more active execution |
| `SchedulerObjects.InMemoryScheduler.FinalizeRun` | packages/scheduler/src/InMemoryScheduler.ts:188-200 | The object's step is the step system's; the limiter released is the one acquired at the start |
| `SchedulerObjects.InMemoryScheduler.constructor` | packages/scheduler/src/InMemoryScheduler.ts:113-123 | The step system's start |
| `KafkaConsumers.CommittedMeansSettled` | packages/messaging-kafka/src/KafkaEventConsumer.ts:147-237 | Over all runs with handler failures, failed commits, crashes, rebalances and rewinds at any await, each offset from the first committed one (with `fromBeginning`, from 0) up to the committed one was readable and has no handler or an event id that was handled successfully |
| `KafkaConsumers.NothingIsLostExactlyWhen` | packages/messaging-kafka/src/KafkaEventConsumer.ts:89-92 | Every message below the committed offset is settled in all runs exactly when the consumer starts from the beginning or the logs hold no message that a later one can pass: one that cannot be read, or has a handler and an id the later one does not share |
| `KafkaConsumers.DefaultStartPassesMessages` | packages/messaging-kafka/src/KafkaConfig.ts:234 | With the default start, any such message is passed by in some run: the member restarts before anything was committed and goes on at the end of the log |
| `KafkaConsumers.CommittedMessageWasHandled` | packages/messaging-kafka/src/KafkaEventConsumer.ts:197-218 | At least once: when event ids are unique, each committed message with a handler, from the first committed one on (with `fromBeginning`, from 0), was itself handled successfully |
| `KafkaConsumers.GarbledMessageBlocksItsPartition` | packages/messaging-kafka/src/KafkaEventConsumer.ts:151 | A message that does not parse is never passed by a run whose first committed offset is not beyond it, and with `fromBeginning` by none |
| `KafkaConsumers.HandledTwiceOnlyFarApart` | packages/messaging-kafka/src/KafkaEventConsumer.ts:154-207 | Without a restart, between two handlings of one id lie 10000 handlings of different other ids |
| `KafkaConsumers.ProcessedIdsAreTheLatest` | packages/messaging-kafka/src/KafkaEventConsumer.ts:200-207 | The set of processed ids holds at most 10000 distinct ids: the latest ones handled since the start |
| `KafkaConsumers.DeliveryCallsExactlyTheNew` | packages/messaging-kafka/src/KafkaEventConsumer.ts:147-197 | In every reachable state a delivery calls the handler exactly when the message has one and its id is not among the last 10000 that this member handled since it started; any other readable message, a duplicate included, goes straight to its commit; an unreadable one changes nothing |
| `KafkaConsumers.ReadableMessageIsCommitted` | packages/messaging-kafka/src/KafkaEventConsumer.ts:147-218 | From every reachable state one delivery that ends well takes a partition past a readable message, a duplicate included: the committed offset is then just behind it, and its handler has succeeded once more exactly if it had to be called |
| `KafkaConsumers.CommitMovesPast` | packages/messaging-kafka/src/KafkaEventConsumer.ts:209-218 | A commit that the broker takes moves the committed offset to the one after the message and nothing else |
| `KafkaConsumers.HandlerIsRecorded` | packages/messaging-kafka/src/KafkaEventConsumer.ts:197-207 | A handler that succeeds is recorded once and its message goes on to the commit; one that fails leaves the member as if the message had not come |
| `KafkaConsumers.RunKeepsInv` | packages/messaging-kafka/src/KafkaEventConsumer.ts:147-237 | The invariant behind these: processed ids were handled, a running handler has an unprocessed message, pending commits point at settled offsets and skip none, and stale assignments cannot commit |
| `KafkaConsumers.KafkaEventConsumer.HandleMessage` | packages/messaging-kafka/src/KafkaEventConsumer.ts:147-237 | From the fields before the call: the handler is called exactly for a readable message with a handler and a new id; the call rethrows exactly when parsing, that handler or a manual commit fails; otherwise a manual commit is of the next offset, for duplicates too; the set grows exactly by a handler that succeeded |
| `KafkaConsumers.KafkaEventConsumer.Commit` | packages/messaging-kafka/src/KafkaEventConsumer.ts:209-218 | The next offset is committed exactly in manual mode while connected; a failed commit rethrows |
| `KafkaConsumers.KafkaEventConsumer.Subscribe` | packages/messaging-kafka/src/KafkaEventConsumer.ts:56-63 | Refused and without effect once running |
| `KafkaConsumers.KafkaEventConsumer.Stop` | packages/messaging-kafka/src/KafkaEventConsumer.ts:121-140 | A running, connected consumer stops and forgets the processed ids, unless stopping throws, which is passed on and changes nothing; otherwise nothing happens |
| `RabbitConsumers.OneCopyOrOneEnd` | packages/messaging-rabbitmq/src/RabbitMQEventConsumer.ts:136-285 | In every crash-free run each published message has exactly one live copy (queued, delivered or on a timer) or exactly one end, never both |
| `RabbitConsumers.EveryLineageIsBounded` | packages/messaging-rabbitmq/src/RabbitMQEventConsumer.ts:196-248 | A message is delivered, and its handler called, at most maxRetries + 1 times counting its header; the dead-letter queue holds one copy for each failed delivery |
| `RabbitConsumers.EndsWithoutSuccessOnlyWhenExhausted` | packages/messaging-rabbitmq/src/RabbitMQEventConsumer.ts:185-189 | A message that ends without acknowledgement has failed maxRetries + 1 times, is dead-lettered exactly when that is enabled and otherwise dropped, and its delays add up to retryDelay times (2 to the maxRetries, less one) |
| `RabbitConsumers.AcknowledgedLeavesDeadLetters` | packages/messaging-rabbitmq/src/RabbitMQEventConsumer.ts:290-302 | A message that ends acknowledged leaves a copy in the dead-letter queue exactly when that is enabled and it was delivered more than once |
| `RabbitConsumers.DeadLetterOfAnAcknowledgedExactlyWhen` | packages/messaging-rabbitmq/src/RabbitMQEventConsumer.ts:219-248 | Some run of a configuration leaves a dead letter of an acknowledged message exactly when it enables dead-lettering and retrying, allows at least one retry and has some handler |
| `RabbitConsumers.SuccessOnTheSecondAttemptIsDeadLettered` | packages/messaging-rabbitmq/src/RabbitMQEventConsumer.ts:219-248 | When retrying with at least one retry and dead-lettering are both enabled, every message with a handler has a run in which it fails once, is then acknowledged, and leaves one dead letter |
| `RabbitConsumers.DeliveryCallsExactlyTheNew` | packages/messaging-rabbitmq/src/RabbitMQEventConsumer.ts:136-160 | In every reachable state a delivery calls the handler exactly for a readable message with a handler whose id is not among the last 10000 to enter the set; a duplicate or an unwanted message ends acknowledged without a call, an unreadable one fails without a call |
| `RabbitConsumers.ProcessedIdsAreTheLatest` | packages/messaging-rabbitmq/src/RabbitMQEventConsumer.ts:162-171 | The set of processed ids is at any moment the last 10000 ids to have entered it |
| `RabbitConsumers.HandledTwiceOnlyFarApart` | packages/messaging-rabbitmq/src/RabbitMQEventConsumer.ts:142-171 | Of two successful handlings of one id, either the second copy was in hand before the first ended, or between some handling up to the first and the second call 10000 different other ids were handled |
| `RabbitConsumers.ARepeatDoesNotRenew` | packages/messaging-rabbitmq/src/RabbitMQEventConsumer.ts:162-171 | Counting from the first of the two would be too much: an id handled again while it is known keeps its old place in the set, and some run handles it once more after a single other id |
| `Envelopes.ForgottenAfter` | packages/messaging-rabbitmq/src/RabbitMQEventConsumer.ts:162-171 | A list of handlings after which an id is no longer known holds 10000 different other ids after some handling of it |
| `RabbitConsumers.FailureKeepsInv` | packages/messaging-rabbitmq/src/RabbitMQEventConsumer.ts:181-190 | A failed delivery replaces the copy by a timer or ends the lineage, and keeps all counts |
| `RabbitConsumers.RunKeepsInv` | packages/messaging-rabbitmq/src/RabbitMQEventConsumer.ts:136-285 | Every lineage's deliveries, calls, failures, delays and dead letters match its copy's retry count, in every run |
| `RabbitConsumers.RabbitMQEventConsumer.HandleMessage` | packages/messaging-rabbitmq/src/RabbitMQEventConsumer.ts:136-191 | From the fields before the call: the handler is called exactly for a readable message with a handler and a new id; a failure retries with the doubled delay and the next count while retries are left, and is then dead-lettered or dropped; everything else is acknowledged; the set grows exactly by a handler that succeeded |
| `RabbitConsumers.RabbitMQEventConsumer.Fail` | packages/messaging-rabbitmq/src/RabbitMQEventConsumer.ts:184-189 | Retry below the limit with the doubled delay, else dead letter, else drop |
| `Geofences.RotationKeepsParity` | extras/geospatial/src/Geofence.ts:65-75 | The ray-cast answer does not depend on the vertex the ring starts with |
| `Geofences.ReversalKeepsParity` | extras/geospatial/src/Geofence.ts:65-75 | The ray-cast answer does not depend on the ring's orientation |
| `Geofences.ClosingKeepsTheAnswer` | extras/geospatial/src/GeoJSONIO.ts:45-53 | Closing any ring, short ones included, does not change whether a point is inside |
| `Geofences.OutsideTheBoxIsOutside` | extras/geospatial/src/Geofence.ts:41-75 | A point outside a box that holds every vertex is never inside the ring: crossings around a cycle are even |
| `Geofences.ChordSplitsParity` | extras/geospatial/src/Geofence.ts:65-75 | Cut along a chord, a point is inside the whole exactly when it is inside one part and not the other, boundaries included |
| `Geofences.RectangleIsHalfOpen` | extras/geospatial/src/Geofence.ts:65-75 | For an upright rectangle the answer is membership of the half-open rectangle |
| `Geofences.TriangleIsInterior` | extras/geospatial/src/Geofence.ts:65-75 | For any triangle, flat ones included, and any point off its boundary, the ray cast is the half-plane test: inside exactly when the point is on the same side of all three edges |
| `Geofences.InsideIsEvenOdd` | extras/geospatial/src/Geofence.ts:32-36 | What isInsidePolygon answers, for every polygon and whatever its holes: nothing is inside fewer than three positions, and off the fan of the exterior ring a point is inside exactly when an odd number of its triangles hold it |
| `Geofences.RectangleFromPoints` | extras/geospatial/src/Geofence.ts:32-36 | The polygon that toPolygon builds from the corners of a box holds exactly the points of the box off its north and east sides |
| `Geofences.TriangleFromPoints` | extras/geospatial/src/Geofence.ts:32-36 | The polygon that toPolygon builds from three points holds, off their edges, exactly the points on one side of all three |
| `Geofences.NothingIsInsideOutsideTheBox` | extras/geospatial/src/Geofence.ts:32-36 | A point outside a box that holds the exterior ring is never inside the polygon |
| `Geofences.BoxHoldsItsSides` | extras/geospatial/src/Geofence.ts:41-48 | A point is inside a bounding box exactly when it is its own nearest point of the box, sides included |
| `Geofences.RayCastIsEvenOdd` | extras/geospatial/src/Geofence.ts:65-75 | For every ring, convex or not, and every point off the edges of the fan of triangles from its first vertex, the answer is inside exactly when an odd number of these triangles hold the point |
| `Geofences.CrossesToTheLeft` | extras/geospatial/src/Geofence.ts:68-71 | A straddling edge is crossed exactly when the point lies to the left of its upward direction |
| `Geofences.EdgeHasNoDirection` | extras/geospatial/src/Geofence.ts:69-72 | Whether the ray crosses an edge does not depend on the order of its ends |
| `Geofences.MeetsBetweenTheEnds` | extras/geospatial/src/Geofence.ts:71 | An edge that straddles the latitude meets it between the longitudes of its ends |
| `Geofences.PathJoin` | extras/geospatial/src/Geofence.ts:68-73 | The crossings of two paths joined are those of both and of the edge between |
| `Geofences.PolygonRoundTrip` | extras/geospatial/src/GeoJSONIO.ts:45-97 | Section 3.1.6 of RFC 7946: the ring starts and ends alike, reading back gives the points with the first repeated when the ring was open, and closing twice is closing once |
| `Geofences.RayCast` | extras/geospatial/src/Geofence.ts:65-75 | The loop that toggles per edge gives the parity of the crossings around the ring |
| `Geofences.IsInsidePolygon` | extras/geospatial/src/Geofence.ts:32-36 | False without an exterior ring of three positions, else the parity of its crossings |
| `Geofences.ToPolygon` | extras/geospatial/src/GeoJSONIO.ts:45-53 | One ring of swapped coordinates, closed if it was open |
| `AnomalyDetectors.FlaggedAtMost` | extras/data-quality/src/AnomalyDetector.ts:21-64 | For n numeric values and a positive threshold t, k flagged records satisfy k times t squared <= n (Chebyshev) |
| `AnomalyDetectors.DetectsExactlyTheFarOff` | extras/data-quality/src/AnomalyDetector.ts:21-48 | The reported records are exactly those that stand, in the order of the input, where the value is a number further from the mean than the threshold allows, in terms of squares, provided there are two values and they are not all the same |
| `AnomalyDetectors.ReportedAsOftenAsItOccurs` | extras/data-quality/src/AnomalyDetector.ts:21-48 | A record that should be reported is reported as often as it occurs, and no other ever |
| `AnomalyDetectors.SmallSetsAreNeverFlagged` | extras/data-quality/src/AnomalyDetector.ts:21-64 | When n - 1 <= t squared nothing is flagged |
| `AnomalyDetectors.LargerSetsCanBeFlagged` | extras/data-quality/src/AnomalyDetector.ts:21-64 | For every n of at least two with n - 1 > t squared some records are flagged, so the bound is exact |
| `AnomalyDetectors.DefaultThresholdNeedsElevenValues` | extras/data-quality/src/AnomalyDetector.ts:17 | The default threshold 3 never flags among ten or fewer numeric values |
| `AnomalyDetectors.SamuelsonBound` | extras/data-quality/src/AnomalyDetector.ts:57-64 | No value is further from the mean than the square root of n - 1 population deviations |
| `AnomalyDetectors.CauchySchwarz` | extras/data-quality/src/AnomalyDetector.ts:61-64 | The square of a sum of deviations is at most their number times the sum of their squares |
| `AnomalyDetectors.Detect` | extras/data-quality/src/AnomalyDetector.ts:21-49 | Fewer than two numeric values or no spread give no anomalies; otherwise exactly the records over the threshold, in order; all records count as checked |
| `Downsamplers.LttbKeepsOnePerBucket` | extras/timeseries/src/Downsampler.ts:63-150 | For 3 <= target < n LTTB keeps exactly target points: the first, the last and, strictly increasing, one of each bucket, each the first to span the largest triangle with the previous pick and the next average |
| `Downsamplers.EveryItemHasOneBucket` | extras/timeseries/src/Downsampler.ts:90-94 | The floor buckets partition the items: each lies in exactly one |
| `Downsamplers.CutsAdvance` | extras/timeseries/src/Downsampler.ts:90-94 | With no more buckets than items no bucket is empty |
| `Downsamplers.CutIsQuotient` | extras/timeseries/src/Downsampler.ts:90-94 | The real-valued floor of the bucket bound is the whole quotient |
| `Downsamplers.BestIsFirstMaximum` | extras/timeseries/src/Downsampler.ts:115-139 | The point kept is the first with the largest triangle |
| `Downsamplers.PicksSpanLargest` | extras/timeseries/src/Downsampler.ts:63-139 | Each pick spans the largest triangle of its bucket with the pick before it |
| `Downsamplers.AreaIsHalfTheParallelogram` | extras/timeseries/src/Downsampler.ts:141-150 | The area is half the absolute cross product of two sides |
| `Downsamplers.AverageIsTheMean` | extras/timeseries/src/Downsampler.ts:96-113 | The point that the next pick is compared with: the means over the next bucket, or the last point after the last bucket |
| `Downsamplers.MeansConserveTheTotal` | extras/timeseries/src/Downsampler.ts:26-59 | The means, weighted by the values they stand for, add up to the sum of all numeric values |
| `Downsamplers.MeanPointStandsForTheBucket` | extras/timeseries/src/Downsampler.ts:44-59 | A mean point has the mean of the bucket's times rounded half up, its first measurement, and the mean of its numbers as its one field |
| `Downsamplers.EachMeanIsOfItsBucket` | extras/timeseries/src/Downsampler.ts:31-40 | With at least as many points as buckets the i-th output is that of the i-th bucket |
| `Downsamplers.OutputSize` | extras/timeseries/src/Downsampler.ts:12-22 | The mean gives min(n, max(target, 0)) points; LTTB gives at most target exactly when n <= target or target >= 2 |
| `Downsamplers.MaxAreaPoint` | extras/timeseries/src/Downsampler.ts:115-139 | The loop finds that point; an empty bucket has none |
| `Downsamplers.LttbDownsample` | extras/timeseries/src/Downsampler.ts:63-88 | The loop over buckets gives the points at the picked places |
| `Downsamplers.PickFromBuckets` | extras/timeseries/src/Downsampler.ts:76-84 | The loop keeps one point for each bucket that is not empty |
| `Downsamplers.MeanDownsample` | extras/timeseries/src/Downsampler.ts:26-42 | One mean for each bucket that is not empty, none for a target of zero or less |
| `Downsamplers.MeanOfBuckets` | extras/timeseries/src/Downsampler.ts:34-40 | The loop pushes one mean for each bucket that is not empty |
| `Downsamplers.OneMeanPerBucket` | extras/timeseries/src/Downsampler.ts:31-40 | With no more buckets than points every bucket gives a mean |
| `Downsamplers.Downsample` | extras/timeseries/src/Downsampler.ts:17-22 | Short inputs are returned unchanged, others by the chosen algorithm |
| `IncrementalCompilers.EveryReachableIndexIsComplete` | extras/hotreload/src/IncrementalCompiler.ts:45-56 | After any registrations, marks, compiles and invalidations every registered importer appears once among the dependents of each registered file it imports |
| `IncrementalCompilers.ImportersAreRecompiled` | extras/hotreload/src/IncrementalCompiler.ts:51-78 | Mark a registered file in any reachable state, then do anything but compile: the next compile recompiles every file that transitively imported it when it was marked, unless that file has an error |
| `IncrementalCompilers.DirtyExactlySinceTheLastCompile` | extras/hotreload/src/IncrementalCompiler.ts:51-112 | A file is dirty exactly when a mark reached it, or an invalidation found it registered, and no compile or invalidation followed; a failed file is forgotten |
| `IncrementalCompilers.ImportersAreReached` | extras/hotreload/src/IncrementalCompiler.ts:18-37 | Marking a registered file reaches all its transitive importers, however cyclic the imports |
| `IncrementalCompilers.OnlyImportersAreReached` | extras/hotreload/src/IncrementalCompiler.ts:18-37 | While no dependent is stale, marking reaches exactly the transitive importers |
| `IncrementalCompilers.NothingElseIsReachedExactlyWhen` | extras/hotreload/src/IncrementalCompiler.ts:18-37 | Marking reaches nothing but transitive importers exactly when every listed dependent still imports the file, directly or through others |
| `IncrementalCompilers.NoStaleExactlyWhenNothingIsDropped` | extras/hotreload/src/IncrementalCompiler.ts:45-48 | No dependent is stale at any moment of a run exactly when no registration of it drops an import of a registered file |
| `IncrementalCompilers.MarksAreExact` | extras/hotreload/src/IncrementalCompiler.ts:45-56 | In runs that drop no import, a mark of a registered file makes dirty exactly its transitive importers |
| `IncrementalCompilers.MarksAreExactExactlyWhen` | extras/hotreload/src/IncrementalCompiler.ts:14-56 | At every moment of a run a mark of any registered file would reach exactly its transitive importers, exactly when no registration of the run cuts a file off from a registered file that it imported |
| `IncrementalCompilers.DependentsImportExactlyWhenNotCutOff` | extras/hotreload/src/IncrementalCompiler.ts:14-43 | A registration first lists a dependent that does not transitively import its file exactly when it drops an import of a registered file that no chain of the new imports replaces |
| `IncrementalCompilers.MarkingIsCompleteExactlyWhen` | extras/hotreload/src/IncrementalCompiler.ts:51-56 | Marking reaches all transitive importers exactly when the file is registered or nothing imports it |
| `IncrementalCompilers.StaleExactlyWhenAnImportIsDropped` | extras/hotreload/src/IncrementalCompiler.ts:45-48 | A registration leaves no stale dependents exactly when it keeps every registered import, other than itself, that the file had |
| `IncrementalCompilers.RegisterEffect` | extras/hotreload/src/IncrementalCompiler.ts:7-48 | A registration forgets the file's own dependents and adds every current importer, so that nothing else is lost |
| `IncrementalCompilers.RegisterKeepsGraphInv` | extras/hotreload/src/IncrementalCompiler.ts:45-48 | The index stays complete, without duplicates, over registered files only |
| `IncrementalCompilers.DirtyUntilCompiled` | extras/hotreload/src/IncrementalCompiler.ts:59-112 | Registered dirty files stay dirty through everything but a compile |
| `IncrementalCompilers.CollectAffected` | extras/hotreload/src/IncrementalCompiler.ts:18-37 | The worklist ends and returns, once each, exactly the files reachable over dependents |
| `IncrementalCompilers.Expand` | extras/hotreload/src/IncrementalCompiler.ts:28-33 | One file's dependents: the new ones join both the result and the queue, and the exploration stays exact |
| `IncrementalCompilers.IncrementalCompiler.Register` | extras/hotreload/src/IncrementalCompiler.ts:45-48 | The object's step is the step system's |
| `IncrementalCompilers.IncrementalCompiler.Reindex` | extras/hotreload/src/IncrementalCompiler.ts:7-16 | The loops over files and imports build the index file by file in insertion order |
| `IncrementalCompilers.IncrementalCompiler.Visit` | extras/hotreload/src/IncrementalCompiler.ts:9-14 | The inner loop adds one file to the dependents of what it imports |
| `IncrementalCompilers.IncrementalCompiler.MarkDirty` | extras/hotreload/src/IncrementalCompiler.ts:51-56 | The object's step is the step system's |
| `IncrementalCompilers.IncrementalCompiler.Compile` | extras/hotreload/src/IncrementalCompiler.ts:59-78 | The object's step is the step system's; the result lists the dirty files, those recompiled and the errors among them, and success means that no errors were passed in, related or not |
| `IncrementalCompilers.IncrementalCompiler.CompileAll` | extras/hotreload/src/IncrementalCompiler.ts:64-68 | Every changed file without an error is compiled and listed |
| `IncrementalCompilers.IncrementalCompiler.ErrorsAmong` | extras/hotreload/src/IncrementalCompiler.ts:75 | The errors about changed files, in order |
| `IncrementalCompilers.IncrementalCompiler.InvalidateAll` | extras/hotreload/src/IncrementalCompiler.ts:106-112 | The object's step is the step system's |
| `Common.KeepMembers` | extras/hotreload/src/IncrementalCompiler.ts:65-77 | A filtered list, as the recompiled files and the reported errors are, has exactly the members that pass, and each once if the list had each once |
| `FeatureRollouts.HashString` | extras/features/src/TargetingEngine.ts:7-13 | For input of any length the hash is the base-31 polynomial of all its code units modulo 2^31 - 1, and every intermediate value is an exactly represented integer below 2^53 |
| `FeatureRollouts.Horner` | extras/features/src/ABTestManager.ts:10-12 | One round of the loop takes the polynomial of a prefix to that of the next |
| `FeatureRollouts.ConstantsSpell` | extras/features/src/ABTestManager.ts:6-9 | The separator and the two default seeds are the strings of the code |
| `FeatureRollouts.AssignVariant` | extras/features/src/ABTestManager.ts:22-46 | No variant for an empty list or a zero total; otherwise the first whose cumulative weight exceeds the hash's remainder by the total, for the key built from the flag and the user, tenant or default seed |
| `FeatureRollouts.WeightsAreRespected` | extras/features/src/ABTestManager.ts:32-40 | For whole weights with a positive total each variant is chosen by exactly as many of the total's buckets as its weight, and by its share of all hash values to within one weight |
| `FeatureRollouts.HitsExactly` | extras/features/src/ABTestManager.ts:32-40 | How many of the first n hashes choose a variant, exactly, for every n |
| `FeatureRollouts.EachVariantOwnsAnInterval` | extras/features/src/ABTestManager.ts:34-40 | Without negative weights each variant owns exactly a half-open interval of buckets as long as its weight |
| `FeatureRollouts.FallbackIsNeverTaken` | extras/features/src/ABTestManager.ts:42-45 | With a positive total, whatever the signs of the weights, every hash finds a variant before the fallback |
| `FeatureFallbacks.EveryHashIsReached` | extras/features/src/ABTestManager.ts:6-14 | For every flag and every value of the hash some user id has it |
| `FeatureFallbacks.FallbackIsReachedExactlyWhen` | extras/features/src/ABTestManager.ts:32-45 | With whole weights of any sign and a total other than zero, some context of a flag falls through exactly when every cumulative weight stays below the number of buckets hashes can land in |
| `FeatureFallbacks.NegativeTotalsFallThrough` | extras/features/src/ABTestManager.ts:42-45 | For every flag, weights of 1 and -3 make some user fall through |
| `FeatureFallbacks.NoneAboveExactlyWhen` | extras/features/src/ABTestManager.ts:34-40 | The loop finds no variant for a bucket exactly when no cumulative weight exceeds it |
| `FeatureRollouts.EvaluateRollout` | extras/features/src/TargetingEngine.ts:77-85 | Included exactly when the hash modulo 100 of the flag and the rule's, user's, tenant's or default seed is below the percentage, so that raising the percentage excludes nobody |
| `FeatureRollouts.HashesInExactly` | extras/features/src/TargetingEngine.ts:77-85 | Of every hundred hashes exactly the percentage, rounded up and clamped to 0 and 100, is included |
| `RateLimiters.NeverMoreThanTheLimit` | packages/notifications/src/ManagedNotificationAdapter.ts:80-90 | However sends interleave, of the sends let through since the last reset no window of windowMs that ends at any time holds more than maxCount to one user on one channel |
| `RateLimiters.PruningLosesNothing` | packages/notifications/src/RateLimiter.ts:11-48 | The pruned lists answer like the full log since the last reset: a send is allowed exactly when fewer than maxCount sends to that user on that channel lie in the window |
| `RateLimiters.LetThroughExactlyWhen` | packages/notifications/src/ManagedNotificationAdapter.ts:80-90 | In every reachable state a send is let through, and noted for its own user and channel, exactly when the user has not opted out and fewer than the maximum lie in the window |
| `RateLimiters.RecordForgetsTheOld` | packages/notifications/src/RateLimiter.ts:54-61 | A record forgets exactly the times that have left the window |
| `RateLimiters.KeysAreDistinct` | packages/notifications/src/RateLimiter.ts:7-9 | No two channels or users share a window, whatever the user id |
| `RateLimiters.LateSendersKeepTheLimitExactlyWhen` | packages/notifications/src/RateLimiter.ts:22-61 | If the callers of one key check, send and record only after the send has succeeded, then over all runs with at most m of them under way between check and record, while time passes, no window holds more than the maximum exactly when m is at most 1, or the maximum or the window is not positive |
| `RateLimiters.LateSendersExceedByTheirNumber` | packages/notifications/src/RateLimiter.ts:22-61 | With at most m such callers under way, no window holds more than maxCount - 1 + max(m, 1) sends |
| `RateLimiters.LateSendersReachTheirBound` | packages/notifications/src/RateLimiter.ts:22-61 | For every m from 1 some such run puts maxCount - 1 + m sends into one window |
| `RateLimiters.RunKeepsInv` | packages/notifications/src/RateLimiter.ts:42-61 | In every run each stored list prunes like the full list of its key, and sends maxCount apart are a window apart in time |
| `RateLimiters.RateLimiter.IsAllowed` | packages/notifications/src/RateLimiter.ts:42-48 | Allowed exactly when the pruned list is shorter than maxCount |
| `RateLimiters.RateLimiter.Record` | packages/notifications/src/RateLimiter.ts:54-61 | The key's list is pruned and extended by the moment, the others stay |
| `RateLimiters.RateLimiter.GetCount` | packages/notifications/src/RateLimiter.ts:66-71 | The length of the pruned list |
| `RateLimiters.RateLimiter.Filter` | packages/notifications/src/RateLimiter.ts:11-13 | The times within the window, in order |
| `RateLimiters.RateLimiter.Reset` | packages/notifications/src/RateLimiter.ts:74-76 | No window is left |
| `RateLimiters.ManagedNotificationAdapter.Send` | packages/notifications/src/ManagedNotificationAdapter.ts:80-90 | Skipped when opted out or limited; otherwise recorded first, and passed on unless rendering throws |
| `RateLimiters.ManagedNotificationAdapter.Tally` | packages/notifications/src/ManagedNotificationAdapter.ts:95-103 | Sent, failed and skipped are the counts of those results, pending ones counted as skipped, and add up to all |
| `RedisLocks.AtMostOneInside` | packages/cache-redis/src/RedisLock.ts:61-94 | Over all runs of many clients with time, expiry, crashes and lost or late messages, if no section outlives its lock then at most one client is inside per key and each DEL that arrives removes its own client's entry |
| `RedisLocks.ExclusiveExactlyWhen` | packages/cache-redis/src/RedisLock.ts:22-94 | Over all runs whose locks have one lifetime and whose sections last at most L from grant to DEL, no two clients are ever inside the same section exactly when L is less than the lifetime, or the lifetime is not positive, so that none is granted |
| `RedisLocks.NoneJoinsBeforeTheDeadline` | packages/cache-redis/src/RedisLock.ts:61-64 | While a client inside has not outlived its lock, every SET for the key is refused |
| `RedisLocks.AWorkerThatStaysIsJoined` | packages/cache-redis/src/RedisLock.ts:83-94 | After any run, a client that goes on working is joined by any other that waits until the store gives the key away |
| `RedisLocks.TwoCanBeInside` | packages/cache-redis/src/RedisLock.ts:83-94 | From the start a run exists with two clients inside one key's section, one of which outlived its lock |
| `RedisLocks.ALateReleaseLetsAThirdIn` | packages/cache-redis/src/RedisLock.ts:73-75 | After any run with two clients inside, the unconditional DEL of one lets a third enter beside the other |
| `RedisLocks.TwoTimelyClientsCanBeInside` | packages/cache-redis/src/RedisLock.ts:73-75 | So a run exists with two clients inside of which neither has outlived its lock |
| `RedisLocks.RunKeepsInv` | packages/cache-redis/src/RedisLock.ts:61-94 | In timely runs whoever was granted a key and is within its time owns the stored entry |
| `RedisLocks.RedisLock.Acquire` | packages/cache-redis/src/RedisLock.ts:61-64 | Acquired exactly when the key is free and the lifetime positive; otherwise the store is unchanged |
| `RedisLocks.RedisLock.Release` | packages/cache-redis/src/RedisLock.ts:73-75 | The key goes, whoever stored it |
| `RedisLocks.RedisLock.WithLock` | packages/cache-redis/src/RedisLock.ts:83-94 | Refused without running the work; otherwise, however others leave the store meanwhile, the key is deleted from it whether the work returns or throws, as the steps of the system say |
| `LoadBalancers.WithoutReleasesItIsRoundRobin` | packages/discovery/src/LoadBalancer.ts:29-42 | Over distinct instances and without releases least connections visits them in turn, so that the counts are the even shares and differ by at most one |
| `LoadBalancers.PicksTheFirstLeastLoaded` | packages/discovery/src/LoadBalancer.ts:29-49 | After any picks and releases over any lists, a pick goes to the first of the offered instances with the fewest open connections, and a release counts exactly when one is open |
| `LoadBalancers.ConnectionsAreConserved` | packages/discovery/src/LoadBalancer.ts:26-53 | For every instance, connections plus counted releases equal picks |
| `LoadBalancers.InTurnIsEven` | packages/discovery/src/LoadBalancer.ts:6-11 | Visiting n instances in turn k times gives each the floor of k/n, and the first k mod n one more |
| `LoadBalancers.FirstLeast` | packages/discovery/src/LoadBalancer.ts:31-39 | The first instance with the fewest connections |
| `LoadBalancers.LeastConnectionsBalancer.Pick` | packages/discovery/src/LoadBalancer.ts:29-42 | The minimum search finds that instance and counts the connection; none for an empty list |
| `LoadBalancers.LeastConnectionsBalancer.Release` | packages/discovery/src/LoadBalancer.ts:44-49 | The object's step is the step system's |
| `LoadBalancers.LeastConnectionsBalancer.GetConnections` | packages/discovery/src/LoadBalancer.ts:51-53 | The connections of an instance, zero when unknown |
| `LoadBalancers.RoundRobinBalancer.Pick` | packages/discovery/src/LoadBalancer.ts:6-11 | The instance at the index, which then moves on around the list; nothing for an empty list |
| `LoadBalancers.RoundRobinBalancer.PickMany` | packages/discovery/src/LoadBalancer.ts:6-11 | From a new balancer any number of calls visits the instances in turn |
| `LoadBalancers.RoundRobinBalancer.Reset` | packages/discovery/src/LoadBalancer.ts:13-15 | The next call starts from the first instance |
| `Sagas.RollbackRestoresTheStart` | packages/saga/src/SagaTransaction.ts:36-75 | After any steps, completed, failed, timed out or refused, whose completed ones have inverse compensations, a rollback restores the world from before the first and attempts exactly the completed steps' compensations, once each, in reverse |
| `Sagas.StackIsWhatCompleted` | packages/saga/src/SagaTransaction.ts:36-49 | Over any calls the stack holds exactly the steps that completed, in order: no failed, timed-out or refused step is ever compensated |
| `Sagas.AThrowCostsOnlyItsOwnStep` | packages/saga/src/SagaTransaction.ts:61-75 | When every step works on its own resource, a compensation that throws costs only that resource: every other is put back |
| `Sagas.ASecondRollbackAttemptsNothingExactlyWhen` | packages/saga/src/SagaTransaction.ts:51-59 | In any state of any saga a second rollback attempts every compensation again, and none exactly when no step had completed |
| `Sagas.ASecondRollbackIsHarmlessExactlyWhen` | packages/saga/src/SagaTransaction.ts:51-59 | When every step works on its own resource, a second rollback leaves the world alone exactly when every compensation, applied twice to the value its resource had, does the same as once |
| `Sagas.UndoChangesNothingExactlyWhen` | packages/saga/src/SagaTransaction.ts:61-75 | A rollback leaves the world alone exactly when every compensation leaves its own resource alone |
| `Sagas.EachResourceIsCompensated` | packages/saga/src/SagaTransaction.ts:61-75 | A rollback turns each step's resource into what its compensation makes of it, whether it throws or not, and leaves the others alone |
| `Sagas.RestoringTwiceIsRestoringOnce` | packages/saga/src/SagaTransaction.ts:51-59 | When every compensation applied twice does the same as once, any further rollbacks, commits and refused steps leave the world as the first rollback left it |
| `Sagas.NothingMovesAfterTheEnd` | packages/saga/src/SagaTransaction.ts:41 | After a commit or a rollback no further step or commit changes the world or the stack |
| `Sagas.ASecondRollbackUndoesTooMuch` | packages/saga/src/SagaTransaction.ts:55-59 | A second rollback can take the world past its start |
| `Sagas.SagaTransaction.Step` | packages/saga/src/SagaTransaction.ts:36-49 | Refused by status, then by timeout, before the action runs; recorded exactly when the action does not throw |
| `Sagas.SagaTransaction.Commit` | packages/saga/src/SagaTransaction.ts:51-53 | The object's step is the step system's |
| `Sagas.SagaTransaction.Rollback` | packages/saga/src/SagaTransaction.ts:55-59 | The object's step is the step system's |
| `Sagas.SagaTransaction.RunCompensations` | packages/saga/src/SagaTransaction.ts:61-75 | The loop over the reversed copy attempts every compensation once, whatever throws |
| `MultipartStorages.MultipartRoundTrip` | packages/storage/src/InMemoryStorageAdapter.ts:143-184 | From any state, parts sent in any order, again and again and among other traffic, and completed with the part list in any order, store exactly the body they were split from, until the object is written again |
| `MultipartStorages.MergeInAnyOrder` | packages/storage/src/InMemoryStorageAdapter.ts:56-63 | Merging any permutation of the part list joins the chunks in the order of their numbers |
| `MultipartStorages.PartsAreTheLatestChunks` | packages/storage/src/InMemoryStorageAdapter.ts:158-169 | A running upload holds, for each number, the latest chunk sent; a number never sent counts as empty |
| `MultipartStorages.ObjectIsKept` | packages/storage/src/InMemoryStorageAdapter.ts:91-113 | An object stays as it is while nothing writes its key |
| `MultipartStorages.ObjectsAreWhatWasStored` | packages/storage/src/InMemoryStorageAdapter.ts:91-199 | Every run leaves under each key exactly what its steps say: the body last uploaded, the parts of the upload last completed in the order of their numbers, or nothing after a deletion or a clear |
| `MultipartStorages.OpenUploadsAreKnown` | packages/storage/src/InMemoryStorageAdapter.ts:143-189 | An upload is known exactly from its start until it is completed, aborted or cleared |
| `MultipartStorages.NegativeBoundsCountFromTheEnd` | packages/storage/src/InMemoryStorageAdapter.ts:103-108 | Range bounds below zero count from the end and stop at the start |
| `MultipartStorages.RangesGiveBackTheBody` | packages/storage/src/InMemoryStorageAdapter.ts:103-108 | Adjacent range downloads from the start to the end or beyond join to the body |
| `MultipartStorages.AdjacentRangesJoin` | packages/storage/src/InMemoryStorageAdapter.ts:103-108 | Adjacent range downloads join to the stretch they cover, clamped to the body |
| `MultipartStorages.BucketsCollideExactlyWhen` | packages/storage/src/InMemoryStorageAdapter.ts:87-89 | Objects of two buckets can share a key exactly when one name closed by the separator begins with the other closed by it |
| `MultipartStorages.PlainBucketsNeverCollide` | packages/storage/src/InMemoryStorageAdapter.ts:87-89 | Bucket names without the separator never collide |
| `MultipartStorages.SortSorts` | packages/storage/src/InMemoryStorageAdapter.ts:60 | The part numbers in ascending order, none lost |
| `MultipartStorages.SortedIsUnique` | packages/storage/src/InMemoryStorageAdapter.ts:60 | Two sorted lists of the same numbers are the same list, so that any sort gives the same order |
| `MultipartStorages.InMemoryStorageAdapter.Download` | packages/storage/src/InMemoryStorageAdapter.ts:103-108 | The body or the clamped range, or an error for a missing object |
| `MultipartStorages.InMemoryStorageAdapter.Upload` | packages/storage/src/InMemoryStorageAdapter.ts:91-101 | The object's step is the step system's |
| `MultipartStorages.InMemoryStorageAdapter.Delete` | packages/storage/src/InMemoryStorageAdapter.ts:110-113 | The object's step is the step system's |
| `MultipartStorages.InMemoryStorageAdapter.InitiateMultipartUpload` | packages/storage/src/InMemoryStorageAdapter.ts:143-156 | The object's step is the step system's |
| `MultipartStorages.InMemoryStorageAdapter.UploadPart` | packages/storage/src/InMemoryStorageAdapter.ts:158-169 | The object's step is the step system's; an unknown upload is an error |
| `MultipartStorages.InMemoryStorageAdapter.CompleteMultipartUpload` | packages/storage/src/InMemoryStorageAdapter.ts:171-184 | The object's step is the step system's; the size of the stored object, or an error for an unknown upload |
| `MultipartStorages.InMemoryStorageAdapter.MergeParts` | packages/storage/src/InMemoryStorageAdapter.ts:56-63 | The loop joins the chunks in sorted order |
| `MultipartStorages.InMemoryStorageAdapter.AbortMultipartUpload` | packages/storage/src/InMemoryStorageAdapter.ts:186-189 | The object's step is the step system's |
| `MultipartStorages.InMemoryStorageAdapter.Clear` | packages/storage/src/InMemoryStorageAdapter.ts:196-199 | The object's step is the step system's |
| `SchemaEvolutions.DiffReachesTheTarget` | extras/data-warehouse/src/SchemaEvolutionManager.ts:25-81 | Every statement of the diff is legal at its turn whichever others fail, and if none fails the live table ends with exactly the target's columns and types |
| `SchemaEvolutions.DiffAgainIsWhatFailed` | extras/data-warehouse/src/SchemaEvolutionManager.ts:25-81 | Apply while any statements fail and diff again: exactly the failed statements, in the same order |
| `SchemaEvolutions.RoundsLeaveWhatAlwaysFailed` | extras/data-warehouse/src/SchemaEvolutionManager.ts:25-81 | After any rounds of diffing and applying, what is left to do is exactly the changes of the first diff that failed in every round, in their order |
| `SchemaEvolutions.RoundsReachTheTargetExactlyWhen` | extras/data-warehouse/src/SchemaEvolutionManager.ts:25-81 | After any rounds the live table agrees with the target exactly when every change has succeeded in some round |
| `SchemaEvolutions.DiffIsEmptyExactlyWhen` | extras/data-warehouse/src/SchemaEvolutionManager.ts:25-60 | The diff is empty exactly when names and types agree; nullability is never compared |
| `SchemaEvolutions.DiffNamesEachColumnOnce` | extras/data-warehouse/src/SchemaEvolutionManager.ts:25-60 | No column is the subject of two changes |
| `SchemaEvolutions.LegalChangesFailOnlyWhenBad` | extras/data-warehouse/src/SchemaEvolutionManager.ts:67-81 | When every statement is legal, successes and outside failures add up to the changes |
| `SchemaEvolutions.ApplyDiff` | extras/data-warehouse/src/SchemaEvolutionManager.ts:67-96 | The live table after any pattern of failures, in closed form |
| `SchemaEvolutions.FromColumnsIsValid` | extras/data-warehouse/src/SchemaEvolutionManager.ts:26-27 | Of columns with the same name the last counts, in the place of the first |
| `SchemaEvolutions.GenerateDiff` | extras/data-warehouse/src/SchemaEvolutionManager.ts:25-60 | The three loops give the added, dropped and retyped columns in the order of their schemas |
| `SchemaEvolutions.ToMap` | extras/data-warehouse/src/SchemaEvolutionManager.ts:26-27 | The insertion-ordered map of the columns |
| `SchemaEvolutions.CollectAdds` | extras/data-warehouse/src/SchemaEvolutionManager.ts:30-39 | The columns only the target has, in its order |
| `SchemaEvolutions.CollectDrops` | extras/data-warehouse/src/SchemaEvolutionManager.ts:41-45 | The columns only the current schema has, in its order |
| `SchemaEvolutions.CollectAlters` | extras/data-warehouse/src/SchemaEvolutionManager.ts:47-57 | The columns of both whose types differ, in the current order |
| `SchemaEvolutions.Apply` | extras/data-warehouse/src/SchemaEvolutionManager.ts:67-81 | The loop carries on after failures; its record says which changes succeeded, and applied and failed add up to the changes |
| `SecretCaches.EveryAnswerWasOnceTrue` | packages/secrets/src/CachedSecretsAdapter.ts:42-75 | Whatever others write meanwhile, what `get` returns at t was the inner store's value at a moment in (t - ttl - lag, t], where lag bounds how long a call takes once the inner store has acted; with no lag, in (t - ttl, t] |
| `SecretCaches.ASlowReplyOutlivesItsLifetime` | packages/secrets/src/CachedSecretsAdapter.ts:49-55 | The lag is really lost: for every positive delay some run whose calls take no longer serves a value last held longer ago than ttl |
| `SecretCaches.LifetimeBoundsTheAgeExactlyWhen` | packages/secrets/src/CachedSecretsAdapter.ts:42-75 | Over all runs whose calls take at most lag, every answer was held in (t - ttl, t] exactly when lag is 0 (a lifetime below one millisecond counts as one) |
| `SecretCaches.ServedForItsLifetime` | packages/secrets/src/CachedSecretsAdapter.ts:42-75 | A secret that was read or set is served without asking exactly while its lifetime lasts; after a deletion or a rotation the inner store is asked |
| `SecretCaches.TheCacheIsInvisible` | packages/secrets/src/CachedSecretsAdapter.ts:42-75 | If all writes go through the adapter and none rejects, after it has taken effect, while the cache can still serve another value of its key, `get` returns what the inner store holds at that moment |
| `SecretCaches.InvisibleExactlyWhen` | packages/secrets/src/CachedSecretsAdapter.ts:42-75 | Without outside writes every answer at every moment of a run is the inner store's exactly when no write of the run rejects in that way |
| `SecretCaches.ARejectedSetLeavesAStaleAnswer` | packages/secrets/src/CachedSecretsAdapter.ts:59-65 | Such a run: a `set` takes effect and then rejects, and the value before it is served |
| `SecretCaches.RunKeepsInv` | packages/secrets/src/CachedSecretsAdapter.ts:42-75 | In every run each cached value was the inner store's at most ttl + lag before it expires |
| `SecretCaches.CachedSecretsAdapter.Get` | packages/secrets/src/CachedSecretsAdapter.ts:42-57 | The object's call is the steps of the system: a live entry is returned, anything else is dropped, asked for and stored if present; it throws exactly when it has to ask and the inner store rejects |
| `SecretCaches.CachedSecretsAdapter.Set` | packages/secrets/src/CachedSecretsAdapter.ts:59-65 | The object's call is the steps of the system, also when the inner store rejects before or after it has taken the write |
| `SecretCaches.CachedSecretsAdapter.Delete` | packages/secrets/src/CachedSecretsAdapter.ts:67-70 | The object's call is the steps of the system, also when the inner store rejects before or after it has taken the write |
| `SecretCaches.CachedSecretsAdapter.Rotate` | packages/secrets/src/CachedSecretsAdapter.ts:72-75 | The object's call is the steps of the system, also when the inner store rejects before or after it has taken the write |

## Left out

- Network adapters, connection classes, configuration builders and registries: they call libraries or hold flat records.
- Messages of errors, log lines, durations, metadata, etags and content types: text and values that nothing depends on.
- Floating-point rounding and NaN: real arithmetic stands for it, except in the hash.
- Great-circle distance, circles, Mercator projection and the other conversions of the geospatial package.
- The other detectors of the data-quality package, and severity and message of an anomaly.
- Month buckets and the other time-series tools.
- Scheduler `clear()` while executions run, interval and cron runners, and job metadata.
- Event-store handlers that throw or that subscribe and unsubscribe while they are being called; snapshots.
- Kafka logs with offset gaps, and automatic commits beyond one call of the handler.
- RabbitMQ crashes, automatic acknowledgement, and headers that are negative or not whole numbers.
- Targeting rules and the feature provider that combines them with rollouts.
- Fractional weights in the counting theorems: EachVariantOwnsAnInterval covers them as lengths of intervals.
- The glob matcher and the file watcher of the hot-reload package.
- Opt-out storage and template rendering: they enter `send` as its surroundings. An adapter without a limiter passes everything on. `sendBulk` is `send` in sequence and then Tally.
- The random balancer, and health checks of instances.
- Lock values: the store never compares them, since release is unconditional.
- A saga step still in flight when rollback starts, choreography, monitor and store.
- Object metadata, listing, presigned URLs, and sharing of buffers between caller and store (`upload` and `download` of a range do not copy).
- Renamed columns, default values and the text of the SQL: a change stands for its statement, and what a warehouse does with it is that of `Exec`.
- Overlapping `get` and `set` calls on one secrets cache.
