/** The secrets cache: one adapter call at a time over an inner store that others may write
    at any moment, also in the middle of a call, while time passes. A call to the inner store
    may reject before or after it has taken effect; one that rejects before changes nothing
    and is no step. */
module SecretCaches {
  import opened Common

  type Key = string
  type Secret = string

  datatype CacheEntry = CacheEntry(value: Secret, expiresAt: int)

  /** An adapter call that waits for the inner store; `at` is the moment the inner store acted. */
  datatype Pending =
    | Idle
    | GetAsked(key: Key)
    | GetAnswered(key: Key, answer: Option<Secret>, at: int)
    | SetDone(key: Key, value: Secret, at: int)
    | Dropping(key: Key)  // `delete` or `rotate`, once the inner store has acted

  datatype State = State(inner: map<Key, Secret>, cache: map<Key, CacheEntry>, clock: int, pending: Pending,
                         last: Option<Answer>)

  /** What the latest `get` returned. */
  datatype Answer = Answer(key: Key, value: Option<Secret>)

  datatype Step =
    | Tick(ms: nat)
    | OutsideWrite(key: Key, value: Option<Secret>)
    | GetStarts(key: Key)
    | InnerAnswers
    | GetEnds
    | InnerSets(key: Key, secret: Secret)
    | SetEnds
    | InnerDeletes(key: Key)
    | InnerRotates(key: Key, rotated: Secret)
    | DropEnds
    | Rejects  // the call under way rejects: nothing more is stored or dropped

  function Read(inner: map<Key, Secret>, key: Key): Option<Secret> {
    if key in inner then Some(inner[key]) else None
  }

  function Write(inner: map<Key, Secret>, key: Key, value: Option<Secret>): map<Key, Secret> {
    match value
    case Some(v) => inner[key := v]
    case None => inner - {key}
  }

  /** The cache's answer to a `get`, if it still has one. */
  function Cached(cache: map<Key, CacheEntry>, key: Key, now: int): Option<Secret> {
    if key in cache && now < cache[key].expiresAt then Some(cache[key].value) else None
  }

  /** A successful answer is stored; an absent one is not. */
  function Remembered(cache: map<Key, CacheEntry>, key: Key, answer: Option<Secret>, expiresAt: int)
    : map<Key, CacheEntry>
  {
    match answer
    case Some(v) => cache[key := CacheEntry(v, expiresAt)]
    case None => cache
  }

  function Next(ttl: int, s: State, step: Step): State {
    match step
    case Tick(ms) => s.(clock := s.clock + ms)
    case OutsideWrite(key, value) => s.(inner := Write(s.inner, key, value))
    case GetStarts(key) =>
      if !s.pending.Idle? then s
      else if Cached(s.cache, key, s.clock).Some? then s.(last := Some(Answer(key, Cached(s.cache, key, s.clock))))
      else s.(cache := s.cache - {key}, pending := GetAsked(key))
    case InnerAnswers =>
      if !s.pending.GetAsked? then s
      else s.(pending := GetAnswered(s.pending.key, Read(s.inner, s.pending.key), s.clock))
    case GetEnds =>
      if !s.pending.GetAnswered? then s
      else s.(cache := Remembered(s.cache, s.pending.key, s.pending.answer, s.clock + ttl), pending := Idle,
              last := Some(Answer(s.pending.key, s.pending.answer)))
    case InnerSets(key, secret) =>
      if !s.pending.Idle? then s
      else s.(inner := s.inner[key := secret], pending := SetDone(key, secret, s.clock))
    case SetEnds =>
      if !s.pending.SetDone? then s
      else s.(cache := s.cache[s.pending.key := CacheEntry(s.pending.value, s.clock + ttl)], pending := Idle)
    case InnerDeletes(key) => if !s.pending.Idle? then s else s.(inner := s.inner - {key}, pending := Dropping(key))
    case InnerRotates(key, rotated) =>
      if !s.pending.Idle? then s else s.(inner := s.inner[key := rotated], pending := Dropping(key))
    case DropEnds =>
      if !s.pending.Dropping? then s else s.(cache := s.cache - {s.pending.key}, pending := Idle)
    case Rejects => s.(pending := Idle)
  }

  function Run(ttl: int, inner: map<Key, Secret>, start: int, steps: seq<Step>): State {
    if steps == [] then State(inner, map[], start, Idle, None)
    else Next(ttl, Run(ttl, inner, start, steps[..|steps| - 1]), steps[|steps| - 1])
  }

  // ------------------------------------------------------------------
  // Every answer was once true
  // ------------------------------------------------------------------

  /** No call takes more than `lag` from the moment the inner store acts to its end. */
  predicate Prompt(lag: nat, s: State) {
    match s.pending
    case GetAnswered(_, _, at) => s.clock - at <= lag
    case SetDone(_, _, at) => s.clock - at <= lag
    case _ => true
  }

  ghost predicate AlwaysPrompt(lag: nat, ttl: int, inner: map<Key, Secret>, start: int, steps: seq<Step>) {
    Prompt(lag, Run(ttl, inner, start, steps)) &&
    (steps != [] ==> AlwaysPrompt(lag, ttl, inner, start, steps[..|steps| - 1]))
  }

  /** At some moment of the run so far, not before `since`, the inner store held `value` for `key`. */
  ghost predicate HeldSince(ttl: int, inner: map<Key, Secret>, start: int, steps: seq<Step>,
                            key: Key, value: Option<Secret>, since: int) {
    exists k :: 0 <= k <= |steps| && HeldAt(ttl, inner, start, steps, k, key, value, since)
  }

  predicate HeldAt(ttl: int, inner: map<Key, Secret>, start: int, steps: seq<Step>, k: nat,
                   key: Key, value: Option<Secret>, since: int)
    requires k <= |steps|
  {
    var s := Run(ttl, inner, start, steps[..k]);
    s.clock >= since && Read(s.inner, key) == value
  }

  lemma HeldNow(ttl: int, inner: map<Key, Secret>, start: int, steps: seq<Step>, key: Key)
    ensures var s := Run(ttl, inner, start, steps);
            HeldSince(ttl, inner, start, steps, key, Read(s.inner, key), s.clock)
  {
    assert steps[..|steps|] == steps;
    var s := Run(ttl, inner, start, steps);
    assert HeldAt(ttl, inner, start, steps, |steps|, key, Read(s.inner, key), s.clock);
  }

  lemma HeldEarlier(ttl: int, inner: map<Key, Secret>, start: int, steps: seq<Step>,
                    key: Key, value: Option<Secret>, since: int, earlier: int)
    requires HeldSince(ttl, inner, start, steps, key, value, since) && earlier <= since
    ensures HeldSince(ttl, inner, start, steps, key, value, earlier)
  {
    hide Run;
    var k :| 0 <= k <= |steps| && HeldAt(ttl, inner, start, steps, k, key, value, since);
    assert HeldAt(ttl, inner, start, steps, k, key, value, earlier);
  }

  lemma HeldLater(ttl: int, inner: map<Key, Secret>, start: int, steps: seq<Step>,
                  key: Key, value: Option<Secret>, since: int, earlier: int)
    requires steps != [] && HeldSince(ttl, inner, start, steps[..|steps| - 1], key, value, since) && earlier <= since
    ensures HeldSince(ttl, inner, start, steps, key, value, earlier)
  {
    var init := steps[..|steps| - 1];
    var k :| 0 <= k <= |init| && HeldAt(ttl, inner, start, init, k, key, value, since);
    assert steps[..k] == init[..k];
    assert HeldAt(ttl, inner, start, steps, k, key, value, earlier);
  }

  /** Each cached value was the inner store's not more than `ttl + lag` before it expires,
      and each answer or write under way at the moment it was taken. */
  ghost predicate CacheInv(lag: nat, ttl: int, inner: map<Key, Secret>, start: int, steps: seq<Step>) {
    forall key :: EntryInv(lag, ttl, inner, start, steps, key)
  }

  ghost predicate EntryInv(lag: nat, ttl: int, inner: map<Key, Secret>, start: int, steps: seq<Step>, key: Key) {
    var s := Run(ttl, inner, start, steps);
    key in s.cache ==>
      HeldSince(ttl, inner, start, steps, key, Some(s.cache[key].value), s.cache[key].expiresAt - ttl - lag)
  }

  ghost predicate PendingInv(ttl: int, inner: map<Key, Secret>, start: int, steps: seq<Step>) {
    match Run(ttl, inner, start, steps).pending
    case GetAnswered(key, answer, at) => HeldSince(ttl, inner, start, steps, key, answer, at)
    case SetDone(key, value, at) => HeldSince(ttl, inner, start, steps, key, Some(value), at)
    case _ => true
  }

  lemma StepKeepsPendingInv(ttl: int, inner: map<Key, Secret>, start: int, steps: seq<Step>)
    requires steps != [] && PendingInv(ttl, inner, start, steps[..|steps| - 1])
    ensures PendingInv(ttl, inner, start, steps)
  {
    var init := steps[..|steps| - 1];
    var s, s' := Run(ttl, inner, start, init), Run(ttl, inner, start, steps);
    hide HeldSince, Run;
    match s'.pending {
      case GetAnswered(key, answer, at) =>
        if s.pending == s'.pending {
          HeldLater(ttl, inner, start, steps, key, answer, at, at);
        } else {
          HeldNow(ttl, inner, start, steps, key);
        }
      case SetDone(key, value, at) =>
        if s.pending == s'.pending {
          HeldLater(ttl, inner, start, steps, key, Some(value), at, at);
        } else {
          HeldNow(ttl, inner, start, steps, key);
        }
      case _ =>
    }
  }

  /** Where a cached value comes from: it was there before, or the call that ends put it there. */
  lemma CachedByTheEndingCall(lag: nat, ttl: int, s: State, step: Step, key: Key)
    requires Prompt(lag, s) && key in Next(ttl, s, step).cache
    ensures var e := Next(ttl, s, step).cache[key];
            (key in s.cache && e == s.cache[key]) ||
            (s.pending.GetAnswered? && s.pending.key == key && s.pending.answer == Some(e.value) &&
             e.expiresAt - ttl - lag <= s.pending.at) ||
            (s.pending.SetDone? && s.pending.key == key && s.pending.value == e.value &&
             e.expiresAt - ttl - lag <= s.pending.at)
  {
  }

  lemma NextEntryWasHeld(lag: nat, ttl: int, inner: map<Key, Secret>, start: int, steps: seq<Step>,
                         step: Step, key: Key)
    requires PendingInv(ttl, inner, start, steps) && EntryInv(lag, ttl, inner, start, steps, key)
    requires Prompt(lag, Run(ttl, inner, start, steps)) && key in Next(ttl, Run(ttl, inner, start, steps), step).cache
    ensures var e := Next(ttl, Run(ttl, inner, start, steps), step).cache[key];
            HeldSince(ttl, inner, start, steps, key, Some(e.value), e.expiresAt - ttl - lag)
  {
    hide HeldSince, Next, Prompt, Run;
    var s := Run(ttl, inner, start, steps);
    var e := Next(ttl, s, step).cache[key];
    CachedByTheEndingCall(lag, ttl, s, step, key);
    if !(key in s.cache && e == s.cache[key]) {
      HeldEarlier(ttl, inner, start, steps, key, Some(e.value), s.pending.at, e.expiresAt - ttl - lag);
    }
  }

  lemma StepKeepsOneEntry(lag: nat, ttl: int, inner: map<Key, Secret>, start: int, steps: seq<Step>, key: Key)
    requires steps != [] && key in Run(ttl, inner, start, steps).cache
    requires PendingInv(ttl, inner, start, steps[..|steps| - 1])
    requires EntryInv(lag, ttl, inner, start, steps[..|steps| - 1], key)
    requires Prompt(lag, Run(ttl, inner, start, steps[..|steps| - 1]))
    ensures EntryInv(lag, ttl, inner, start, steps, key)
  {
    var init, last := steps[..|steps| - 1], steps[|steps| - 1];
    assert Run(ttl, inner, start, steps) == Next(ttl, Run(ttl, inner, start, init), last);
    hide *;
    NextEntryWasHeld(lag, ttl, inner, start, init, last, key);
    EntryStaysHeld(lag, ttl, inner, start, steps, key);
  }

  lemma EntryStaysHeld(lag: nat, ttl: int, inner: map<Key, Secret>, start: int, steps: seq<Step>, key: Key)
    requires steps != [] && key in Run(ttl, inner, start, steps).cache
    requires var e := Run(ttl, inner, start, steps).cache[key];
             HeldSince(ttl, inner, start, steps[..|steps| - 1], key, Some(e.value), e.expiresAt - ttl - lag)
    ensures EntryInv(lag, ttl, inner, start, steps, key)
  {
    hide HeldSince, Run;
    var e := Run(ttl, inner, start, steps).cache[key];
    HeldLater(ttl, inner, start, steps, key, Some(e.value), e.expiresAt - ttl - lag, e.expiresAt - ttl - lag);
  }

  lemma StepKeepsCacheInv(lag: nat, ttl: int, inner: map<Key, Secret>, start: int, steps: seq<Step>)
    requires steps != []
    requires PendingInv(ttl, inner, start, steps[..|steps| - 1])
    requires CacheInv(lag, ttl, inner, start, steps[..|steps| - 1])
    requires Prompt(lag, Run(ttl, inner, start, steps[..|steps| - 1]))
    ensures CacheInv(lag, ttl, inner, start, steps)
  {
    hide HeldSince, Run, Prompt, PendingInv;
    forall key ensures EntryInv(lag, ttl, inner, start, steps, key) {
      if key in Run(ttl, inner, start, steps).cache {
        StepKeepsOneEntry(lag, ttl, inner, start, steps, key);
      }
    }
  }

  lemma {:induction false} RunKeepsInv(lag: nat, ttl: int, inner: map<Key, Secret>, start: int, steps: seq<Step>)
    requires AlwaysPrompt(lag, ttl, inner, start, steps)
    ensures PendingInv(ttl, inner, start, steps) && CacheInv(lag, ttl, inner, start, steps)
    decreases |steps|
  {
    if steps != [] {
      hide PendingInv, CacheInv, Run, Prompt;
      RunKeepsInv(lag, ttl, inner, start, steps[..|steps| - 1]);
      assert AlwaysPrompt(lag, ttl, inner, start, steps[..|steps| - 1]);
      StepKeepsPendingInv(ttl, inner, start, steps);
      StepKeepsCacheInv(lag, ttl, inner, start, steps);
    }
  }

  /** This step returns `answer` from a `get`. */
  ghost predicate Returns(ttl: int, s: State, step: Step, answer: Answer) {
    (match step
     case GetStarts(key) => s.pending.Idle? && Cached(s.cache, key, s.clock).Some?
     case GetEnds => s.pending.GetAnswered?
     case _ => false) &&
    Next(ttl, s, step).last == Some(answer)
  }

  lemma AnswerComesFrom(ttl: int, s: State, step: Step, answer: Answer)
    requires Returns(ttl, s, step, answer)
    ensures if step.GetStarts? then
              answer.key in s.cache && s.clock < s.cache[answer.key].expiresAt &&
              answer.value == Some(s.cache[answer.key].value)
            else s.pending.GetAnswered? && answer == Answer(s.pending.key, s.pending.answer)
  {
  }

  /** What `get` returns from the cache at time `t` is younger than `t - ttl - lag`. */
  lemma CachedAnswerWasHeld(lag: nat, ttl: int, inner: map<Key, Secret>, start: int, steps: seq<Step>, key: Key)
    requires CacheInv(lag, ttl, inner, start, steps)
    requires var s := Run(ttl, inner, start, steps); key in s.cache && s.clock < s.cache[key].expiresAt
    ensures var s := Run(ttl, inner, start, steps);
            HeldSince(ttl, inner, start, steps, key, Some(s.cache[key].value), s.clock - Max(ttl, 1) - lag + 1)
  {
    assert EntryInv(lag, ttl, inner, start, steps, key);
    var s := Run(ttl, inner, start, steps);
    hide Run;
    HeldEarlier(ttl, inner, start, steps, key, Some(s.cache[key].value), s.cache[key].expiresAt - ttl - lag,
                s.clock - Max(ttl, 1) - lag + 1);
  }

  /** Whatever others write to the inner store meanwhile, what `get` returns at time `t` was
      what the inner store held for the key at some moment after `t - ttl - lag` and not
      after `t`, where `lag` bounds how long a call takes once the inner store has acted. */
  lemma EveryAnswerWasOnceTrue(lag: nat, ttl: int, inner: map<Key, Secret>, start: int, steps: seq<Step>,
                               step: Step, answer: Answer)
    requires AlwaysPrompt(lag, ttl, inner, start, steps)
    requires Returns(ttl, Run(ttl, inner, start, steps), step, answer)
    ensures HeldSince(ttl, inner, start, steps, answer.key, answer.value,
                      Run(ttl, inner, start, steps).clock - Max(ttl, 1) - lag + 1)
  {
    var s := Run(ttl, inner, start, steps);
    assert Prompt(lag, s);
    RunKeepsInv(lag, ttl, inner, start, steps);
    hide Run, Next, CacheInv, HeldSince, AlwaysPrompt;
    AnswerComesFrom(ttl, s, step, answer);
    hide Returns;
    if step.GetStarts? {
      CachedAnswerWasHeld(lag, ttl, inner, start, steps, answer.key);
    } else {
      HeldEarlier(ttl, inner, start, steps, answer.key, answer.value, s.pending.at,
                  s.clock - Max(ttl, 1) - lag + 1);
    }
  }

  function SlowReply(ttl: int, slow: nat, key: Key, newer: Secret): seq<Step> {
    [GetStarts(key), InnerAnswers, OutsideWrite(key, Some(newer)), Tick(slow), GetEnds, Tick(Max(ttl, 1) - 1)]
  }

  lemma SlowReplyStates(ttl: int, slow: nat, key: Key, value: Secret, newer: Secret, k: nat)
    requires k <= 6
    ensures var s := Run(ttl, map[key := value], 0, SlowReply(ttl, slow, key, newer)[..k]);
            s.inner == map[key := if k < 3 then value else newer] &&
            s.clock == (if k < 4 then 0 else if k < 6 then slow else slow + Max(ttl, 1) - 1) &&
            s.cache == (if k < 5 then map[] else map[key := CacheEntry(value, slow + ttl)]) &&
            s.pending == if k == 1 then GetAsked(key)
                         else if 2 <= k <= 4 then GetAnswered(key, Some(value), 0) else Idle
  {
    var steps := SlowReply(ttl, slow, key, newer);
    if k > 0 {
      SlowReplyStates(ttl, slow, key, value, newer, k - 1);
      RunSnoc(ttl, map[key := value], 0, steps, k);
      hide Run;
      assert map[key := value][key := newer] == map[key := newer];
    }
  }

  lemma {:induction false} SlowReplyIsPrompt(ttl: int, slow: nat, key: Key, value: Secret, newer: Secret, k: nat)
    requires k <= 6
    ensures AlwaysPrompt(slow, ttl, map[key := value], 0, SlowReply(ttl, slow, key, newer)[..k])
    decreases k
  {
    var steps := SlowReply(ttl, slow, key, newer);
    SlowReplyStates(ttl, slow, key, value, newer, k);
    hide Run;
    if k > 0 {
      SlowReplyIsPrompt(ttl, slow, key, value, newer, k - 1);
      assert steps[..k][..k - 1] == steps[..k - 1];
    }
  }

  lemma SlowReplyIsNotHeld(ttl: int, slow: nat, key: Key, value: Secret, newer: Secret, n: nat)
    requires n <= 6 && slow > 0 && value != newer
    ensures !HeldSince(ttl, map[key := value], 0, SlowReply(ttl, slow, key, newer)[..n], key, Some(value), slow)
  {
    var inner, steps := map[key := value], SlowReply(ttl, slow, key, newer);
    hide Run;
    forall k | 0 <= k <= n ensures !HeldAt(ttl, inner, 0, steps[..n], k, key, Some(value), slow) {
      assert steps[..n][..k] == steps[..k];
      SlowReplyStates(ttl, slow, key, value, newer, k);
    }
  }

  /** Whatever `get` returns now was held less than the lifetime ago. */
  ghost predicate NoAnswerIsOlder(ttl: int, inner: map<Key, Secret>, start: int, steps: seq<Step>) {
    var s := Run(ttl, inner, start, steps);
    forall step, answer :: Returns(ttl, s, step, answer) ==>
      HeldSince(ttl, inner, start, steps, answer.key, answer.value, s.clock - Max(ttl, 1) + 1)
  }

  /** The lag is really lost: a value read just before an outside write, whose reply takes
      a while, is still served when it is older than the cache's lifetime. */
  lemma ASlowReplyOutlivesItsLifetime(ttl: int, slow: nat, key: Key, value: Secret, newer: Secret)
    requires slow > 0 && value != newer
    ensures exists steps ::
      AlwaysPrompt(slow, ttl, map[key := value], 0, steps) && !NoAnswerIsOlder(ttl, map[key := value], 0, steps)
  {
    var inner := map[key := value];
    var n := if ttl > 0 then 6 else 4;
    var steps := SlowReply(ttl, slow, key, newer)[..n];
    SlowReplyStates(ttl, slow, key, value, newer, n);
    SlowReplyIsPrompt(ttl, slow, key, value, newer, n);
    SlowReplyIsNotHeld(ttl, slow, key, value, newer, n);
    var s := Run(ttl, inner, 0, steps);
    assert s.clock == slow + Max(ttl, 1) - 1;
    assert Returns(ttl, s, if ttl > 0 then GetStarts(key) else GetEnds, Answer(key, Some(value)));
    hide Run, Returns, HeldSince, AlwaysPrompt;
    assert !NoAnswerIsOlder(ttl, inner, 0, steps);
  }

  /** The lifetime bounds the age of every answer, over all runs whose calls take at most
      `lag`, exactly when they take no time at all. */
  lemma LifetimeBoundsTheAgeExactlyWhen(lag: nat, ttl: int)
    ensures (forall inner, start, steps :: AlwaysPrompt(lag, ttl, inner, start, steps) ==>
              NoAnswerIsOlder(ttl, inner, start, steps))
       <==> lag == 0
  {
    hide AlwaysPrompt, HeldSince, Run, Returns;
    if lag == 0 {
      forall inner, start, steps | AlwaysPrompt(lag, ttl, inner, start, steps)
        ensures NoAnswerIsOlder(ttl, inner, start, steps)
      {
        var s := Run(ttl, inner, start, steps);
        forall step, answer | Returns(ttl, s, step, answer)
          ensures HeldSince(ttl, inner, start, steps, answer.key, answer.value, s.clock - Max(ttl, 1) + 1)
        {
          EveryAnswerWasOnceTrue(lag, ttl, inner, start, steps, step, answer);
        }
      }
    } else {
      hide NoAnswerIsOlder;
      ASlowReplyOutlivesItsLifetime(ttl, lag, "key", "old", "new");
    }
  }

  lemma RunSnoc(ttl: int, inner: map<Key, Secret>, start: int, steps: seq<Step>, n: nat)
    requires 0 < n <= |steps|
    ensures Run(ttl, inner, start, steps[..n]) == Next(ttl, Run(ttl, inner, start, steps[..n - 1]), steps[n - 1])
  {
    assert steps[..n][..n - 1] == steps[..n - 1];
  }

  // ------------------------------------------------------------------
  // What is served without asking
  // ------------------------------------------------------------------

  /** The state `ms` after a call has ended by this step. */
  function Later(ttl: int, s: State, end: Step, ms: nat): State {
    Next(ttl, Next(ttl, s, end), Tick(ms))
  }

  /** A `get` of the key now is answered at once, or has to ask the inner store. */
  predicate ServesAtOnce(ttl: int, s: State, key: Key, value: Secret) {
    Next(ttl, s, GetStarts(key)).pending.Idle? &&
    Next(ttl, s, GetStarts(key)).last == Some(Answer(key, Some(value)))
  }

  predicate Asks(ttl: int, s: State, key: Key) {
    Next(ttl, s, GetStarts(key)).pending == GetAsked(key)
  }

  /** A secret that was read or set is served without asking while its lifetime lasts, and
      not after it; after a deletion or a rotation has ended, the inner store is asked. */
  lemma ServedForItsLifetime(ttl: int, s: State, key: Key, value: Secret, at: int, ms: nat)
    ensures s.pending == SetDone(key, value, at) ==>
              if ms < ttl then ServesAtOnce(ttl, Later(ttl, s, SetEnds, ms), key, value)
              else Asks(ttl, Later(ttl, s, SetEnds, ms), key)
    ensures s.pending == GetAnswered(key, Some(value), at) ==>
              if ms < ttl then ServesAtOnce(ttl, Later(ttl, s, GetEnds, ms), key, value)
              else Asks(ttl, Later(ttl, s, GetEnds, ms), key)
    ensures s.pending == Dropping(key) ==> Asks(ttl, Later(ttl, s, DropEnds, ms), key)
    ensures s.pending == GetAnswered(key, None, at) && key !in s.cache ==>
              Asks(ttl, Later(ttl, s, GetEnds, ms), key)
  {
  }

  /** What a write has done to the inner store when it ends. */
  lemma WritesReachTheInnerStore(ttl: int, s: State, key: Key, value: Secret)
    requires s.pending.Idle?
    ensures var set', deleted, rotated := Next(ttl, s, InnerSets(key, value)), Next(ttl, s, InnerDeletes(key)),
                                          Next(ttl, s, InnerRotates(key, value));
            set'.inner == s.inner[key := value] == rotated.inner && deleted.inner == s.inner - {key} &&
            set'.pending == SetDone(key, value, s.clock) && deleted.pending == rotated.pending == Dropping(key)
  {
  }

  // ------------------------------------------------------------------
  // Without outside writes the cache is invisible
  // ------------------------------------------------------------------

  /** The inner store has taken a write of the key, and the call is not over. */
  predicate BeingWritten(s: State, key: Key) {
    (s.pending.SetDone? || s.pending.Dropping?) && s.pending.key == key
  }

  predicate LiveEntryIsTrue(s: State, key: Key) {
    Cached(s.cache, key, s.clock).Some? ==> Cached(s.cache, key, s.clock) == Read(s.inner, key)
  }

  /** Every entry that can still be served is the inner store's, except for a key whose write
      is not over. */
  ghost predicate Coherent(s: State) {
    (forall key :: !BeingWritten(s, key) ==> LiveEntryIsTrue(s, key)) &&
    match s.pending
    case GetAnswered(key, answer, _) => Read(s.inner, key) == answer
    case SetDone(key, value, _) => Read(s.inner, key) == Some(value)
    case _ => true
  }

  /** If the call under way rejects now, no entry stays that a write has made false. */
  predicate RejectsHarmlessly(s: State) {
    (s.pending.SetDone? || s.pending.Dropping?) ==> LiveEntryIsTrue(s, s.pending.key)
  }

  lemma StepKeepsCoherent(ttl: int, s: State, step: Step)
    requires Coherent(s) && !step.OutsideWrite? && (step.Rejects? ==> RejectsHarmlessly(s))
    ensures Coherent(Next(ttl, s, step))
  {
    var after := Next(ttl, s, step);
    forall key | !BeingWritten(after, key) ensures LiveEntryIsTrue(after, key) {
      assert !BeingWritten(s, key) ==> LiveEntryIsTrue(s, key);
    }
  }

  ghost predicate OnlyHarmlessRejections(ttl: int, inner: map<Key, Secret>, start: int, steps: seq<Step>) {
    forall k :: 0 <= k < |steps| && steps[k].Rejects? ==> RejectsHarmlessly(Run(ttl, inner, start, steps[..k]))
  }

  lemma {:induction false} RunKeepsCoherent(ttl: int, inner: map<Key, Secret>, start: int, steps: seq<Step>)
    requires forall i :: 0 <= i < |steps| ==> !steps[i].OutsideWrite?
    requires OnlyHarmlessRejections(ttl, inner, start, steps)
    ensures Coherent(Run(ttl, inner, start, steps))
    decreases |steps|
  {
    if steps != [] {
      var init := steps[..|steps| - 1];
      forall k | 0 <= k < |init| && init[k].Rejects? ensures RejectsHarmlessly(Run(ttl, inner, start, init[..k])) {
        assert init[..k] == steps[..k] && steps[k].Rejects?;
      }
      RunKeepsCoherent(ttl, inner, start, init);
      hide Next, Coherent, RejectsHarmlessly;
      StepKeepsCoherent(ttl, Run(ttl, inner, start, init), steps[|steps| - 1]);
    }
  }

  /** Whatever `get` returns now is what the inner store holds now. */
  ghost predicate AnswersTruly(ttl: int, s: State) {
    forall step, answer :: Returns(ttl, s, step, answer) ==> answer.value == Read(s.inner, answer.key)
  }

  /** If all writes go through the adapter, and none rejects after it has taken effect while
      the cache can still serve another value of its key, then `get` returns what the inner
      store holds at that very moment, whatever the lifetime and however long calls take. */
  lemma TheCacheIsInvisible(ttl: int, inner: map<Key, Secret>, start: int, steps: seq<Step>)
    requires forall i :: 0 <= i < |steps| ==> !steps[i].OutsideWrite?
    requires OnlyHarmlessRejections(ttl, inner, start, steps)
    ensures AnswersTruly(ttl, Run(ttl, inner, start, steps))
  {
    RunKeepsCoherent(ttl, inner, start, steps);
    hide Run, OnlyHarmlessRejections;
    var s := Run(ttl, inner, start, steps);
    forall step, answer | Returns(ttl, s, step, answer) ensures answer.value == Read(s.inner, answer.key) {
      AnswerComesFrom(ttl, s, step, answer);
      hide Next;
      assert s.pending.Idle? ==> LiveEntryIsTrue(s, answer.key);
    }
  }

  lemma HarmfulRejectionLies(ttl: int, s: State)
    requires !RejectsHarmlessly(s)
    ensures !AnswersTruly(ttl, Next(ttl, s, Rejects))
  {
    var after := Next(ttl, s, Rejects);
    var key := s.pending.key;
    assert Returns(ttl, after, GetStarts(key), Answer(key, Cached(s.cache, key, s.clock)));
  }

  /** Without outside writes, every answer at every moment of a run is the inner store's
      exactly when no write of the run rejects, after it has taken effect, while the cache
      can still serve another value of its key. */
  lemma InvisibleExactlyWhen(ttl: int, inner: map<Key, Secret>, start: int, steps: seq<Step>)
    requires forall i :: 0 <= i < |steps| ==> !steps[i].OutsideWrite?
    ensures (forall k :: 0 <= k <= |steps| ==> AnswersTruly(ttl, Run(ttl, inner, start, steps[..k])))
       <==> OnlyHarmlessRejections(ttl, inner, start, steps)
  {
    hide AnswersTruly, RejectsHarmlessly, Next;
    if OnlyHarmlessRejections(ttl, inner, start, steps) {
      forall k | 0 <= k <= |steps| ensures AnswersTruly(ttl, Run(ttl, inner, start, steps[..k])) {
        forall j | 0 <= j < k && steps[..k][j].Rejects?
          ensures RejectsHarmlessly(Run(ttl, inner, start, steps[..k][..j]))
        {
          assert steps[..k][..j] == steps[..j] && steps[j].Rejects?;
        }
        TheCacheIsInvisible(ttl, inner, start, steps[..k]);
      }
    } else {
      var k :| 0 <= k < |steps| && steps[k].Rejects? && !RejectsHarmlessly(Run(ttl, inner, start, steps[..k]));
      RunSnoc(ttl, inner, start, steps, k + 1);
      HarmfulRejectionLies(ttl, Run(ttl, inner, start, steps[..k]));
      assert !AnswersTruly(ttl, Run(ttl, inner, start, steps[..k + 1]));
    }
  }

  /** Such a run: a `set` takes effect and then rejects, and the value before it is served. */
  lemma ARejectedSetLeavesAStaleAnswer(ttl: int, key: Key, value: Secret, newer: Secret)
    requires ttl > 0 && value != newer
    ensures var steps := [InnerSets(key, value), SetEnds, InnerSets(key, newer), Rejects];
            var s := Run(ttl, map[], 0, steps);
            Returns(ttl, s, GetStarts(key), Answer(key, Some(value))) && Read(s.inner, key) == Some(newer)
  {
    var steps := [InnerSets(key, value), SetEnds, InnerSets(key, newer), Rejects];
    RunSnoc(ttl, map[], 0, steps, 1);
    RunSnoc(ttl, map[], 0, steps, 2);
    RunSnoc(ttl, map[], 0, steps, 3);
    RunSnoc(ttl, map[], 0, steps, 4);
    assert steps[..4] == steps;
    assert Run(ttl, map[], 0, steps[..0]) == State(map[], map[], 0, Idle, None);
    hide Run;
  }

  // ------------------------------------------------------------------
  // The adapter object
  // ------------------------------------------------------------------

  /** How a call to the inner store ends. */
  datatype InnerEnd = Resolves | RejectsBefore | RejectsAfter

  /** Calls that nobody disturbs, in steps; `lag` is how long the inner store's reply takes. */
  function WholeGet(ttl: int, s: State, key: Key, lag: nat, ok: bool): State {
    var asked := Next(ttl, s, GetStarts(key));
    if asked.pending.Idle? then asked
    else if ok then Next(ttl, Next(ttl, Next(ttl, asked, InnerAnswers), Tick(lag)), GetEnds)
    else Next(ttl, Next(ttl, asked, Tick(lag)), Rejects)
  }

  /** A write, from the step in which the inner store takes it to the one that ends it well. */
  function WholeWrite(ttl: int, s: State, takes: Step, ends: Step, lag: nat, end: InnerEnd): State {
    match end
    case Resolves => Next(ttl, Next(ttl, Next(ttl, s, takes), Tick(lag)), ends)
    case RejectsBefore => Next(ttl, s, Tick(lag))
    case RejectsAfter => Next(ttl, Next(ttl, Next(ttl, s, takes), Tick(lag)), Rejects)
  }

  class CachedSecretsAdapter {
    const ttl: int
    var inner: map<Key, Secret>  // the inner store, written by nobody else during a call
    var cache: map<Key, CacheEntry>
    var clock: int
    ghost var last: Option<Answer>

    ghost function Model(): State
      reads this
    {
      State(inner, cache, clock, Idle, last)
    }

    constructor (inner: map<Key, Secret>, ttl: int, clock: int)
      ensures this.ttl == ttl && Model() == Run(ttl, inner, clock, [])
    {
      this.inner, this.ttl, this.clock := inner, ttl, clock;
      cache, last := map[], None;
    }

    /** None when the inner store rejects, as `ok` says it does. */
    method Get(key: Key, lag: nat, ok: bool) returns (value: Option<Option<Secret>>)
      modifies this
      ensures Model() == WholeGet(ttl, old(Model()), key, lag, ok)
      ensures value.None? <==> !ok && Cached(old(cache), key, old(clock)).None?
      ensures value.Some? ==> last == Some(Answer(key, value.value))
    {
      if key in cache && clock < cache[key].expiresAt {
        value := Some(Some(cache[key].value));
        last := Some(Answer(key, value.value));
        return;
      }
      cache := cache - {key};
      clock := clock + lag;
      if !ok {
        return None;
      }
      var result := if key in inner then Some(inner[key]) else None;
      if result.Some? {
        cache := cache[key := CacheEntry(result.value, clock + ttl)];
      }
      value := Some(result);
      last := Some(Answer(key, result));
    }

    /** The inner store's part of a write that turns it into `after`. */
    method AwaitInner(after: map<Key, Secret>, lag: nat, end: InnerEnd) returns (ok: bool)
      modifies this`inner, this`clock
      ensures inner == (if end.RejectsBefore? then old(inner) else after) && clock == old(clock) + lag
      ensures ok <==> end.Resolves?
    {
      if !end.RejectsBefore? {
        inner := after;
      }
      clock := clock + lag;
      return end.Resolves?;
    }

    method Set(key: Key, value: Secret, lag: nat, end: InnerEnd) returns (ok: bool)
      modifies this
      ensures Model() == WholeWrite(ttl, old(Model()), InnerSets(key, value), SetEnds, lag, end)
      ensures ok <==> end.Resolves?
    {
      ok := AwaitInner(inner[key := value], lag, end);
      if ok {
        cache := cache[key := CacheEntry(value, clock + ttl)];
      }
    }

    method Delete(key: Key, lag: nat, end: InnerEnd) returns (ok: bool)
      modifies this
      ensures Model() == WholeWrite(ttl, old(Model()), InnerDeletes(key), DropEnds, lag, end)
      ensures ok <==> end.Resolves?
    {
      ok := AwaitInner(inner - {key}, lag, end);
      if ok {
        cache := cache - {key};
      }
    }

    method Rotate(key: Key, rotated: Secret, lag: nat, end: InnerEnd) returns (ok: bool)
      modifies this
      ensures Model() == WholeWrite(ttl, old(Model()), InnerRotates(key, rotated), DropEnds, lag, end)
      ensures ok <==> end.Resolves?
    {
      ok := AwaitInner(inner[key := rotated], lag, end);
      if ok {
        cache := cache - {key};
      }
    }
  }
}
