/** The Redis lock: any number of clients running `withLock` against one store, while time
    passes, keys expire, clients crash and messages are lost or late. The store applies
    each command at one moment. */
module RedisLocks {
  import opened Common

  type Key = string

  /** A stored lock. `owner` says whose SET stored it, which the store itself does not know. */
  datatype Entry = Entry(owner: nat, expiresAt: int)

  /** Where a client is in `withLock`. `Granted`: the store has set the key and its reply is
      under way; `Inside`: the work is running; `Leaving`: the DEL is under way. */
  datatype Phase =
    | Outside
    | Granted(key: Key, deadline: int)
    | Inside(key: Key, deadline: int)
    | Leaving(key: Key, deadline: int)

  datatype State = State(store: map<Key, Entry>, clock: int, phases: map<nat, Phase>)

  datatype Step =
    | SetArrives(client: nat, key: Key, ttlMs: int)
    | ReplyArrives(client: nat)
    | WorkEnds(client: nat)   // by returning or by throwing
    | DelArrives(client: nat)
    | GivesUp(client: nat)    // a crash, or a command or reply that is lost
    | Tick(ms: nat)

  function PhaseOf(s: State, client: nat): Phase {
    if client in s.phases then s.phases[client] else Outside
  }

  predicate Taken(store: map<Key, Entry>, clock: int, key: Key) {
    key in store && clock < store[key].expiresAt
  }

  /** `SET key value NX PX ttlMs`, which the store refuses for a lifetime that is not positive. */
  predicate SetSucceeds(store: map<Key, Entry>, clock: int, key: Key, ttlMs: int) {
    ttlMs > 0 && !Taken(store, clock, key)
  }

  function Next(s: State, step: Step): State {
    match step
    case SetArrives(c, key, ttlMs) =>
      if PhaseOf(s, c).Outside? && SetSucceeds(s.store, s.clock, key, ttlMs) then
        s.(store := s.store[key := Entry(c, s.clock + ttlMs)],
           phases := s.phases[c := Granted(key, s.clock + ttlMs)])
      else s
    case ReplyArrives(c) =>
      (match PhaseOf(s, c)
       case Granted(key, deadline) => s.(phases := s.phases[c := Inside(key, deadline)])
       case _ => s)
    case WorkEnds(c) =>
      (match PhaseOf(s, c)
       case Inside(key, deadline) => s.(phases := s.phases[c := Leaving(key, deadline)])
       case _ => s)
    case DelArrives(c) =>
      (match PhaseOf(s, c)
       case Leaving(key, _) => s.(store := s.store - {key}, phases := s.phases[c := Outside])
       case _ => s)
    case GivesUp(c) => s.(phases := s.phases[c := Outside])
    case Tick(ms) => s.(clock := s.clock + ms)
  }

  function Run(start: int, steps: seq<Step>): State {
    if steps == [] then State(map[], start, map[])
    else Next(Run(start, steps[..|steps| - 1]), steps[|steps| - 1])
  }

  // ------------------------------------------------------------------
  // Mutual exclusion
  // ------------------------------------------------------------------

  /** The client is still working, or its DEL has not arrived, after its lock has expired. */
  predicate Overstays(s: State, client: nat) {
    match PhaseOf(s, client)
    case Inside(_, deadline) => s.clock >= deadline
    case Leaving(_, deadline) => s.clock >= deadline
    case _ => false
  }

  ghost predicate Timely(s: State) {
    forall c :: !Overstays(s, c)
  }

  ghost predicate AlwaysTimely(start: int, steps: seq<Step>) {
    Timely(Run(start, steps)) && (steps != [] ==> AlwaysTimely(start, steps[..|steps| - 1]))
  }

  /** Whoever was granted the key and has not outlived the grant owns the stored entry. */
  predicate Owns(s: State, client: nat) {
    match PhaseOf(s, client)
    case Outside => true
    case Granted(key, deadline) => s.clock < deadline ==> key in s.store && s.store[key] == Entry(client, deadline)
    case Inside(key, deadline) => s.clock < deadline ==> key in s.store && s.store[key] == Entry(client, deadline)
    case Leaving(key, deadline) => s.clock < deadline ==> key in s.store && s.store[key] == Entry(client, deadline)
  }

  ghost predicate Inv(s: State) {
    forall c :: Owns(s, c)
  }

  lemma NextKeepsInv(s: State, step: Step)
    requires Inv(s) && Timely(s)
    ensures Inv(Next(s, step))
  {
    forall c ensures Owns(Next(s, step), c) {
      assert Owns(s, c);
      if step.DelArrives? {
        assert Owns(s, step.client) && !Overstays(s, step.client);
      }
    }
  }

  lemma {:induction false} RunKeepsInv(start: int, steps: seq<Step>)
    requires AlwaysTimely(start, steps)
    ensures Inv(Run(start, steps))
    decreases |steps|
  {
    if steps != [] {
      hide Next, Inv, Timely;
      RunKeepsInv(start, steps[..|steps| - 1]);
      assert AlwaysTimely(start, steps[..|steps| - 1]);
      NextKeepsInv(Run(start, steps[..|steps| - 1]), steps[|steps| - 1]);
    }
  }

  predicate Works(s: State, client: nat, key: Key) {
    PhaseOf(s, client).Inside? && PhaseOf(s, client).key == key
  }

  /** If no section ever outlives its lock, then no two clients are ever inside the same
      key's section, and every DEL that arrives removes the entry its own client stored. */
  lemma AtMostOneInside(start: int, steps: seq<Step>, key: Key, c: nat, d: nat)
    requires AlwaysTimely(start, steps)
    ensures var s := Run(start, steps);
            (Works(s, c, key) && Works(s, d, key) ==> c == d) &&
            (PhaseOf(s, c).Leaving? ==>
              PhaseOf(s, c).key in s.store && s.store[PhaseOf(s, c).key].owner == c)
  {
    RunKeepsInv(start, steps);
    var s := Run(start, steps);
    hide Run;
    assert Owns(s, c) && Owns(s, d);
    assert !Overstays(s, c) && !Overstays(s, d);
  }

  /** In a state that timely runs reach, the store takes the key exactly while its owner's
      time has not run out: a working client that has not overstayed cannot be joined. */
  lemma NoneJoinsBeforeTheDeadline(s: State, c: nat, d: nat, key: Key, ttlMs: int)
    requires Inv(s) && Works(s, c, key) && !Overstays(s, c)
    ensures Next(s, SetArrives(d, key, ttlMs)) == s
  {
    assert Owns(s, c);
  }

  // ------------------------------------------------------------------
  // What overstaying costs
  // ------------------------------------------------------------------

  lemma RunSnoc(start: int, steps: seq<Step>, last: Step)
    ensures Run(start, steps + [last]) == Next(Run(start, steps), last)
  {
    assert (steps + [last])[..|steps|] == steps;
  }

  /** How long until the store gives the key away. */
  function Remaining(s: State, key: Key): nat {
    if Taken(s.store, s.clock, key) then s.store[key].expiresAt - s.clock else 0
  }

  /** Wait until the key is free, and acquire it. */
  function Joining(steps: seq<Step>, s: State, d: nat, key: Key, ttlMs: int): seq<Step> {
    steps + [Tick(Remaining(s, key))] + [SetArrives(d, key, ttlMs)] + [ReplyArrives(d)]
  }

  /** After any run, a client that goes on working is joined by any other that waits until
      the store gives the key away; the store itself never looks at who is inside. */
  lemma AWorkerThatStaysIsJoined(start: int, steps: seq<Step>, c: nat, d: nat, key: Key, ttlMs: int)
    requires Works(Run(start, steps), c, key) && PhaseOf(Run(start, steps), d).Outside? && ttlMs > 0
    ensures var s := Run(start, Joining(steps, Run(start, steps), d, key, ttlMs));
            c != d && Works(s, c, key) && Works(s, d, key) && !Overstays(s, d)
  {
    var s0 := Run(start, steps);
    RunSnoc(start, steps, Tick(Remaining(s0, key)));
    RunSnoc(start, steps + [Tick(Remaining(s0, key))], SetArrives(d, key, ttlMs));
    RunSnoc(start, steps + [Tick(Remaining(s0, key))] + [SetArrives(d, key, ttlMs)], ReplyArrives(d));
    hide Run;
    var s1 := Next(s0, Tick(Remaining(s0, key)));
    assert !Taken(s1.store, s1.clock, key);
    var s2 := Next(s1, SetArrives(d, key, ttlMs));
    assert PhaseOf(s2, d) == Granted(key, s1.clock + ttlMs);
  }

  /** A client that works inside the key's section. */
  function Entering(c: nat, key: Key, ttlMs: int): seq<Step> {
    [SetArrives(c, key, ttlMs)] + [ReplyArrives(c)]
  }

  lemma EnteringWorks(start: int, c: nat, key: Key, ttlMs: int)
    requires ttlMs > 0
    ensures var s := Run(start, Entering(c, key, ttlMs));
            Works(s, c, key) && s.store == map[key := Entry(c, start + ttlMs)] && s.clock == start &&
            forall d :: d != c ==> PhaseOf(s, d).Outside?
  {
    assert [] + [SetArrives(c, key, ttlMs)] == [SetArrives(c, key, ttlMs)];
    RunSnoc(start, [], SetArrives(c, key, ttlMs));
    RunSnoc(start, [SetArrives(c, key, ttlMs)], ReplyArrives(c));
  }

  /** So two clients can be inside: from the start, one that outlives its lock and one that
      comes when the lock has expired. */
  lemma TwoCanBeInside(start: int, c: nat, d: nat, key: Key, ttlMs: int)
    requires ttlMs > 0 && c != d
    ensures exists steps ::
      Works(Run(start, steps), c, key) && Works(Run(start, steps), d, key) && !Overstays(Run(start, steps), d)
  {
    EnteringWorks(start, c, key, ttlMs);
    AWorkerThatStaysIsJoined(start, Entering(c, key, ttlMs), c, d, key, ttlMs);
    hide Run, Joining;
    var steps := Joining(Entering(c, key, ttlMs), Run(start, Entering(c, key, ttlMs)), d, key, ttlMs);
    assert Works(Run(start, steps), c, key);
  }

  /** The client's work ends, its DEL arrives, and another acquires the key at once. */
  function LateRelease(steps: seq<Step>, c: nat, e: nat, key: Key, ttlMs: int): seq<Step> {
    steps + [WorkEnds(c)] + [DelArrives(c)] + [SetArrives(e, key, ttlMs)] + [ReplyArrives(e)]
  }

  /** And it spreads. After any run that has two clients inside, the unconditional DEL of one
      removes the entry of the other, so that a third enters beside it, although neither of
      the two that remain needs to have overstayed. */
  lemma ALateReleaseLetsAThirdIn(start: int, steps: seq<Step>, c: nat, d: nat, e: nat, key: Key, ttlMs: int)
    requires Works(Run(start, steps), c, key) && Works(Run(start, steps), d, key) && c != d
    requires PhaseOf(Run(start, steps), e).Outside? && ttlMs > 0
    ensures var s := Run(start, LateRelease(steps, c, e, key, ttlMs));
            d != e && Works(s, d, key) && Works(s, e, key) && !Overstays(s, e) &&
            (Overstays(s, d) <==> Overstays(Run(start, steps), d))
  {
    var s0 := Run(start, steps);
    RunSnoc(start, steps, WorkEnds(c));
    RunSnoc(start, steps + [WorkEnds(c)], DelArrives(c));
    RunSnoc(start, steps + [WorkEnds(c)] + [DelArrives(c)], SetArrives(e, key, ttlMs));
    RunSnoc(start, steps + [WorkEnds(c)] + [DelArrives(c)] + [SetArrives(e, key, ttlMs)], ReplyArrives(e));
    hide Run;
    var s1 := Next(s0, WorkEnds(c));
    assert PhaseOf(s1, c).Leaving? && PhaseOf(s1, c).key == key;
    var s2 := Next(s1, DelArrives(c));
    assert key !in s2.store && Works(s2, d, key) && PhaseOf(s2, e).Outside?;
    var s3 := Next(s2, SetArrives(e, key, ttlMs));
    assert PhaseOf(s3, e) == Granted(key, s0.clock + ttlMs) && Works(s3, d, key);
  }

  /** So two clients that have not overstayed can be inside together. */
  lemma TwoTimelyClientsCanBeInside(start: int, key: Key, ttlMs: int)
    requires ttlMs > 0
    ensures exists steps ::
      Works(Run(start, steps), 1, key) && Works(Run(start, steps), 2, key) &&
      !Overstays(Run(start, steps), 1) && !Overstays(Run(start, steps), 2)
  {
    var enter := Entering(0, key, ttlMs);
    EnteringWorks(start, 0, key, ttlMs);
    var s0 := Run(start, enter);
    AWorkerThatStaysIsJoined(start, enter, 0, 1, key, ttlMs);
    JoiningKeepsOutsiders(start, enter, 1, 2, key, ttlMs);
    var two := Joining(enter, s0, 1, key, ttlMs);
    hide Run, Joining, Overstays;
    ALateReleaseLetsAThirdIn(start, two, 0, 1, 2, key, ttlMs);
    assert Works(Run(start, LateRelease(two, 0, 2, key, ttlMs)), 1, key);
  }

  lemma JoiningKeepsOutsiders(start: int, steps: seq<Step>, d: nat, e: nat, key: Key, ttlMs: int)
    requires e != d
    ensures PhaseOf(Run(start, Joining(steps, Run(start, steps), d, key, ttlMs)), e) == PhaseOf(Run(start, steps), e)
  {
    var s0 := Run(start, steps);
    RunSnoc(start, steps, Tick(Remaining(s0, key)));
    RunSnoc(start, steps + [Tick(Remaining(s0, key))], SetArrives(d, key, ttlMs));
    RunSnoc(start, steps + [Tick(Remaining(s0, key))] + [SetArrives(d, key, ttlMs)], ReplyArrives(d));
    hide Run;
  }

  // ------------------------------------------------------------------
  // How long a section may last
  // ------------------------------------------------------------------

  /** The client's section, its DEL included, has lasted at most `longest` since its grant. */
  predicate LastsAtMost(s: State, client: nat, ttlMs: int, longest: nat) {
    match PhaseOf(s, client)
    case Inside(_, deadline) => s.clock - (deadline - ttlMs) <= longest
    case Leaving(_, deadline) => s.clock - (deadline - ttlMs) <= longest
    case _ => true
  }

  ghost predicate AllLastAtMost(s: State, ttlMs: int, longest: nat) {
    forall c :: LastsAtMost(s, c, ttlMs, longest)
  }

  /** A run whose locks all ask for one lifetime, and whose sections last at most `longest`. */
  ghost predicate Regular(start: int, steps: seq<Step>, ttlMs: int, longest: nat) {
    AllLastAtMost(Run(start, steps), ttlMs, longest) &&
    (steps != [] ==>
      Regular(start, steps[..|steps| - 1], ttlMs, longest) &&
      (steps[|steps| - 1].SetArrives? ==> steps[|steps| - 1].ttlMs == ttlMs))
  }

  ghost predicate Exclusive(s: State) {
    forall key, c, d :: Works(s, c, key) && Works(s, d, key) ==> c == d
  }

  lemma ShortSectionsAreTimely(s: State, ttlMs: int, longest: nat)
    requires AllLastAtMost(s, ttlMs, longest) && longest < ttlMs
    ensures Timely(s)
  {
    forall c ensures !Overstays(s, c) {
      assert LastsAtMost(s, c, ttlMs, longest);
    }
  }

  lemma {:induction false} ShortRunsAreTimely(start: int, steps: seq<Step>, ttlMs: int, longest: nat)
    requires Regular(start, steps, ttlMs, longest) && longest < ttlMs
    ensures AlwaysTimely(start, steps)
    decreases |steps|
  {
    hide Run, AllLastAtMost, Timely;
    ShortSectionsAreTimely(Run(start, steps), ttlMs, longest);
    if steps != [] {
      ShortRunsAreTimely(start, steps[..|steps| - 1], ttlMs, longest);
    }
  }

  lemma {:induction false} NothingIsGranted(start: int, steps: seq<Step>, ttlMs: int, longest: nat, c: nat)
    requires Regular(start, steps, ttlMs, longest) && ttlMs <= 0
    ensures PhaseOf(Run(start, steps), c).Outside?
    decreases |steps|
  {
    if steps != [] {
      NothingIsGranted(start, steps[..|steps| - 1], ttlMs, longest, c);
      hide AllLastAtMost;
    }
  }

  lemma RegularSnoc(start: int, steps: seq<Step>, last: Step, ttlMs: int, longest: nat)
    requires Regular(start, steps, ttlMs, longest) && (last.SetArrives? ==> last.ttlMs == ttlMs)
    requires AllLastAtMost(Next(Run(start, steps), last), ttlMs, longest)
    ensures Regular(start, steps + [last], ttlMs, longest)
    ensures Run(start, steps + [last]) == Next(Run(start, steps), last)
  {
    assert (steps + [last])[..|steps|] == steps;
    hide Next, AllLastAtMost;
  }

  lemma RegularEntering(start: int, key: Key, ttlMs: int, longest: nat)
    requires ttlMs > 0
    ensures Regular(start, Entering(0, key, ttlMs), ttlMs, longest)
    ensures Run(start, Entering(0, key, ttlMs)) ==
            State(map[key := Entry(0, start + ttlMs)], start, map[0 := Inside(key, start + ttlMs)])
  {
    assert [] + [SetArrives(0, key, ttlMs)] == [SetArrives(0, key, ttlMs)];
    assert Regular(start, [], ttlMs, longest);
    RegularSnoc(start, [], SetArrives(0, key, ttlMs), ttlMs, longest);
    RegularSnoc(start, [SetArrives(0, key, ttlMs)], ReplyArrives(0), ttlMs, longest);
  }

  lemma RegularJoining(start: int, key: Key, ttlMs: int, longest: nat)
    requires 0 < ttlMs <= longest
    ensures var enter := Entering(0, key, ttlMs);
            Regular(start, Joining(enter, Run(start, enter), 1, key, ttlMs), ttlMs, longest)
  {
    var enter := Entering(0, key, ttlMs);
    RegularEntering(start, key, ttlMs, longest);
    hide Run, Regular, Entering;
    var s := Run(start, enter);
    assert Remaining(s, key) == ttlMs;
    RegularSnoc(start, enter, Tick(ttlMs), ttlMs, longest);
    RegularSnoc(start, enter + [Tick(ttlMs)], SetArrives(1, key, ttlMs), ttlMs, longest);
    RegularSnoc(start, enter + [Tick(ttlMs)] + [SetArrives(1, key, ttlMs)], ReplyArrives(1), ttlMs, longest);
  }

  /** Over all runs whose locks have the lifetime `ttlMs` and whose sections last at most
      `longest` from grant to DEL, no two clients are ever inside the same section exactly
      when the lifetime is the longer, or none is ever granted. */
  lemma ExclusiveExactlyWhen(start: int, ttlMs: int, longest: nat)
    ensures (forall steps :: Regular(start, steps, ttlMs, longest) ==> Exclusive(Run(start, steps)))
       <==> longest < ttlMs || ttlMs <= 0
  {
    hide Run, Regular;
    if longest < ttlMs || ttlMs <= 0 {
      forall steps | Regular(start, steps, ttlMs, longest) ensures Exclusive(Run(start, steps)) {
        ExclusiveRun(start, steps, ttlMs, longest);
      }
    } else {
      var enter := Entering(0, "key", ttlMs);
      EnteringWorks(start, 0, "key", ttlMs);
      AWorkerThatStaysIsJoined(start, enter, 0, 1, "key", ttlMs);
      RegularJoining(start, "key", ttlMs, longest);
      hide Entering, Joining, Works;
      assert !Exclusive(Run(start, Joining(enter, Run(start, enter), 1, "key", ttlMs)));
    }
  }

  lemma ExclusiveRun(start: int, steps: seq<Step>, ttlMs: int, longest: nat)
    requires Regular(start, steps, ttlMs, longest) && (longest < ttlMs || ttlMs <= 0)
    ensures Exclusive(Run(start, steps))
  {
    hide Run, Regular;
    forall key, c, d | Works(Run(start, steps), c, key) && Works(Run(start, steps), d, key) ensures c == d {
      if ttlMs <= 0 {
        NothingIsGranted(start, steps, ttlMs, longest, c);
      } else {
        ShortRunsAreTimely(start, steps, ttlMs, longest);
        hide AlwaysTimely;
        AtMostOneInside(start, steps, key, c, d);
      }
    }
  }

  // ------------------------------------------------------------------
  // The lock object
  // ------------------------------------------------------------------

  /** The store as one client sees it. */
  class RedisStore {
    var entries: map<Key, Entry>
    var clock: int

    constructor (clock: int)
      ensures entries == map[] && this.clock == clock
    {
      this.entries, this.clock := map[], clock;
    }

    method SetNxPx(key: Key, owner: nat, ttlMs: int) returns (ok: bool)
      modifies this`entries
      ensures ok <==> SetSucceeds(old(entries), clock, key, ttlMs)
      ensures entries == if ok then old(entries)[key := Entry(owner, clock + ttlMs)] else old(entries)
    {
      ok := ttlMs > 0 && !(key in entries && clock < entries[key].expiresAt);
      if ok {
        entries := entries[key := Entry(owner, clock + ttlMs)];
      }
    }

    method Del(key: Key)
      modifies this`entries
      ensures entries == old(entries) - {key}
    {
      entries := entries - {key};
    }
  }

  /** A whole `withLock` in steps, between which others leave the store as `during`. */
  function WholeWithLock(s: State, c: nat, key: Key, ttlMs: int, lasts: nat, during: map<Key, Entry>): State {
    if !SetSucceeds(s.store, s.clock, key, ttlMs) then s
    else
      var inside := Next(Next(s, SetArrives(c, key, ttlMs)), ReplyArrives(c));
      var disturbed := Next(inside, Tick(lasts)).(store := during);
      Next(Next(disturbed, WorkEnds(c)), DelArrives(c))
  }

  lemma WholeWithLockLeaves(s: State, c: nat, key: Key, ttlMs: int, lasts: nat, during: map<Key, Entry>)
    requires PhaseOf(s, c).Outside?
    ensures var after := WholeWithLock(s, c, key, ttlMs, lasts, during);
            var free := SetSucceeds(s.store, s.clock, key, ttlMs);
            after.store == (if free then during - {key} else s.store) &&
            after.clock == if free then s.clock + lasts else s.clock
  {
  }

  datatype Outcome<T> = Returned(value: T) | WorkThrew | RedisLockError

  class RedisLock {
    const client: RedisStore
    const id: nat
    const defaultTtlMs: int

    constructor (client: RedisStore, id: nat, defaultTtlMs: int)
      ensures this.client == client && this.id == id && this.defaultTtlMs == defaultTtlMs
    {
      this.client, this.id, this.defaultTtlMs := client, id, defaultTtlMs;
    }

    method Acquire(lockKey: Key, ttlMs: Option<int>) returns (acquired: bool)
      modifies client`entries
      ensures acquired <==> SetSucceeds(old(client.entries), client.clock, lockKey, ttlMs.GetOr(defaultTtlMs))
      ensures client.entries == if acquired
                                then old(client.entries)[lockKey := Entry(id, client.clock + ttlMs.GetOr(defaultTtlMs))]
                                else old(client.entries)
    {
      acquired := client.SetNxPx(lockKey, id, ttlMs.GetOr(defaultTtlMs));
    }

    method Release(lockKey: Key)
      modifies client`entries
      ensures client.entries == old(client.entries) - {lockKey}
    {
      client.Del(lockKey);
    }

    /** Work that takes `lasts` and comes to `result`, at the end of which other clients have
        left the store as `during`. Returning or throwing, it deletes the key, whoever holds
        it by then; refused, it is not run. */
    method WithLock<T>(lockKey: Key, lasts: nat, result: Option<T>, ttlMs: Option<int>, during: map<Key, Entry>)
      returns (outcome: Outcome<T>)
      modifies client
      ensures var ttl := ttlMs.GetOr(defaultTtlMs);
              var free := SetSucceeds(old(client.entries), old(client.clock), lockKey, ttl);
              var before := State(old(client.entries), old(client.clock), map[]);
              var after := WholeWithLock(before, id, lockKey, ttl, lasts, during);
              (outcome == if !free then RedisLockError
                          else if result.Some? then Returned(result.value) else WorkThrew) &&
              client.entries == after.store && client.clock == after.clock &&
              (free ==> client.entries == during - {lockKey})
    {
      WholeWithLockLeaves(State(client.entries, client.clock, map[]), id, lockKey, ttlMs.GetOr(defaultTtlMs),
                          lasts, during);
      hide WholeWithLock;
      var acquired := Acquire(lockKey, ttlMs);
      if !acquired {
        return RedisLockError;
      }
      client.entries, client.clock := during, client.clock + lasts;
      outcome := if result.Some? then Returned(result.value) else WorkThrew;
      Release(lockKey);
    }
  }
}
