/** The sliding-window rate limiter and the notification adapter that consults it. The
    clock is a parameter: each call reads it once, and it never goes backwards. */
module RateLimiters {
  import opened Common

  datatype Channel = Email | Sms | Push | Webhook

  function ChannelName(channel: Channel): string {
    match channel
    case Email => "email"
    case Sms => "sms"
    case Push => "push"
    case Webhook => "webhook"
  }

  /** The key of the `windows` map. */
  function WindowKey(channel: Channel, user: string): string {
    ChannelName(channel) + "::" + user
  }

  /** No two channels or users share a window, whatever characters the user ids hold. */
  lemma KeysAreDistinct(c: Channel, u: string, d: Channel, v: string)
    ensures WindowKey(c, u) == WindowKey(d, v) <==> c == d && u == v
  {
    var k, l := WindowKey(c, u), WindowKey(d, v);
    assert k[|ChannelName(c)|] == ':' && l[|ChannelName(d)|] == ':';
    if k == l {
      assert k[0] == l[0] && k[1] == l[1];
      assert c == d;
      assert k[|ChannelName(c)| + 2..] == u && l[|ChannelName(d)| + 2..] == v;
    }
  }

  datatype Config = Config(windowMs: int, maxCount: int)

  type Windows = map<string, seq<int>>

  function Raw(windows: Windows, key: string): seq<int> {
    if key in windows then windows[key] else []
  }

  /** `timestamps.filter((t) => now - t < windowMs)` */
  function Prune(ts: seq<int>, windowMs: int, now: int): seq<int> {
    if ts == [] then []
    else Prune(ts[..|ts| - 1], windowMs, now) +
         (if now - ts[|ts| - 1] < windowMs then [ts[|ts| - 1]] else [])
  }

  predicate Allowed(cfg: Config, raw: seq<int>, now: int) {
    |Prune(raw, cfg.windowMs, now)| < cfg.maxCount
  }

  function Recorded(cfg: Config, raw: seq<int>, now: int): seq<int> {
    Prune(raw, cfg.windowMs, now) + [now]
  }

  // ------------------------------------------------------------------
  // The adapter as a step system
  // ------------------------------------------------------------------

  datatype Entry = Entry(channel: Channel, user: string, time: int)

  /** `log` lists every send let through since the last reset. */
  datatype State = State(windows: Windows, log: seq<Entry>, clock: int)

  datatype Step =
    | Send(channel: Channel, user: string, optedOut: bool, checkedAt: int, recordedAt: int)
    | Reset

  /** The clock's readings do not go backwards. */
  predicate InTime(s: State, step: Step) {
    step.Send? ==> s.clock <= step.checkedAt <= step.recordedAt
  }

  /** `send` up to its first await is one step. */
  function Next(cfg: Config, s: State, step: Step): State {
    match step
    case Reset => State(map[], [], s.clock)
    case Send(channel, user, optedOut, checkedAt, recordedAt) =>
      var key := WindowKey(channel, user);
      if optedOut then s
      else if !Allowed(cfg, Raw(s.windows, key), checkedAt) then s.(clock := checkedAt)
      else State(s.windows[key := Recorded(cfg, Raw(s.windows, key), recordedAt)],
                 s.log + [Entry(channel, user, recordedAt)], recordedAt)
  }

  function Run(cfg: Config, start: int, steps: seq<Step>): State {
    if steps == [] then State(map[], [], start)
    else Next(cfg, Run(cfg, start, steps[..|steps| - 1]), steps[|steps| - 1])
  }

  ghost predicate AllInTime(cfg: Config, start: int, steps: seq<Step>) {
    steps != [] ==>
      AllInTime(cfg, start, steps[..|steps| - 1]) &&
      InTime(Run(cfg, start, steps[..|steps| - 1]), steps[|steps| - 1])
  }

  // ------------------------------------------------------------------
  // One window
  // ------------------------------------------------------------------

  ghost predicate Ordered(ts: seq<int>, clock: int) {
    (forall i, j :: 0 <= i < j < |ts| ==> ts[i] <= ts[j]) && forall i :: 0 <= i < |ts| ==> ts[i] <= clock
  }

  /** Sends that are `maxCount` apart in number are a whole window apart in time. */
  ghost predicate Spaced(cfg: Config, ts: seq<int>) {
    if cfg.maxCount <= 0 then ts == []
    else forall i, j :: 0 <= i < j < |ts| && j - i >= cfg.maxCount ==> ts[j] - ts[i] >= cfg.windowMs
  }

  /** From `clock` on, the stored list and the full list prune to the same. */
  ghost predicate SameAnswers(windowMs: int, raw: seq<int>, ts: seq<int>, clock: int) {
    forall now :: now >= clock ==> Prune(raw, windowMs, now) == Prune(ts, windowMs, now)
  }

  /** `raw` is the stored list of a key, `ts` the times of all its sends. */
  ghost predicate KeyInv(cfg: Config, raw: seq<int>, ts: seq<int>, clock: int) {
    SameAnswers(cfg.windowMs, raw, ts, clock) && Ordered(ts, clock) && Spaced(cfg, ts)
  }

  lemma {:induction false} PruneTwice(ts: seq<int>, windowMs: int, earlier: int, now: int)
    requires earlier <= now
    ensures Prune(Prune(ts, windowMs, earlier), windowMs, now) == Prune(ts, windowMs, now)
    decreases |ts|
  {
    if ts != [] {
      var init := ts[..|ts| - 1];
      PruneTwice(init, windowMs, earlier, now);
      var kept := Prune(init, windowMs, earlier);
      assert (kept + [ts[|ts| - 1]])[..|kept|] == kept;
      assert kept + [] == kept;
    }
  }

  lemma PruneSnoc(ts: seq<int>, t: int, windowMs: int, now: int)
    ensures Prune(ts + [t], windowMs, now) == Prune(ts, windowMs, now) + (if now - t < windowMs then [t] else [])
  {
    assert (ts + [t])[..|ts|] == ts;
  }

  /** The times within the window form a suffix. */
  lemma {:induction false} PruneKeepsASuffix(ts: seq<int>, windowMs: int, now: int, i: nat)
    requires Ordered(ts, now) && i < |ts| && now - ts[i] < windowMs
    ensures |Prune(ts, windowMs, now)| >= |ts| - i
    decreases |ts|
  {
    if i < |ts| - 1 {
      PruneKeepsASuffix(ts[..|ts| - 1], windowMs, now, i);
    }
  }

  lemma RecordedKeepsSameAnswers(cfg: Config, raw: seq<int>, ts: seq<int>, clock: int, t: int)
    requires SameAnswers(cfg.windowMs, raw, ts, clock) && clock <= t
    ensures SameAnswers(cfg.windowMs, Recorded(cfg, raw, t), ts + [t], t)
  {
    var w := cfg.windowMs;
    forall now | now >= t ensures Prune(Recorded(cfg, raw, t), w, now) == Prune(ts + [t], w, now) {
      PruneSnoc(Prune(raw, w, t), t, w, now);
      PruneSnoc(ts, t, w, now);
      PruneTwice(raw, w, t, now);
    }
  }

  lemma AllowedKeepsSpaced(cfg: Config, raw: seq<int>, ts: seq<int>, clock: int, checkedAt: int, t: int)
    requires KeyInv(cfg, raw, ts, clock) && clock <= checkedAt <= t
    requires Allowed(cfg, raw, checkedAt)
    ensures Spaced(cfg, ts + [t])
  {
    assert Prune(raw, cfg.windowMs, checkedAt) == Prune(ts, cfg.windowMs, checkedAt);
    var more := ts + [t];
    forall i, j | 0 <= i < j < |more| && j - i >= cfg.maxCount ensures more[j] - more[i] >= cfg.windowMs {
      if j == |ts| && checkedAt - ts[i] < cfg.windowMs {
        PruneKeepsASuffix(ts, cfg.windowMs, checkedAt, i);
      }
    }
  }

  lemma RecordedKeepsKeyInv(cfg: Config, raw: seq<int>, ts: seq<int>, clock: int, checkedAt: int, t: int)
    requires KeyInv(cfg, raw, ts, clock) && clock <= checkedAt <= t
    requires Allowed(cfg, raw, checkedAt)
    ensures KeyInv(cfg, Recorded(cfg, raw, t), ts + [t], t)
  {
    RecordedKeepsSameAnswers(cfg, raw, ts, clock, t);
    AllowedKeepsSpaced(cfg, raw, ts, clock, checkedAt, t);
  }

  // ------------------------------------------------------------------
  // All windows
  // ------------------------------------------------------------------

  /** The times of the sends let through to one user on one channel. */
  function Times(log: seq<Entry>, channel: Channel, user: string): seq<int> {
    if log == [] then []
    else
      var last := log[|log| - 1];
      Times(log[..|log| - 1], channel, user) +
      (if last.channel == channel && last.user == user then [last.time] else [])
  }

  ghost predicate Inv(cfg: Config, s: State) {
    forall c, u :: KeyInv(cfg, Raw(s.windows, WindowKey(c, u)), Times(s.log, c, u), s.clock)
  }

  lemma TimesSnoc(log: seq<Entry>, e: Entry, c: Channel, u: string)
    ensures Times(log + [e], c, u) == Times(log, c, u) + if e.channel == c && e.user == u then [e.time] else []
  {
    assert (log + [e])[..|log|] == log;
  }

  lemma LaterKeepsKeyInv(cfg: Config, raw: seq<int>, ts: seq<int>, clock: int, later: int)
    requires KeyInv(cfg, raw, ts, clock) && clock <= later
    ensures KeyInv(cfg, raw, ts, later)
  {
  }

  predicate LetsThrough(cfg: Config, s: State, step: Step) {
    step.Send? && !step.optedOut && Allowed(cfg, Raw(s.windows, WindowKey(step.channel, step.user)), step.checkedAt)
  }

  /** What a step does to the stored list and the full list of one key. */
  lemma SendTouchesOneKey(cfg: Config, s: State, step: Step, c: Channel, u: string)
    requires step.Send?
    ensures var s' := Next(cfg, s, step);
            var raw, ts := Raw(s.windows, WindowKey(c, u)), Times(s.log, c, u);
            var mine := LetsThrough(cfg, s, step) && c == step.channel && u == step.user;
            Raw(s'.windows, WindowKey(c, u)) == (if mine then Recorded(cfg, raw, step.recordedAt) else raw) &&
            Times(s'.log, c, u) == if mine then ts + [step.recordedAt] else ts
  {
    KeysAreDistinct(c, u, step.channel, step.user);
    TimesSnoc(s.log, Entry(step.channel, step.user, step.recordedAt), c, u);
    hide WindowKey, Times, Recorded, Allowed;
  }

  lemma ClockAfter(cfg: Config, s: State, step: Step)
    requires InTime(s, step)
    ensures s.clock <= Next(cfg, s, step).clock
    ensures LetsThrough(cfg, s, step) ==> Next(cfg, s, step).clock == step.recordedAt
  {
    hide WindowKey, Recorded, Allowed, Raw;
  }

  lemma NextKeepsInv(cfg: Config, s: State, step: Step)
    requires Inv(cfg, s) && InTime(s, step)
    ensures Inv(cfg, Next(cfg, s, step))
  {
    if step.Reset? {
      EmptyKeyInv(cfg, s.clock);
      return;
    }
    var s' := Next(cfg, s, step);
    forall c, u ensures KeyInv(cfg, Raw(s'.windows, WindowKey(c, u)), Times(s'.log, c, u), s'.clock) {
      assert KeyInv(cfg, Raw(s.windows, WindowKey(c, u)), Times(s.log, c, u), s.clock);
      SendTouchesOneKey(cfg, s, step, c, u);
      ClockAfter(cfg, s, step);
      hide KeyInv, WindowKey, Times, Recorded, Allowed, Raw, Next, Inv;
      var raw, ts := Raw(s.windows, WindowKey(c, u)), Times(s.log, c, u);
      if LetsThrough(cfg, s, step) && c == step.channel && u == step.user {
        RecordedKeepsKeyInv(cfg, raw, ts, s.clock, step.checkedAt, step.recordedAt);
      } else {
        LaterKeepsKeyInv(cfg, raw, ts, s.clock, s'.clock);
      }
    }
  }

  lemma EmptyKeyInv(cfg: Config, clock: int)
    ensures KeyInv(cfg, [], [], clock)
  {
  }

  lemma {:induction false} RunKeepsInv(cfg: Config, start: int, steps: seq<Step>)
    requires AllInTime(cfg, start, steps)
    ensures Inv(cfg, Run(cfg, start, steps))
    decreases |steps|
  {
    if steps == [] {
      EmptyKeyInv(cfg, start);
    } else {
      hide Next, Inv, InTime;
      RunKeepsInv(cfg, start, steps[..|steps| - 1]);
      NextKeepsInv(cfg, Run(cfg, start, steps[..|steps| - 1]), steps[|steps| - 1]);
    }
  }

  // ------------------------------------------------------------------
  // The limit
  // ------------------------------------------------------------------

  predicate Within(t: int, after: int, upTo: int) {
    after < t <= upTo
  }

  /** How many of the times lie after `after` and not after `upTo`. */
  function CountWithin(ts: seq<int>, after: int, upTo: int): nat {
    if ts == [] then 0
    else CountWithin(ts[..|ts| - 1], after, upTo) + if Within(ts[|ts| - 1], after, upTo) then 1 else 0
  }

  lemma {:induction false} EarlierOnesDoNotCount(ts: seq<int>, after: int, upTo: int, k: nat)
    requires k <= |ts| && forall i :: 0 <= i < k ==> !Within(ts[i], after, upTo)
    ensures CountWithin(ts, after, upTo) <= |ts| - k
    decreases |ts|
  {
    if ts != [] {
      EarlierOnesDoNotCount(ts[..|ts| - 1], after, upTo, if k == |ts| then k - 1 else k);
    }
  }

  lemma {:induction false} SpacedTimesAreFew(cfg: Config, ts: seq<int>, clock: int, upTo: int)
    requires Ordered(ts, clock) && Spaced(cfg, ts)
    ensures CountWithin(ts, upTo - cfg.windowMs, upTo) <= Max(cfg.maxCount, 0)
    decreases |ts|
  {
    if ts == [] {
      return;
    }
    var last := |ts| - 1;
    if !Within(ts[last], upTo - cfg.windowMs, upTo) {
      SpacedTimesAreFew(cfg, ts[..last], clock, upTo);
    } else if |ts| > cfg.maxCount {
      var k := |ts| - cfg.maxCount;
      forall i | 0 <= i < k ensures !Within(ts[i], upTo - cfg.windowMs, upTo) {
        assert ts[last] - ts[i] >= cfg.windowMs;
      }
      EarlierOnesDoNotCount(ts, upTo - cfg.windowMs, upTo, k);
    } else {
      EarlierOnesDoNotCount(ts, upTo - cfg.windowMs, upTo, 0);
    }
  }

  /** However sends to all users and channels interleave, no window of `windowMs` that ends
      at any time holds more than `maxCount` sends to one user on one channel. */
  lemma NeverMoreThanTheLimit(cfg: Config, start: int, steps: seq<Step>, channel: Channel, user: string, upTo: int)
    requires AllInTime(cfg, start, steps)
    ensures CountWithin(Times(Run(cfg, start, steps).log, channel, user), upTo - cfg.windowMs, upTo)
         <= Max(cfg.maxCount, 0)
  {
    RunKeepsInv(cfg, start, steps);
    var s := Run(cfg, start, steps);
    assert KeyInv(cfg, Raw(s.windows, WindowKey(channel, user)), Times(s.log, channel, user), s.clock);
    SpacedTimesAreFew(cfg, Times(s.log, channel, user), s.clock, upTo);
  }

  lemma {:induction false} PruneCounts(ts: seq<int>, windowMs: int, now: int)
    requires Ordered(ts, now)
    ensures |Prune(ts, windowMs, now)| == CountWithin(ts, now - windowMs, now)
    decreases |ts|
  {
    if ts != [] {
      PruneCounts(ts[..|ts| - 1], windowMs, now);
    }
  }

  lemma KeyInvOf(cfg: Config, s: State, channel: Channel, user: string)
    requires Inv(cfg, s)
    ensures KeyInv(cfg, Raw(s.windows, WindowKey(channel, user)), Times(s.log, channel, user), s.clock)
  {
    hide KeyInv;
  }

  lemma PrunedAnswer(cfg: Config, raw: seq<int>, ts: seq<int>, clock: int, now: int)
    requires KeyInv(cfg, raw, ts, clock) && now >= clock
    ensures var count := CountWithin(ts, now - cfg.windowMs, now);
            |Prune(raw, cfg.windowMs, now)| == count && (Allowed(cfg, raw, now) <==> count < cfg.maxCount)
  {
    PruneCounts(ts, cfg.windowMs, now);
  }

  /** The pruned lists answer like the full log: a send is allowed exactly when fewer than
      `maxCount` sends to that user on that channel lie within the window, so nothing is
      refused early and other keys do not matter. */
  lemma PruningLosesNothing(cfg: Config, start: int, steps: seq<Step>, channel: Channel, user: string, now: int)
    requires AllInTime(cfg, start, steps) && now >= Run(cfg, start, steps).clock
    ensures var s := Run(cfg, start, steps);
            var count := CountWithin(Times(s.log, channel, user), now - cfg.windowMs, now);
            |Prune(Raw(s.windows, WindowKey(channel, user)), cfg.windowMs, now)| == count &&
            (Allowed(cfg, Raw(s.windows, WindowKey(channel, user)), now) <==> count < cfg.maxCount)
  {
    RunKeepsInv(cfg, start, steps);
    var s := Run(cfg, start, steps);
    KeyInvOf(cfg, s, channel, user);
    hide *;
    PrunedAnswer(cfg, Raw(s.windows, WindowKey(channel, user)), Times(s.log, channel, user), s.clock, now);
  }

  lemma {:induction false} PrunedAreRecent(ts: seq<int>, windowMs: int, now: int)
    ensures forall t :: t in Prune(ts, windowMs, now) <==> t in ts && now - t < windowMs
    decreases |ts|
  {
    if ts != [] {
      PrunedAreRecent(ts[..|ts| - 1], windowMs, now);
      assert ts == ts[..|ts| - 1] + [ts[|ts| - 1]];
    }
  }

  /** A record forgets all times that have left the window, and only those. */
  lemma RecordForgetsTheOld(cfg: Config, raw: seq<int>, now: int)
    ensures forall t :: t in Recorded(cfg, raw, now) <==> t == now || (t in raw && now - t < cfg.windowMs)
  {
    PrunedAreRecent(raw, cfg.windowMs, now);
  }

  /** What each call does, in any state that such a run reaches: a user who has opted out and
      one whose window is full get nothing; any other send is let through, and it is noted at
      the moment of its record, for its own user and channel. */
  lemma LetThroughExactlyWhen(cfg: Config, start: int, steps: seq<Step>, channel: Channel, user: string,
                              optedOut: bool, checkedAt: int, recordedAt: int)
    requires AllInTime(cfg, start, steps) && Run(cfg, start, steps).clock <= checkedAt <= recordedAt
    ensures var s := Run(cfg, start, steps);
            var after := Next(cfg, s, Send(channel, user, optedOut, checkedAt, recordedAt));
            var recent := CountWithin(Times(s.log, channel, user), checkedAt - cfg.windowMs, checkedAt);
            after.log == s.log + if !optedOut && recent < cfg.maxCount then [Entry(channel, user, recordedAt)] else []
  {
    PruningLosesNothing(cfg, start, steps, channel, user, checkedAt);
    hide Run, Allowed, Recorded, CountWithin, Times, Raw, WindowKey;
  }

  // ------------------------------------------------------------------
  // Recording after the send
  // ------------------------------------------------------------------

  /** Callers of one user and channel that check, send, and record only afterwards, as the
      limiter's own comment suggests. `cleared` holds those that may send and have not yet,
      `sending` those that have sent and not yet recorded it, `sent` the times of all sends. */
  datatype Late = Late(raw: seq<int>, cleared: set<nat>, sending: set<nat>, sent: seq<int>, clock: int)

  datatype LateStep =
    | Check(caller: nat, at: int)
    | SendStarts(caller: nat, at: int)
    | SendEnds(caller: nat, at: int)  // and is recorded
    | GivesUp(caller: nat, at: int)   // the send failed, and nothing is recorded

  /** A step that would turn the clock back does not happen. */
  function LateNext(cfg: Config, s: Late, step: LateStep): Late {
    if step.at < s.clock then s
    else
      var t := s.(clock := step.at);
      match step
      case Check(caller, at) =>
        if caller in s.cleared + s.sending || !Allowed(cfg, s.raw, at) then t
        else t.(cleared := s.cleared + {caller})
      case SendStarts(caller, at) =>
        if caller !in s.cleared then t
        else t.(cleared := s.cleared - {caller}, sending := s.sending + {caller}, sent := s.sent + [at])
      case SendEnds(caller, at) =>
        if caller !in s.sending then t
        else t.(raw := Recorded(cfg, s.raw, at), sending := s.sending - {caller})
      case GivesUp(caller, _) => t.(cleared := s.cleared - {caller})
  }

  function LateRun(cfg: Config, start: int, steps: seq<LateStep>): Late {
    if steps == [] then Late([], {}, {}, [], start)
    else LateNext(cfg, LateRun(cfg, start, steps[..|steps| - 1]), steps[|steps| - 1])
  }

  /** Between check and record. */
  function UnderWay(s: Late): nat {
    |s.cleared| + |s.sending|
  }

  ghost predicate AtMostUnderWay(cfg: Config, start: int, steps: seq<LateStep>, m: nat) {
    UnderWay(LateRun(cfg, start, steps)) <= m &&
    (steps != [] ==> AtMostUnderWay(cfg, start, steps[..|steps| - 1], m))
  }

  /** The configuration whose limit such callers keep. */
  function Loosened(cfg: Config, m: nat): Config {
    cfg.(maxCount := cfg.maxCount - 1 + Max(m, 1))
  }

  /** At any later moment, the sends that no record stands for are at most `missing`. */
  ghost predicate Covered(windowMs: int, raw: seq<int>, sent: seq<int>, missing: nat, clock: int) {
    forall now :: now >= clock ==> CoveredAt(windowMs, raw, sent, missing, now)
  }

  predicate CoveredAt(windowMs: int, raw: seq<int>, sent: seq<int>, missing: nat, now: int) {
    |Prune(sent, windowMs, now)| <= |Prune(raw, windowMs, now)| + missing
  }

  ghost predicate LateInv(cfg: Config, limit: nat, s: Late) {
    s.cleared !! s.sending && Covered(cfg.windowMs, s.raw, s.sent, |s.sending|, s.clock) &&
    Ordered(s.sent, s.clock) && Spaced(Config(cfg.windowMs, limit), s.sent) &&
    |Prune(s.sent, cfg.windowMs, s.clock)| + |s.cleared| <= limit
  }

  lemma {:induction false} PruneIsNoLonger(ts: seq<int>, windowMs: int, now: int)
    ensures |Prune(ts, windowMs, now)| <= |ts|
    decreases |ts|
  {
    if ts != [] {
      PruneIsNoLonger(ts[..|ts| - 1], windowMs, now);
    }
  }

  lemma PruneShrinks(ts: seq<int>, windowMs: int, earlier: int, now: int)
    requires earlier <= now
    ensures |Prune(ts, windowMs, now)| <= |Prune(ts, windowMs, earlier)|
  {
    PruneTwice(ts, windowMs, earlier, now);
    PruneIsNoLonger(Prune(ts, windowMs, earlier), windowMs, now);
  }

  lemma RoomKeepsSpaced(windowMs: int, limit: nat, ts: seq<int>, clock: int, at: int)
    requires Ordered(ts, clock) && clock <= at && Spaced(Config(windowMs, limit), ts)
    requires |Prune(ts, windowMs, at)| < limit
    ensures Spaced(Config(windowMs, limit), ts + [at])
  {
    var more := ts + [at];
    forall i, j | 0 <= i < j < |more| && j - i >= limit ensures more[j] - more[i] >= windowMs {
      if j == |ts| && at - ts[i] < windowMs {
        PruneKeepsASuffix(ts, windowMs, at, i);
      }
    }
  }

  lemma SendKeepsCovered(windowMs: int, raw: seq<int>, sent: seq<int>, missing: nat, clock: int, at: int)
    requires Covered(windowMs, raw, sent, missing, clock) && clock <= at
    ensures Covered(windowMs, raw, sent + [at], missing + 1, at)
  {
    hide Prune;
    var longer, more := sent + [at], missing + 1;
    forall now | now >= at ensures CoveredAt(windowMs, raw, longer, more, now) {
      assert CoveredAt(windowMs, raw, sent, missing, now);
      PruneSnoc(sent, at, windowMs, now);
    }
  }

  lemma {:induction false} OldTimesArePruned(ts: seq<int>, clock: int, windowMs: int, now: int)
    requires Ordered(ts, clock) && now - clock >= windowMs
    ensures Prune(ts, windowMs, now) == []
    decreases |ts|
  {
    if ts != [] {
      OldTimesArePruned(ts[..|ts| - 1], clock, windowMs, now);
    }
  }

  lemma RecordKeepsCovered(cfg: Config, raw: seq<int>, sent: seq<int>, missing: nat, clock: int, at: int)
    requires Covered(cfg.windowMs, raw, sent, missing + 1, clock) && clock <= at && Ordered(sent, at)
    ensures Covered(cfg.windowMs, Recorded(cfg, raw, at), sent, missing, at)
  {
    var w := cfg.windowMs;
    hide Prune;
    forall now | now >= at ensures CoveredAt(w, Recorded(cfg, raw, at), sent, missing, now) {
      assert CoveredAt(w, raw, sent, missing + 1, now);
      PruneSnoc(Prune(raw, w, at), at, w, now);
      PruneTwice(raw, w, at, now);
      if now - at >= w {
        OldTimesArePruned(sent, at, w, now);
      }
    }
  }

  lemma LateCheckKeepsInv(cfg: Config, limit: nat, m: nat, s: Late, caller: nat, at: int)
    requires LateInv(cfg, limit, s) && s.clock <= at && limit == cfg.maxCount - 1 + Max(m, 1)
    requires UnderWay(LateNext(cfg, s, Check(caller, at))) <= m
    ensures LateInv(cfg, limit, LateNext(cfg, s, Check(caller, at)))
  {
    PruneShrinks(s.sent, cfg.windowMs, s.clock, at);
    assert CoveredAt(cfg.windowMs, s.raw, s.sent, |s.sending|, at);
    hide Spaced, Prune;
  }

  lemma SendStartsKeepsInv(cfg: Config, limit: nat, s: Late, caller: nat, at: int)
    requires LateInv(cfg, limit, s) && caller in s.cleared && s.clock <= at
    ensures LateInv(cfg, limit, LateNext(cfg, s, SendStarts(caller, at)))
  {
    PruneShrinks(s.sent, cfg.windowMs, s.clock, at);
    RoomKeepsSpaced(cfg.windowMs, limit, s.sent, s.clock, at);
    SendKeepsCovered(cfg.windowMs, s.raw, s.sent, |s.sending|, s.clock, at);
    PruneSnoc(s.sent, at, cfg.windowMs, at);
    assert |s.cleared - {caller}| == |s.cleared| - 1 && |s.sending + {caller}| == |s.sending| + 1;
    hide Covered, Spaced, Prune;
  }

  lemma SendEndsKeepsInv(cfg: Config, limit: nat, s: Late, caller: nat, at: int)
    requires LateInv(cfg, limit, s) && caller in s.sending && s.clock <= at
    ensures LateInv(cfg, limit, LateNext(cfg, s, SendEnds(caller, at)))
  {
    PruneShrinks(s.sent, cfg.windowMs, s.clock, at);
    assert |s.sending - {caller}| == |s.sending| - 1;
    RecordKeepsCovered(cfg, s.raw, s.sent, |s.sending| - 1, s.clock, at);
    hide Covered, Spaced, Prune, Recorded;
  }

  lemma WaitingKeepsInv(cfg: Config, limit: nat, s: Late, caller: nat, at: int)
    requires LateInv(cfg, limit, s) && s.clock <= at
    ensures LateInv(cfg, limit, s.(clock := at, cleared := s.cleared - {caller}))
    ensures LateInv(cfg, limit, s.(clock := at))
  {
    PruneShrinks(s.sent, cfg.windowMs, s.clock, at);
    assert |s.cleared - {caller}| <= |s.cleared|;
    hide Spaced, Prune;
  }

  lemma LateNextKeepsInv(cfg: Config, limit: nat, m: nat, s: Late, step: LateStep)
    requires LateInv(cfg, limit, s) && limit == cfg.maxCount - 1 + Max(m, 1)
    requires UnderWay(LateNext(cfg, s, step)) <= m
    ensures LateInv(cfg, limit, LateNext(cfg, s, step))
  {
    hide LateInv, Allowed, Recorded, UnderWay;
    if step.at >= s.clock {
      WaitingKeepsInv(cfg, limit, s, step.caller, step.at);
      match step {
        case Check(caller, at) => LateCheckKeepsInv(cfg, limit, m, s, caller, at);
        case SendStarts(caller, at) => if caller in s.cleared { SendStartsKeepsInv(cfg, limit, s, caller, at); }
        case SendEnds(caller, at) => if caller in s.sending { SendEndsKeepsInv(cfg, limit, s, caller, at); }
        case GivesUp(_, _) =>
      }
    }
  }

  lemma {:induction false} LateRunKeepsInv(cfg: Config, start: int, steps: seq<LateStep>, m: nat)
    requires cfg.maxCount >= 1 && AtMostUnderWay(cfg, start, steps, m)
    ensures LateInv(cfg, cfg.maxCount - 1 + Max(m, 1), LateRun(cfg, start, steps))
    decreases |steps|
  {
    if steps != [] {
      var s, last := LateRun(cfg, start, steps[..|steps| - 1]), steps[|steps| - 1];
      assert LateRun(cfg, start, steps) == LateNext(cfg, s, last);
      hide LateInv, LateRun, LateNext;
      LateRunKeepsInv(cfg, start, steps[..|steps| - 1], m);
      LateNextKeepsInv(cfg, cfg.maxCount - 1 + Max(m, 1), m, s, last);
    }
  }

  lemma {:induction false} NothingIsSentWithoutRoom(cfg: Config, start: int, steps: seq<LateStep>)
    requires cfg.maxCount <= 0
    ensures LateRun(cfg, start, steps).cleared == {} && LateRun(cfg, start, steps).sent == []
    decreases |steps|
  {
    if steps != [] {
      var s, last := LateRun(cfg, start, steps[..|steps| - 1]), steps[|steps| - 1];
      assert LateRun(cfg, start, steps) == LateNext(cfg, s, last);
      hide LateRun;
      NothingIsSentWithoutRoom(cfg, start, steps[..|steps| - 1]);
    }
  }

  lemma LooseLimit(cfg: Config, m: nat, s: Late, upTo: int)
    requires cfg.maxCount >= 1 && LateInv(cfg, cfg.maxCount - 1 + Max(m, 1), s)
    ensures CountWithin(s.sent, upTo - cfg.windowMs, upTo) <= cfg.maxCount - 1 + Max(m, 1)
  {
    hide Prune, Spaced, Ordered, Covered, CountWithin;
    SpacedTimesAreFew(Loosened(cfg, m), s.sent, s.clock, upTo);
  }

  /** With at most `m` callers under way at a time, no window holds more than `maxCount` sends
      and one more for every caller but one. */
  lemma LateSendersExceedByTheirNumber(cfg: Config, start: int, steps: seq<LateStep>, m: nat, upTo: int)
    requires AtMostUnderWay(cfg, start, steps, m)
    ensures CountWithin(LateRun(cfg, start, steps).sent, upTo - cfg.windowMs, upTo)
         <= if cfg.maxCount <= 0 then 0 else cfg.maxCount - 1 + Max(m, 1)
  {
    if cfg.maxCount <= 0 {
      assert CountWithin([], upTo - cfg.windowMs, upTo) == 0;
      hide *;
      NothingIsSentWithoutRoom(cfg, start, steps);
    } else {
      hide *;
      LateRunKeepsInv(cfg, start, steps, m);
      LooseLimit(cfg, m, LateRun(cfg, start, steps), upTo);
    }
  }

  // ------------------------------------------------------------------
  // The runs that show it
  // ------------------------------------------------------------------

  lemma LateSnoc(cfg: Config, start: int, steps: seq<LateStep>, last: LateStep, m: nat)
    ensures LateRun(cfg, start, steps + [last]) == LateNext(cfg, LateRun(cfg, start, steps), last)
    ensures AtMostUnderWay(cfg, start, steps, m) && UnderWay(LateRun(cfg, start, steps + [last])) <= m ==>
      AtMostUnderWay(cfg, start, steps + [last], m)
  {
    assert (steps + [last])[..|steps|] == steps;
  }

  /** `n` sends, all recorded, at one moment, with the callers from `from` up to
      `upper` cleared. */
  ghost predicate Crowd(s: Late, t: int, n: nat, from: nat, upper: nat) {
    s.raw == s.sent && |s.sent| == n && s.clock == t && (forall i :: 0 <= i < n ==> s.sent[i] == t) &&
    s.cleared == Callers(from, upper) && s.sending == {}
  }

  function Callers(from: nat, upper: nat): set<nat>
    decreases upper
  {
    if upper <= from then {} else Callers(from, upper - 1) + {upper - 1}
  }

  lemma {:induction false} CallersAre(from: nat, upper: nat)
    requires from <= upper
    ensures |Callers(from, upper)| == upper - from
    ensures forall c :: c in Callers(from, upper) <==> from <= c < upper
    decreases upper
  {
    if from < upper {
      CallersAre(from, upper - 1);
      assert Callers(from, upper) == Callers(from, upper - 1) + {upper - 1};
      hide Callers;
    }
  }

  lemma FirstCallerLeaves(from: nat, upper: nat)
    requires from < upper
    ensures from in Callers(from, upper) && Callers(from + 1, upper) == Callers(from, upper) - {from}
    ensures |Callers(from + 1, upper)| == upper - from - 1
  {
    hide Callers;
    CallersAre(from, upper);
    CallersAre(from + 1, upper);
  }

  lemma {:induction false} AllAtOneMoment(ts: seq<int>, windowMs: int, t: int)
    requires windowMs >= 1 && forall i :: 0 <= i < |ts| ==> ts[i] == t
    ensures Prune(ts, windowMs, t) == ts && CountWithin(ts, t - windowMs, t) == |ts|
    decreases |ts|
  {
    if ts != [] {
      AllAtOneMoment(ts[..|ts| - 1], windowMs, t);
      assert ts == ts[..|ts| - 1] + [t];
    }
  }

  lemma CrowdChecks(cfg: Config, s: Late, t: int, n: nat, from: nat, upper: nat)
    requires cfg.windowMs >= 1 && n < cfg.maxCount && from <= upper && Crowd(s, t, n, from, upper)
    ensures Crowd(LateNext(cfg, s, Check(upper, t)), t, n, from, upper + 1)
    ensures UnderWay(LateNext(cfg, s, Check(upper, t))) == upper + 1 - from
  {
    assert Callers(from, upper + 1) == Callers(from, upper) + {upper};
    hide Prune, CountWithin, Callers;
    AllAtOneMoment(s.raw, cfg.windowMs, t);
    CallersAre(from, upper + 1);
  }

  lemma CrowdSends(cfg: Config, s: Late, t: int, n: nat, from: nat, upper: nat)
    requires cfg.windowMs >= 1 && from < upper && Crowd(s, t, n, from, upper)
    ensures var sending := LateNext(cfg, s, SendStarts(from, t));
            var after := LateNext(cfg, sending, SendEnds(from, t));
            Crowd(after, t, n + 1, from + 1, upper) &&
            UnderWay(sending) == upper - from && UnderWay(after) == upper - from - 1
  {
    hide Prune, CountWithin, Callers;
    AllAtOneMoment(s.raw, cfg.windowMs, t);
    FirstCallerLeaves(from, upper);
    var sending := LateNext(cfg, s, SendStarts(from, t));
    assert sending.cleared == Callers(from + 1, upper) && sending.sending == {from};
    assert sending.sending - {from} == {};
  }

  /** The run so far kept to `m` callers under way and ends in such a crowd. */
  ghost predicate Reaches(cfg: Config, t: int, steps: seq<LateStep>, m: nat, n: nat, from: nat, upper: nat) {
    AtMostUnderWay(cfg, t, steps, m) && Crowd(LateRun(cfg, t, steps), t, n, from, upper)
  }

  lemma OneMoreChecks(cfg: Config, t: int, steps: seq<LateStep>, m: nat, n: nat, from: nat, upper: nat)
    requires cfg.windowMs >= 1 && n < cfg.maxCount && from <= upper < from + m
    requires Reaches(cfg, t, steps, m, n, from, upper)
    ensures Reaches(cfg, t, steps + [Check(upper, t)], m, n, from, upper + 1)
  {
    hide LateRun, LateNext, AtMostUnderWay, Crowd;
    CrowdChecks(cfg, LateRun(cfg, t, steps), t, n, from, upper);
    LateSnoc(cfg, t, steps, Check(upper, t), m);
  }

  lemma OneMoreSends(cfg: Config, t: int, steps: seq<LateStep>, m: nat, n: nat, from: nat, upper: nat)
    requires cfg.windowMs >= 1 && from < upper <= from + m
    requires Reaches(cfg, t, steps, m, n, from, upper)
    ensures Reaches(cfg, t, steps + [SendStarts(from, t)] + [SendEnds(from, t)], m, n + 1, from + 1, upper)
  {
    hide LateRun, LateNext, AtMostUnderWay, Crowd;
    CrowdSends(cfg, LateRun(cfg, t, steps), t, n, from, upper);
    LateSnoc(cfg, t, steps, SendStarts(from, t), m);
    LateSnoc(cfg, t, steps + [SendStarts(from, t)], SendEnds(from, t), m);
  }

  /** Callers that come one after the other. */
  function OneByOne(n: nat, t: int): seq<LateStep> {
    if n == 0 then [] else OneByOne(n - 1, t) + [Check(n - 1, t)] + [SendStarts(n - 1, t)] + [SendEnds(n - 1, t)]
  }

  /** Then callers that all check first. */
  function ThenChecks(n: nat, k: nat, t: int): seq<LateStep> {
    if k == 0 then OneByOne(n, t) else ThenChecks(n, k - 1, t) + [Check(n + k - 1, t)]
  }

  /** And then all send. */
  function ThenSends(n: nat, m: nat, k: nat, t: int): seq<LateStep> {
    if k == 0 then ThenChecks(n, m, t)
    else ThenSends(n, m, k - 1, t) + [SendStarts(n + k - 1, t)] + [SendEnds(n + k - 1, t)]
  }

  lemma {:induction false} AfterOneByOne(cfg: Config, n: nat, m: nat, t: int)
    requires cfg.windowMs >= 1 && n < cfg.maxCount && m >= 1
    ensures Reaches(cfg, t, OneByOne(n, t), m, n, n, n)
    decreases n
  {
    if n > 0 {
      AfterOneByOne(cfg, n - 1, m, t);
      hide Reaches;
      OneMoreChecks(cfg, t, OneByOne(n - 1, t), m, n - 1, n - 1, n - 1);
      OneMoreSends(cfg, t, OneByOne(n - 1, t) + [Check(n - 1, t)], m, n - 1, n - 1, n);
    } else {
      CallersAre(0, 0);
    }
  }

  lemma {:induction false} AfterChecks(cfg: Config, n: nat, k: nat, m: nat, t: int)
    requires cfg.windowMs >= 1 && n < cfg.maxCount && m >= 1 && k <= m
    ensures Reaches(cfg, t, ThenChecks(n, k, t), m, n, n, n + k)
    decreases k
  {
    hide Reaches;
    if k == 0 {
      AfterOneByOne(cfg, n, m, t);
    } else {
      AfterChecks(cfg, n, k - 1, m, t);
      OneMoreChecks(cfg, t, ThenChecks(n, k - 1, t), m, n, n, n + k - 1);
    }
  }

  lemma {:induction false} AfterSends(cfg: Config, n: nat, m: nat, k: nat, t: int)
    requires cfg.windowMs >= 1 && n < cfg.maxCount && m >= 1 && k <= m
    ensures Reaches(cfg, t, ThenSends(n, m, k, t), m, n + k, n + k, n + m)
    decreases k
  {
    hide Reaches;
    if k == 0 {
      AfterChecks(cfg, n, m, m, t);
    } else {
      AfterSends(cfg, n, m, k - 1, t);
      OneMoreSends(cfg, t, ThenSends(n, m, k - 1, t), m, n + k - 1, n + k - 1, n + m);
    }
  }

  /** The bound is reached: so many sends do fall into one window in some such run, and with
      enough callers under way any number does. */
  lemma LateSendersReachTheirBound(cfg: Config, m: nat, t: int) returns (steps: seq<LateStep>)
    requires cfg.maxCount >= 1 && cfg.windowMs >= 1 && m >= 1
    ensures AtMostUnderWay(cfg, t, steps, m)
    ensures CountWithin(LateRun(cfg, t, steps).sent, t - cfg.windowMs, t) == cfg.maxCount - 1 + m
  {
    hide LateRun, AtMostUnderWay, CountWithin, Prune, ThenSends, Callers;
    steps := ThenSends(cfg.maxCount - 1, m, m, t);
    AfterSends(cfg, cfg.maxCount - 1, m, m, t);
    AllAtOneMoment(LateRun(cfg, t, steps).sent, cfg.windowMs, t);
  }

  function CountUpTo(cfg: Config, s: Late, upTo: int): nat {
    CountWithin(s.sent, upTo - cfg.windowMs, upTo)
  }

  ghost predicate KeepsTheLimit(cfg: Config, s: Late) {
    forall upTo :: CountUpTo(cfg, s, upTo) <= Max(cfg.maxCount, 0)
  }

  lemma {:induction false} NothingFitsAnEmptyWindow(ts: seq<int>, after: int, upTo: int)
    requires after >= upTo
    ensures CountWithin(ts, after, upTo) == 0
    decreases |ts|
  {
    if ts != [] {
      NothingFitsAnEmptyWindow(ts[..|ts| - 1], after, upTo);
    }
  }

  lemma LimitKept(cfg: Config, start: int, steps: seq<LateStep>, m: nat)
    requires m <= 1 || cfg.maxCount <= 0 || cfg.windowMs <= 0
    requires AtMostUnderWay(cfg, start, steps, m)
    ensures KeepsTheLimit(cfg, LateRun(cfg, start, steps))
  {
    hide LateRun, AtMostUnderWay, CountWithin;
    var s := LateRun(cfg, start, steps);
    forall upTo ensures CountUpTo(cfg, s, upTo) <= Max(cfg.maxCount, 0) {
      if cfg.windowMs <= 0 {
        NothingFitsAnEmptyWindow(s.sent, upTo - cfg.windowMs, upTo);
      } else {
        LateSendersExceedByTheirNumber(cfg, start, steps, m, upTo);
      }
    }
  }

  /** Callers that record after the send keep the limit in all runs with at most `m` of them
      under way exactly when that is one at a time, unless nothing is let through at all or
      the window is empty. */
  lemma LateSendersKeepTheLimitExactlyWhen(cfg: Config, start: int, m: nat)
    ensures (forall steps :: AtMostUnderWay(cfg, start, steps, m) ==> KeepsTheLimit(cfg, LateRun(cfg, start, steps)))
       <==> m <= 1 || cfg.maxCount <= 0 || cfg.windowMs <= 0
  {
    hide LateRun, AtMostUnderWay, CountWithin;
    if m <= 1 || cfg.maxCount <= 0 || cfg.windowMs <= 0 {
      hide KeepsTheLimit;
      forall steps | AtMostUnderWay(cfg, start, steps, m) ensures KeepsTheLimit(cfg, LateRun(cfg, start, steps)) {
        LimitKept(cfg, start, steps, m);
      }
      return;
    }
    var steps := LateSendersReachTheirBound(cfg, m, start);
    assert !KeepsTheLimit(cfg, LateRun(cfg, start, steps)) by {
      assert CountUpTo(cfg, LateRun(cfg, start, steps), start) > cfg.maxCount;
    }
  }

  // ------------------------------------------------------------------
  // The limiter object
  // ------------------------------------------------------------------

  class RateLimiter {
    var windows: Windows
    const config: Config

    constructor (config: Config)
      ensures this.config == config && windows == map[]
    {
      this.config := config;
      windows := map[];
    }

    method Filter(timestamps: seq<int>, now: int) returns (active: seq<int>)
      ensures active == Prune(timestamps, config.windowMs, now)
    {
      active := [];
      for i := 0 to |timestamps|
        invariant active == Prune(timestamps[..i], config.windowMs, now)
      {
        PruneSnoc(timestamps[..i], timestamps[i], config.windowMs, now);
        assert timestamps[..i + 1] == timestamps[..i] + [timestamps[i]];
        if now - timestamps[i] < config.windowMs {
          active := active + [timestamps[i]];
        }
      }
      assert timestamps[..|timestamps|] == timestamps;
    }

    method IsAllowed(channel: Channel, user: string, now: int) returns (allowed: bool)
      ensures allowed <==> Allowed(config, Raw(windows, WindowKey(channel, user)), now)
    {
      var key := WindowKey(channel, user);
      var raw := if key in windows then windows[key] else [];
      var active := Filter(raw, now);
      return |active| < config.maxCount;
    }

    method Record(channel: Channel, user: string, now: int)
      modifies this`windows
      ensures var key := WindowKey(channel, user);
              windows == old(windows)[key := Recorded(config, Raw(old(windows), key), now)]
    {
      var key := WindowKey(channel, user);
      var raw := if key in windows then windows[key] else [];
      var active := Filter(raw, now);
      windows := windows[key := active + [now]];
    }

    method GetCount(channel: Channel, user: string, now: int) returns (count: nat)
      ensures count == |Prune(Raw(windows, WindowKey(channel, user)), config.windowMs, now)|
    {
      var key := WindowKey(channel, user);
      var raw := if key in windows then windows[key] else [];
      var active := Filter(raw, now);
      return |active|;
    }

    method Reset()
      modifies this`windows
      ensures windows == map[]
    {
      windows := map[];
    }
  }

  // ------------------------------------------------------------------
  // The adapter object
  // ------------------------------------------------------------------

  datatype Status = Pending | Sent | Failed | Skipped

  datatype Notification = Notification(id: string, channel: Channel, user: string, body: string)

  datatype SendResult = SendResult(id: string, status: Status)

  /** What one call of `send` meets outside: the preference store's answer, two clock
      readings, the rendered body (None when rendering throws), and the inner adapter's
      answer (None when it throws). */
  datatype Surroundings = Surroundings(optedOut: bool, checkedAt: int, recordedAt: int,
                                       body: Option<string>, inner: Option<SendResult>)

  datatype BulkSendResult = BulkSendResult(sent: nat, failed: nat, skipped: nat, results: seq<SendResult>)

  function StepOf(n: Notification, around: Surroundings): Step {
    Send(n.channel, n.user, around.optedOut, around.checkedAt, around.recordedAt)
  }

  function CountStatus(results: seq<SendResult>, status: Status): nat {
    if results == [] then 0
    else CountStatus(results[..|results| - 1], status) + if results[|results| - 1].status == status then 1 else 0
  }

  /** Where in the list the results of that status are. */
  function PlacesOf(results: seq<SendResult>, status: Status): set<nat> {
    set i | 0 <= i < |results| && results[i].status == status
  }

  lemma {:induction false} CountIsOfPlaces(results: seq<SendResult>, status: Status)
    ensures CountStatus(results, status) == |PlacesOf(results, status)|
    decreases |results|
  {
    if results != [] {
      var init, last := results[..|results| - 1], |results| - 1;
      CountIsOfPlaces(init, status);
      assert PlacesOf(results, status)
          == PlacesOf(init, status) + if results[last].status == status then {last} else {};
    }
  }

  class ManagedNotificationAdapter {
    const rateLimiter: RateLimiter
    var passed: seq<Notification>  // the calls made to the inner adapter
    ghost var log: seq<Entry>
    ghost var clock: int

    ghost function Model(): State
      reads this, rateLimiter
    {
      State(rateLimiter.windows, log, clock)
    }

    constructor (rateLimiter: RateLimiter, ghost now: int)
      requires rateLimiter.windows == map[]
      ensures this.rateLimiter == rateLimiter && passed == [] && Model() == Run(rateLimiter.config, now, [])
    {
      this.rateLimiter := rateLimiter;
      passed, log, clock := [], [], now;
    }

    /** None when the call throws. A send that is let through is recorded before the body
        is rendered and before the inner adapter is called. */
    method Send(n: Notification, around: Surroundings) returns (result: Option<SendResult>)
      requires clock <= around.checkedAt <= around.recordedAt
      modifies this`passed, this`log, this`clock, rateLimiter`windows
      ensures Model() == Next(rateLimiter.config, old(Model()), StepOf(n, around))
      ensures passed == old(passed) + if log == old(log) || around.body.None? then []
                                       else [n.(body := around.body.value)]
      ensures around.optedOut ==> log == old(log)
      ensures result == if log == old(log) then Some(SendResult(n.id, Skipped))
                        else if around.body.None? then None else around.inner
    {
      if around.optedOut {
        return Some(SendResult(n.id, Skipped));
      }
      var allowed := rateLimiter.IsAllowed(n.channel, n.user, around.checkedAt);
      if !allowed {
        clock := around.checkedAt;
        return Some(SendResult(n.id, Skipped));
      }
      rateLimiter.Record(n.channel, n.user, around.recordedAt);
      log, clock := log + [Entry(n.channel, n.user, around.recordedAt)], around.recordedAt;
      if around.body.None? {
        return None;
      }
      passed := passed + [n.(body := around.body.value)];
      return around.inner;
    }

    /** The counting loop of `sendBulk`: a pending result counts as skipped. */
    static method Tally(results: seq<SendResult>) returns (bulk: BulkSendResult)
      ensures bulk.results == results
      ensures bulk.sent == CountStatus(results, Sent) && bulk.failed == CountStatus(results, Failed)
      ensures bulk.skipped == CountStatus(results, Skipped) + CountStatus(results, Pending)
      ensures bulk.sent + bulk.failed + bulk.skipped == |results|
    {
      var sent, failed, skipped := 0, 0, 0;
      for i := 0 to |results|
        invariant sent == CountStatus(results[..i], Sent) && failed == CountStatus(results[..i], Failed)
        invariant skipped == CountStatus(results[..i], Skipped) + CountStatus(results[..i], Pending)
        invariant sent + failed + skipped == i
      {
        assert results[..i + 1][..i] == results[..i];
        match results[i].status {
          case Sent => sent := sent + 1;
          case Failed => failed := failed + 1;
          case _ => skipped := skipped + 1;
        }
      }
      assert results[..|results|] == results;
      bulk := BulkSendResult(sent, failed, skipped, results);
    }
  }
}
