/** The RabbitMQ event consumer: retries by publishing a fresh copy after a delay that
    doubles, and the dead-letter queue. Every message published by a producer starts a
    lineage of copies; the broker and the timers hold the copies, in any order, and no
    process crashes. */
module RabbitConsumers {
  import opened Common
  import opened Envelopes

  /** The options with their defaults filled in. */
  datatype Config = Config(maxRetries: int, enableRetry: bool, enableDlq: bool, retryDelay: real, handlers: set<string>)

  /** What `handleMessage` does to a delivered copy: acknowledge it; reject it and start a
      timer that publishes its successor; publish it to the dead-letter exchange and
      acknowledge it; or reject it for good. */
  datatype Disposition = Acked | Retried(delay: real, retries: nat) | DeadLettered | Dropped

  /** `getRetryCount` */
  function RetryCount(header: Option<nat>): nat {
    header.GetOr(0)
  }

  predicate ShouldRetry(cfg: Config, retries: nat) {
    cfg.enableRetry && retries < cfg.maxRetries
  }

  /** The `catch` block. */
  function OnFailure(cfg: Config, retries: nat): Disposition {
    if ShouldRetry(cfg, retries) then Retried(cfg.retryDelay * Pow2(retries) as real, retries + 1)
    else if cfg.enableDlq then DeadLettered
    else Dropped
  }

  /** What happens to a delivered copy before any handler is called; None when one is called. */
  function OnArrival(cfg: Config, processed: seq<EventId>, message: Message, retries: nat): Option<Disposition> {
    if message.Garbled? then Some(OnFailure(cfg, retries))
    else if message.eventId in processed || !HasHandler(cfg.handlers, message) then Some(Acked)
    else None
  }

  function OnHandled(cfg: Config, ok: bool, retries: nat): Disposition {
    if ok then Acked else OnFailure(cfg, retries)
  }

  // ------------------------------------------------------------------
  // Queue, deliveries and timers as a step system
  // ------------------------------------------------------------------

  datatype Place = Queued | Delivered | OnTimer

  datatype Copy = Copy(lineage: nat, retries: nat, place: Place)

  /** What has happened to the copies of one lineage, counted. `waited` adds up the delays
      and `deadLetters` every copy in the dead-letter queue, whoever put it there. */
  datatype History = History(message: Message, initial: nat, deliveries: nat, calls: nat, failures: nat,
                             waited: real, deadLetters: nat)

  datatype Ended = Ended(lineage: nat, how: Disposition)

  datatype State = State(copies: seq<Copy>, ended: seq<Ended>, history: seq<History>, processed: seq<EventId>)

  const START := State([], [], [], [])

  datatype Step =
    | Publish(message: Message, header: Option<nat>)
    | Deliver(i: nat)
    | HandlerEnds(i: nat, ok: bool)
    | TimerFires(i: nat)

  function Without<T>(s: seq<T>, i: nat): seq<T>
    requires i < |s|
  {
    s[..i] + s[i + 1..]
  }

  predicate Holds(s: State, i: nat, place: Place) {
    i < |s.copies| && s.copies[i].place == place && s.copies[i].lineage < |s.history|
  }

  /** The channel operations of a disposition. The queue is declared with the dead-letter
      exchange whenever that is enabled, so the broker dead-letters a rejected copy itself. */
  function Settle(cfg: Config, s: State, i: nat, d: Disposition, h: History): State
    requires i < |s.copies| && s.copies[i].lineage < |s.history|
  {
    var c := s.copies[i];
    var rest := Without(s.copies, i);
    var inDlq := if cfg.enableDlq then 1 else 0;
    match d
    case Acked => s.(copies := rest, ended := s.ended + [Ended(c.lineage, d)], history := s.history[c.lineage := h])
    case Retried(delay, retries) =>
      s.(copies := rest + [Copy(c.lineage, retries, OnTimer)],
         history := s.history[c.lineage := h.(failures := h.failures + 1, waited := h.waited + delay,
                                              deadLetters := h.deadLetters + inDlq)])
    case DeadLettered =>
      s.(copies := rest, ended := s.ended + [Ended(c.lineage, d)],
         history := s.history[c.lineage := h.(failures := h.failures + 1, deadLetters := h.deadLetters + 1)])
    case Dropped =>
      s.(copies := rest, ended := s.ended + [Ended(c.lineage, d)],
         history := s.history[c.lineage := h.(failures := h.failures + 1, deadLetters := h.deadLetters + inDlq)])
  }

  function Next(cfg: Config, s: State, step: Step): State {
    match step
    case Publish(message, header) =>
      s.(copies := s.copies + [Copy(|s.history|, RetryCount(header), Queued)],
         history := s.history + [History(message, RetryCount(header), 0, 0, 0, 0.0, 0)])
    case Deliver(i) =>
      if !Holds(s, i, Queued) then s
      else
        var c := s.copies[i];
        var h := s.history[c.lineage];
        var h' := h.(deliveries := h.deliveries + 1);
        (match OnArrival(cfg, s.processed, h.message, c.retries)
         case Some(d) => Settle(cfg, s, i, d, h')
         case None =>
           s.(copies := Without(s.copies, i) + [c.(place := Delivered)],
              history := s.history[c.lineage := h'.(calls := h.calls + 1)]))
    case HandlerEnds(i, ok) =>
      if !Holds(s, i, Delivered) then s
      else
        var c := s.copies[i];
        var h := s.history[c.lineage];
        var settled := Settle(cfg, s, i, OnHandled(cfg, ok, c.retries), h);
        if ok && h.message.Envelope? then settled.(processed := Remember(s.processed, h.message.eventId)) else settled
    case TimerFires(i) =>
      if !Holds(s, i, OnTimer) then s
      else
        var c := s.copies[i];
        s.(copies := Without(s.copies, i) + [c.(place := Queued)])
  }

  function Run(cfg: Config, steps: seq<Step>): State {
    if steps == [] then START else Next(cfg, Run(cfg, steps[..|steps| - 1]), steps[|steps| - 1])
  }

  // ------------------------------------------------------------------
  // What every lineage keeps
  // ------------------------------------------------------------------

  /** How many failures a lineage may survive. */
  function Spare(cfg: Config, initial: nat): nat {
    if cfg.enableRetry then Max(cfg.maxRetries - initial, 0) else 0
  }

  function Backoff(cfg: Config, initial: nat, failures: nat): real {
    cfg.retryDelay * (Pow2(initial + failures) - Pow2(initial)) as real
  }

  /** After `failures` failed deliveries that were all retried. */
  ghost predicate Survived(cfg: Config, h: History, failures: nat) {
    h.failures == failures <= Spare(cfg, h.initial) && h.waited == Backoff(cfg, h.initial, failures) &&
    h.deadLetters == if cfg.enableDlq then failures else 0
  }

  function CallsOf(message: Message, deliveries: nat): nat {
    if message.Garbled? then 0 else deliveries
  }

  ghost predicate CopyInv(cfg: Config, h: History, c: Copy) {
    h.initial <= c.retries && h.calls == CallsOf(h.message, h.deliveries) &&
    match c.place
    case Queued => h.deliveries == c.retries - h.initial && Survived(cfg, h, c.retries - h.initial)
    case Delivered =>
      h.message.Envelope? && h.deliveries == c.retries - h.initial + 1 && Survived(cfg, h, c.retries - h.initial)
    case OnTimer => h.deliveries == c.retries - h.initial && Survived(cfg, h, c.retries - h.initial)
  }

  /** An acknowledged lineage ended at its first delivery that did not fail; any other
      ended because every failure it may survive had happened. */
  ghost predicate EndInv(cfg: Config, h: History, how: Disposition) {
    match how
    case Acked =>
      h.message.Envelope? && h.deliveries - 1 <= h.calls <= h.deliveries && h.deliveries >= 1 &&
      Survived(cfg, h, h.deliveries - 1)
    case DeadLettered => cfg.enableDlq && Exhausted(cfg, h)
    case Dropped => !cfg.enableDlq && Exhausted(cfg, h)
    case Retried(_, _) => false
  }

  ghost predicate Exhausted(cfg: Config, h: History) {
    h.calls == CallsOf(h.message, h.deliveries) &&
    h.deliveries == h.failures == Spare(cfg, h.initial) + 1 &&
    h.waited == Backoff(cfg, h.initial, Spare(cfg, h.initial)) &&
    h.deadLetters == if cfg.enableDlq then h.failures else 0
  }

  function CountCopies(copies: seq<Copy>, id: nat): nat {
    if copies == [] then 0
    else CountCopies(copies[..|copies| - 1], id) + if copies[|copies| - 1].lineage == id then 1 else 0
  }

  function CountEnded(ended: seq<Ended>, id: nat): nat {
    if ended == [] then 0
    else CountEnded(ended[..|ended| - 1], id) + if ended[|ended| - 1].lineage == id then 1 else 0
  }

  /** Every lineage has exactly one live copy, or has ended exactly once. */
  ghost predicate OneEach(s: State) {
    forall id: nat :: CountCopies(s.copies, id) + CountEnded(s.ended, id) == if id < |s.history| then 1 else 0
  }

  ghost predicate CopiesInv(cfg: Config, copies: seq<Copy>, history: seq<History>) {
    forall i :: 0 <= i < |copies| ==>
      copies[i].lineage < |history| && CopyInv(cfg, history[copies[i].lineage], copies[i])
  }

  ghost predicate EndedInv(cfg: Config, ended: seq<Ended>, history: seq<History>) {
    forall k :: 0 <= k < |ended| ==>
      ended[k].lineage < |history| && EndInv(cfg, history[ended[k].lineage], ended[k].how)
  }

  ghost predicate Inv(cfg: Config, s: State) {
    OneEach(s) && CopiesInv(cfg, s.copies, s.history) && EndedInv(cfg, s.ended, s.history)
  }

  // ------------------------------------------------------------------
  // Counting
  // ------------------------------------------------------------------

  lemma CountSnoc(copies: seq<Copy>, c: Copy, id: nat)
    ensures CountCopies(copies + [c], id) == CountCopies(copies, id) + if c.lineage == id then 1 else 0
  {
    assert (copies + [c])[..|copies|] == copies;
  }

  lemma CountEndedSnoc(ended: seq<Ended>, e: Ended, id: nat)
    ensures CountEnded(ended + [e], id) == CountEnded(ended, id) + if e.lineage == id then 1 else 0
  {
    assert (ended + [e])[..|ended|] == ended;
  }

  lemma {:induction false} CountWithout(copies: seq<Copy>, i: nat, id: nat)
    requires i < |copies|
    ensures CountCopies(Without(copies, i), id) == CountCopies(copies, id) - if copies[i].lineage == id then 1 else 0
    decreases |copies|
  {
    var last := |copies| - 1;
    if i == last {
      assert Without(copies, i) == copies[..last];
    } else {
      CountWithout(copies[..last], i, id);
      assert Without(copies, i) == Without(copies[..last], i) + [copies[last]];
      CountSnoc(Without(copies[..last], i), copies[last], id);
    }
  }

  lemma {:induction false} AbsentWhenUncounted(copies: seq<Copy>, ended: seq<Ended>, id: nat)
    requires CountCopies(copies, id) + CountEnded(ended, id) == 0
    ensures forall i :: 0 <= i < |copies| ==> copies[i].lineage != id
    ensures forall k :: 0 <= k < |ended| ==> ended[k].lineage != id
    decreases |copies| + |ended|
  {
    if copies != [] {
      AbsentWhenUncounted(copies[..|copies| - 1], ended, id);
    } else if ended != [] {
      AbsentWhenUncounted(copies, ended[..|ended| - 1], id);
    }
  }

  /** Take one copy out: nothing else belongs to its lineage, whose history may then change. */
  lemma TakeOut(cfg: Config, s: State, i: nat, h: History)
    requires Inv(cfg, s) && i < |s.copies|
    ensures var c := s.copies[i];
            var rest, changed := Without(s.copies, i), s.history[c.lineage := h];
            CopiesInv(cfg, rest, changed) && EndedInv(cfg, s.ended, changed) &&
            forall id: nat :: CountCopies(rest, id) + CountEnded(s.ended, id)
                              == if id < |s.history| && id != c.lineage then 1 else 0
  {
    hide CopyInv, EndInv;
    var c := s.copies[i];
    var rest := Without(s.copies, i);
    forall id: nat ensures CountCopies(rest, id) + CountEnded(s.ended, id)
                           == if id < |s.history| && id != c.lineage then 1 else 0 {
      CountWithout(s.copies, i, id);
      assert CountCopies(s.copies, id) + CountEnded(s.ended, id) == if id < |s.history| then 1 else 0;
    }
    AbsentWhenUncounted(rest, s.ended, c.lineage);
    forall j | 0 <= j < |rest| ensures rest[j].lineage < |s.history| &&
                                       CopyInv(cfg, s.history[rest[j].lineage], rest[j]) {
      assert rest[j] == s.copies[if j < i then j else j + 1];
    }
  }

  lemma PutCopy(cfg: Config, s: State, i: nat, h: History, d: Copy)
    requires Inv(cfg, s) && i < |s.copies| && d.lineage == s.copies[i].lineage && CopyInv(cfg, h, d)
    ensures Inv(cfg, s.(copies := Without(s.copies, i) + [d], history := s.history[d.lineage := h]))
  {
    TakeOut(cfg, s, i, h);
    hide CopyInv, EndInv, Without, CountCopies, CountEnded;
    forall id: nat ensures CountCopies(Without(s.copies, i) + [d], id) + CountEnded(s.ended, id)
                           == if id < |s.history| then 1 else 0 {
      CountSnoc(Without(s.copies, i), d, id);
    }
  }

  lemma PutEnd(cfg: Config, s: State, i: nat, h: History, how: Disposition)
    requires Inv(cfg, s) && i < |s.copies| && EndInv(cfg, h, how)
    ensures var id := s.copies[i].lineage;
            Inv(cfg, s.(copies := Without(s.copies, i), ended := s.ended + [Ended(id, how)],
                        history := s.history[id := h]))
  {
    TakeOut(cfg, s, i, h);
    hide CopyInv, EndInv, Without, CountCopies, CountEnded;
    var e := Ended(s.copies[i].lineage, how);
    forall id: nat ensures CountCopies(Without(s.copies, i), id) + CountEnded(s.ended + [e], id)
                           == if id < |s.history| then 1 else 0 {
      CountEndedSnoc(s.ended, e, id);
    }
  }

  // ------------------------------------------------------------------
  // One delivery
  // ------------------------------------------------------------------

  lemma BackoffGrows(cfg: Config, initial: nat, failures: nat)
    ensures Backoff(cfg, initial, failures) + cfg.retryDelay * Pow2(initial + failures) as real
         == Backoff(cfg, initial, failures + 1)
  {
    Distribute(cfg.retryDelay, (Pow2(initial + failures) - Pow2(initial)) as real, Pow2(initial + failures) as real);
  }

  lemma Distribute(d: real, a: real, b: real)
    ensures d * a + d * b == d * (a + b)
  {
  }

  /** A copy whose delivery fails, after `h` has counted that delivery. */
  lemma FailureKeepsInv(cfg: Config, s: State, i: nat, h: History)
    requires Inv(cfg, s) && i < |s.copies| && s.copies[i].lineage < |s.history|
    requires var c := s.copies[i];
             h.initial <= c.retries && h.calls == CallsOf(h.message, h.deliveries) &&
             h.deliveries == c.retries - h.initial + 1 && Survived(cfg, h, c.retries - h.initial)
    ensures Inv(cfg, Settle(cfg, s, i, OnFailure(cfg, s.copies[i].retries), h))
  {
    hide Inv, Without, Backoff;
    var c := s.copies[i];
    BackoffGrows(cfg, h.initial, c.retries - h.initial);
    var inDlq := if cfg.enableDlq then 1 else 0;
    match OnFailure(cfg, c.retries) {
      case Retried(delay, retries) =>
        PutCopy(cfg, s, i, h.(failures := h.failures + 1, waited := h.waited + delay,
                              deadLetters := h.deadLetters + inDlq), Copy(c.lineage, retries, OnTimer));
      case DeadLettered =>
        PutEnd(cfg, s, i, h.(failures := h.failures + 1, deadLetters := h.deadLetters + 1), DeadLettered);
      case Dropped =>
        PutEnd(cfg, s, i, h.(failures := h.failures + 1, deadLetters := h.deadLetters + inDlq), Dropped);
    }
  }

  lemma DeliverKeepsInv(cfg: Config, s: State, i: nat)
    requires Inv(cfg, s)
    ensures Inv(cfg, Next(cfg, s, Deliver(i)))
  {
    if Holds(s, i, Queued) {
      var c := s.copies[i];
      var h := s.history[c.lineage];
      assert CopyInv(cfg, h, c);
      hide Inv, Without, Backoff, OnFailure, Spare;
      var h' := h.(deliveries := h.deliveries + 1);
      match OnArrival(cfg, s.processed, h.message, c.retries) {
        case Some(Acked) => PutEnd(cfg, s, i, h', Acked);
        case Some(_) => FailureKeepsInv(cfg, s, i, h');
        case None => PutCopy(cfg, s, i, h'.(calls := h.calls + 1), c.(place := Delivered));
      }
    }
  }

  lemma HandlerEndsKeepsInv(cfg: Config, s: State, i: nat, ok: bool)
    requires Inv(cfg, s)
    ensures Inv(cfg, Next(cfg, s, HandlerEnds(i, ok)))
  {
    if Holds(s, i, Delivered) {
      var c := s.copies[i];
      var h := s.history[c.lineage];
      assert CopyInv(cfg, h, c);
      if ok {
        assert EndInv(cfg, h, Acked);
        hide Without, Backoff, OnFailure, Spare, OneEach, CopiesInv, EndedInv, Remember, EndInv, CopyInv;
        PutEnd(cfg, s, i, h, Acked);
      } else {
        assert h.deliveries == c.retries - h.initial + 1 && Survived(cfg, h, c.retries - h.initial);
        hide Without, Backoff, OnFailure, Spare, OneEach, CopiesInv, EndedInv, EndInv, CopyInv, Survived, Settle;
        FailureKeepsInv(cfg, s, i, h);
      }
    }
  }

  lemma PublishKeepsInv(cfg: Config, s: State, message: Message, header: Option<nat>)
    requires Inv(cfg, s)
    ensures Inv(cfg, Next(cfg, s, Publish(message, header)))
  {
    var id := |s.history|;
    var c := Copy(id, RetryCount(header), Queued);
    var h := History(message, RetryCount(header), 0, 0, 0, 0.0, 0);
    assert CopyInv(cfg, h, c);
    hide CopyInv, EndInv, CountCopies, CountEnded;
    var s' := Next(cfg, s, Publish(message, header));
    forall other: nat ensures CountCopies(s'.copies, other) + CountEnded(s'.ended, other)
                              == if other < |s'.history| then 1 else 0 {
      CountSnoc(s.copies, c, other);
      assert CountCopies(s.copies, other) + CountEnded(s.ended, other) == if other < |s.history| then 1 else 0;
    }
  }

  lemma TimerFiresKeepsInv(cfg: Config, s: State, i: nat)
    requires Inv(cfg, s)
    ensures Inv(cfg, Next(cfg, s, TimerFires(i)))
  {
    if Holds(s, i, OnTimer) {
      var c := s.copies[i];
      var h := s.history[c.lineage];
      assert CopyInv(cfg, h, c);
      PutCopy(cfg, s, i, h, c.(place := Queued));
      assert s.history[c.lineage := h] == s.history;
    }
  }

  lemma {:induction false} RunKeepsInv(cfg: Config, steps: seq<Step>)
    ensures Inv(cfg, Run(cfg, steps))
    decreases |steps|
  {
    if steps != [] {
      hide Next, Inv;
      RunKeepsInv(cfg, steps[..|steps| - 1]);
      var s := Run(cfg, steps[..|steps| - 1]);
      match steps[|steps| - 1] {
        case Publish(message, header) => PublishKeepsInv(cfg, s, message, header);
        case Deliver(i) => DeliverKeepsInv(cfg, s, i);
        case HandlerEnds(i, ok) => HandlerEndsKeepsInv(cfg, s, i, ok);
        case TimerFires(i) => TimerFiresKeepsInv(cfg, s, i);
      }
    }
  }

  // ------------------------------------------------------------------
  // What a run guarantees
  // ------------------------------------------------------------------

  /** In every run each published message has, at any moment, exactly one live copy
      (queued, with a consumer, or on a timer) or exactly one end, never both. */
  lemma OneCopyOrOneEnd(cfg: Config, steps: seq<Step>, id: nat)
    requires id < |Run(cfg, steps).history|
    ensures var s := Run(cfg, steps);
            CountCopies(s.copies, id) + CountEnded(s.ended, id) == 1
  {
    RunKeepsInv(cfg, steps);
  }

  lemma {:induction false} CountedIsPresent(copies: seq<Copy>, ended: seq<Ended>, id: nat)
    requires CountCopies(copies, id) + CountEnded(ended, id) > 0
    ensures (exists i :: 0 <= i < |copies| && copies[i].lineage == id)
         || (exists k :: 0 <= k < |ended| && ended[k].lineage == id)
    decreases |copies| + |ended|
  {
    if copies != [] {
      if copies[|copies| - 1].lineage != id {
        CountedIsPresent(copies[..|copies| - 1], ended, id);
      }
    } else if ended[|ended| - 1].lineage != id {
      CountedIsPresent(copies, ended[..|ended| - 1], id);
    }
  }

  lemma LiveOrEnded(cfg: Config, s: State, id: nat)
    requires Inv(cfg, s) && id < |s.history|
    ensures (exists c :: c in s.copies && c.lineage == id && CopyInv(cfg, s.history[id], c))
         || (exists e :: e in s.ended && e.lineage == id && EndInv(cfg, s.history[id], e.how))
  {
    hide CopyInv, EndInv, CountCopies, CountEnded;
    assert CountCopies(s.copies, id) + CountEnded(s.ended, id) == 1;
    CountedIsPresent(s.copies, s.ended, id);
    if i :| 0 <= i < |s.copies| && s.copies[i].lineage == id {
      assert s.copies[i] in s.copies;
    } else {
      var k :| 0 <= k < |s.ended| && s.ended[k].lineage == id;
      assert s.ended[k] in s.ended;
    }
  }

  /** A message is delivered, and its handler called, at most `maxRetries + 1` times,
      counting what its header says of earlier attempts. The dead-letter queue holds one
      copy for every failed delivery, not only for the last. */
  lemma EveryLineageIsBounded(cfg: Config, steps: seq<Step>, id: nat)
    requires id < |Run(cfg, steps).history|
    ensures var h := Run(cfg, steps).history[id];
            h.calls <= h.deliveries <= Spare(cfg, h.initial) + 1 && h.failures <= h.deliveries &&
            h.deadLetters == if cfg.enableDlq then h.failures else 0
  {
    RunKeepsInv(cfg, steps);
    LiveOrEnded(cfg, Run(cfg, steps), id);
    hide Backoff, Run;
  }

  /** A lineage that ends without being acknowledged has used up all its retries: it is
      dead-lettered exactly when that is enabled and otherwise dropped, and the delays
      between its deliveries add up to `retryDelay * (2^maxRetries - 1)`. */
  lemma EndsWithoutSuccessOnlyWhenExhausted(cfg: Config, steps: seq<Step>, k: nat)
    requires k < |Run(cfg, steps).ended| && Run(cfg, steps).ended[k].how != Acked
    ensures var s := Run(cfg, steps);
            var e := s.ended[k];
            e.lineage < |s.history| && e.how == (if cfg.enableDlq then DeadLettered else Dropped) &&
            var h := s.history[e.lineage];
            h.deliveries == h.failures == Spare(cfg, h.initial) + 1 &&
            (cfg.enableRetry && h.initial == 0 && cfg.maxRetries >= 0 ==>
              h.failures == cfg.maxRetries + 1 &&
              h.waited == cfg.retryDelay * (Pow2(cfg.maxRetries) - 1) as real)
  {
    RunKeepsInv(cfg, steps);
    var s := Run(cfg, steps);
    var h := s.history[s.ended[k].lineage];
    assert EndInv(cfg, h, s.ended[k].how);
    hide Run, Inv, Spare, Backoff, CallsOf, Pow2;
    ExhaustedFromTheStart(cfg, h);
  }

  lemma ExhaustedFromTheStart(cfg: Config, h: History)
    requires Exhausted(cfg, h)
    ensures cfg.enableRetry && h.initial == 0 && cfg.maxRetries >= 0 ==>
      h.failures == cfg.maxRetries + 1 && h.waited == cfg.retryDelay * (Pow2(cfg.maxRetries) - 1) as real
  {
    if cfg.enableRetry && h.initial == 0 && cfg.maxRetries >= 0 {
      assert Spare(cfg, 0) == cfg.maxRetries && Pow2(0) == 1;
      hide Pow2;
      assert Backoff(cfg, 0, cfg.maxRetries) == cfg.retryDelay * (Pow2(0 + cfg.maxRetries) - Pow2(0)) as real;
    }
  }

  /** A lineage that ends acknowledged still leaves a copy in the dead-letter queue for
      every delivery but the last, so that queue does not hold only lost messages. */
  lemma AcknowledgedLeavesDeadLetters(cfg: Config, steps: seq<Step>, k: nat)
    requires k < |Run(cfg, steps).ended| && Run(cfg, steps).ended[k].how == Acked
    ensures var s := Run(cfg, steps);
            var e := s.ended[k];
            e.lineage < |s.history| &&
            var h := s.history[e.lineage];
            h.message.Envelope? && h.failures == h.deliveries - 1 &&
            (h.deadLetters > 0 <==> cfg.enableDlq && h.deliveries > 1)
  {
    RunKeepsInv(cfg, steps);
    var s := Run(cfg, steps);
    assert EndInv(cfg, s.history[s.ended[k].lineage], s.ended[k].how);
  }

  /** The handler fails once and then succeeds. */
  function TwoAttempts(message: Message): seq<Step> {
    [Publish(message, None), Deliver(0), HandlerEnds(0, false), TimerFires(0), Deliver(0), HandlerEnds(0, true)]
  }

  lemma {:induction false} TwoAttemptsStates(cfg: Config, message: Message, k: nat)
    requires cfg.enableRetry && cfg.maxRetries > 0 && cfg.enableDlq && HasHandler(cfg.handlers, message) && k <= 6
    ensures var s := Run(cfg, TwoAttempts(message)[..k]);
            s.copies == (if k == 0 || k == 6 then []
                         else [Copy(0, if k < 3 then 0 else 1,
                                    if k == 1 || k == 4 then Queued else if k == 3 then OnTimer else Delivered)]) &&
            s.ended == (if k < 6 then [] else [Ended(0, Acked)]) &&
            (k < 6 ==> s.processed == []) && |s.history| == (if k == 0 then 0 else 1) &&
            (k > 0 ==> s.history[0].message == message && s.history[0].deadLetters == if k < 3 then 0 else 1)
    decreases k
  {
    if k > 0 {
      TwoAttemptsStates(cfg, message, k - 1);
      assert TwoAttempts(message)[..k][..k - 1] == TwoAttempts(message)[..k - 1];
      var s, last := Run(cfg, TwoAttempts(message)[..k - 1]), TwoAttempts(message)[k - 1];
      assert Run(cfg, TwoAttempts(message)[..k]) == Next(cfg, s, last);
      assert k > 1 ==> Without(s.copies, 0) == [];
      hide Run, Pow2, HasHandler, Remember, Without;
    }
  }

  /** Such a run. */
  lemma SuccessOnTheSecondAttemptIsDeadLettered(cfg: Config, message: Message)
    requires cfg.enableRetry && cfg.maxRetries > 0 && cfg.enableDlq && HasHandler(cfg.handlers, message)
    ensures exists steps ::
      var s := Run(cfg, steps);
      s.copies == [] && s.ended == [Ended(0, Acked)] && |s.history| == 1 && s.history[0].deadLetters == 1
  {
    hide Run;
    TwoAttemptsStates(cfg, message, 6);
    assert TwoAttempts(message)[..6] == TwoAttempts(message);
    assert Run(cfg, TwoAttempts(message)).copies == [];
  }

  /** A handler is called only for a message that has one. */
  ghost predicate CalledHaveHandlers(cfg: Config, history: seq<History>) {
    forall id :: 0 <= id < |history| && history[id].calls > 0 ==> HasHandler(cfg.handlers, history[id].message)
  }

  lemma {:induction false} RunCallsHandlers(cfg: Config, steps: seq<Step>)
    ensures CalledHaveHandlers(cfg, Run(cfg, steps).history)
    decreases |steps|
  {
    if steps != [] {
      RunCallsHandlers(cfg, steps[..|steps| - 1]);
      hide HasHandler, OnFailure, Without, Remember, Pow2, Run;
      assert Run(cfg, steps).history == Next(cfg, Run(cfg, steps[..|steps| - 1]), steps[|steps| - 1]).history by {
        hide Next;
      }
    }
  }

  /** Some message ends acknowledged, with a copy of it in the dead-letter queue. */
  ghost predicate LeavesADeadLetter(s: State) {
    exists k :: 0 <= k < |s.ended| && s.ended[k].how == Acked && s.ended[k].lineage < |s.history| &&
                s.history[s.ended[k].lineage].deadLetters > 0
  }

  /** An acknowledged message can leave a dead letter exactly when dead-lettering and
      retrying are both enabled, with at least one retry, and something is handled. */
  lemma DeadLetterOfAnAcknowledgedExactlyWhen(cfg: Config)
    ensures (exists steps :: LeavesADeadLetter(Run(cfg, steps)))
       <==> cfg.enableDlq && cfg.enableRetry && cfg.maxRetries > 0 && cfg.handlers != {}
  {
    hide Run;
    if steps :| LeavesADeadLetter(Run(cfg, steps)) {
      var s := Run(cfg, steps);
      var k :| 0 <= k < |s.ended| && s.ended[k].how == Acked && s.ended[k].lineage < |s.history| &&
               s.history[s.ended[k].lineage].deadLetters > 0;
      RunKeepsInv(cfg, steps);
      RunCallsHandlers(cfg, steps);
      assert EndInv(cfg, s.history[s.ended[k].lineage], Acked);
      assert HasHandler(cfg.handlers, s.history[s.ended[k].lineage].message);
    }
    if cfg.enableDlq && cfg.enableRetry && cfg.maxRetries > 0 && cfg.handlers != {} {
      var handled :| handled in cfg.handlers;
      SuccessOnTheSecondAttemptIsDeadLettered(cfg, Envelope(None, Some(handled)));
      var steps :| Run(cfg, steps).ended == [Ended(0, Acked)] && |Run(cfg, steps).history| == 1 &&
                   Run(cfg, steps).history[0].deadLetters == 1;
      assert Run(cfg, steps).ended[0] == Ended(0, Acked);
      assert LeavesADeadLetter(Run(cfg, steps));
    }
  }

  // ------------------------------------------------------------------
  // Duplicates
  // ------------------------------------------------------------------

  /** The id of the message whose handler the step ends well, if it does. */
  function HandledBy(s: State, step: Step): seq<EventId> {
    if step.HandlerEnds? && step.ok && Holds(s, step.i, Delivered) &&
       s.history[s.copies[step.i].lineage].message.Envelope?
    then [s.history[s.copies[step.i].lineage].message.eventId] else []
  }

  /** The ids of all successful handler calls of the run, in order. */
  function Handled(cfg: Config, steps: seq<Step>): seq<EventId> {
    if steps == [] then []
    else
      Handled(cfg, steps[..|steps| - 1]) + HandledBy(Run(cfg, steps[..|steps| - 1]), steps[|steps| - 1])
  }

  lemma RememberingIsEntering(handled: seq<EventId>, id: EventId)
    ensures Remember(LastIds(Entered(handled)), id) == LastIds(Entered(handled + [id]))
  {
    EnteredIsSpreadOut(handled);
    EnteredSnoc(handled, id);
    hide Entered;
    if id !in LastIds(Entered(handled)) {
      RememberKeepsBounded(LastIds(Entered(handled)), Entered(handled), id);
    }
  }

  lemma StepRemembers(cfg: Config, s: State, step: Step)
    ensures Next(cfg, s, step).processed
         == if HandledBy(s, step) == [] then s.processed else Remember(s.processed, HandledBy(s, step)[0])
  {
    hide OnArrival, OnFailure, Without, Remember, Pow2;
  }

  /** The set of processed ids is at any moment the last `CAPACITY` ids to have entered it. */
  lemma {:induction false} ProcessedIdsAreTheLatest(cfg: Config, steps: seq<Step>)
    ensures Run(cfg, steps).processed == LastIds(Entered(Handled(cfg, steps)))
    decreases |steps|
  {
    if steps != [] {
      var init, last := steps[..|steps| - 1], steps[|steps| - 1];
      ProcessedIdsAreTheLatest(cfg, init);
      StepRemembers(cfg, Run(cfg, init), last);
      var ids := HandledBy(Run(cfg, init), last);
      assert Handled(cfg, steps) == Handled(cfg, init) + ids && Run(cfg, steps) == Next(cfg, Run(cfg, init), last);
      hide Run, Next, Handled, HandledBy, Entered, LastIds, Remember;
      if ids == [] {
        assert Handled(cfg, init) + ids == Handled(cfg, init);
      } else {
        RememberingIsEntering(Handled(cfg, init), ids[0]);
        assert ids == [ids[0]];
      }
    }
  }

  /** What a delivery does, in every reachable state, by the ids handled so far. The handler
      is called exactly for a readable message with a handler whose id is not among the last
      `CAPACITY` that entered; a duplicate, or a message that nobody wants, ends acknowledged
      without a call; and an unreadable one fails without a call. */
  lemma DeliveryCallsExactlyTheNew(cfg: Config, steps: seq<Step>, i: nat)
    requires Holds(Run(cfg, steps), i, Queued)
    ensures var s := Run(cfg, steps);
            var c := s.copies[i];
            var h := s.history[c.lineage];
            var after := Next(cfg, s, Deliver(i));
            var h' := h.(deliveries := h.deliveries + 1);
            after.processed == s.processed &&
            if h.message.Garbled? then
              after == Settle(cfg, s, i, OnFailure(cfg, c.retries), h') && after.history[c.lineage].calls == h.calls
            else if HasHandler(cfg.handlers, h.message) &&
                    h.message.eventId !in LastIds(Entered(Handled(cfg, steps))) then
              after == s.(copies := Without(s.copies, i) + [Copy(c.lineage, c.retries, Delivered)],
                          history := s.history[c.lineage := h'.(calls := h.calls + 1)])
            else
              after == s.(copies := Without(s.copies, i), ended := s.ended + [Ended(c.lineage, Acked)],
                          history := s.history[c.lineage := h'])
  {
    ProcessedIdsAreTheLatest(cfg, steps);
    hide Run, Entered, LastIds, Handled, Without, HasHandler;
  }

  /** A copy of the lineage is with the consumer. */
  ghost predicate InHand(s: State, lineage: nat) {
    exists i :: 0 <= i < |s.copies| && s.copies[i].place == Delivered && s.copies[i].lineage == lineage
  }

  lemma StepTakesInHand(cfg: Config, s: State, step: Step, lineage: nat)
    requires !InHand(s, lineage) && InHand(Next(cfg, s, step), lineage)
    ensures step.Deliver? && Holds(s, step.i, Queued) && s.copies[step.i].lineage == lineage &&
            s.history[lineage].message.Envelope? && s.history[lineage].message.eventId !in s.processed
  {
    hide HasHandler, OnFailure, Remember, Pow2, Without;
    var after := Next(cfg, s, step);
    var k :| 0 <= k < |after.copies| && after.copies[k].place == Delivered && after.copies[k].lineage == lineage;
    var c := after.copies[k];
    assert c !in s.copies;
    forall i: nat | i < |s.copies| ensures c !in Without(s.copies, i) {
      WithoutIsPart(s.copies, i, c);
    }
    match step {
      case Deliver(i) => assert Holds(s, i, Queued);
      case _ =>
    }
  }

  lemma WithoutIsPart(copies: seq<Copy>, i: nat, c: Copy)
    requires i < |copies|
    ensures c in Without(copies, i) ==> c in copies
  {
  }

  /** The state before the `k`-th step, and the ids handled before it. */
  function StateAt(cfg: Config, steps: seq<Step>, k: nat): State
    requires k <= |steps|
  {
    Run(cfg, steps[..k])
  }

  function HandledBefore(cfg: Config, steps: seq<Step>, k: nat): seq<EventId>
    requires k <= |steps|
  {
    Handled(cfg, steps[..k])
  }

  lemma AtStep(cfg: Config, steps: seq<Step>, k: nat)
    requires k < |steps|
    ensures StateAt(cfg, steps, k + 1) == Next(cfg, StateAt(cfg, steps, k), steps[k])
    ensures HandledBefore(cfg, steps, k + 1)
         == HandledBefore(cfg, steps, k) + HandledBy(StateAt(cfg, steps, k), steps[k])
  {
    assert steps[..k + 1][..k] == steps[..k];
  }

  lemma {:induction false} TakenInHand(cfg: Config, steps: seq<Step>, k: nat, n: nat, lineage: nat) returns (d: nat)
    requires k <= n <= |steps|
    requires !InHand(StateAt(cfg, steps, k), lineage) && InHand(StateAt(cfg, steps, n), lineage)
    ensures k <= d < n && !InHand(StateAt(cfg, steps, d), lineage) && InHand(StateAt(cfg, steps, d + 1), lineage)
    decreases n
  {
    hide *;
    if InHand(StateAt(cfg, steps, n - 1), lineage) {
      d := TakenInHand(cfg, steps, k, n - 1, lineage);
    } else {
      d := n - 1;
    }
  }

  /** The `k`-th step of the run ends the handler of this lineage, and its message has the id. */
  ghost predicate HandledAt(cfg: Config, steps: seq<Step>, k: nat, lineage: nat, id: EventId) {
    k < |steps| && steps[k].HandlerEnds? && steps[k].ok &&
    var s := StateAt(cfg, steps, k);
    Holds(s, steps[k].i, Delivered) && s.copies[steps[k].i].lineage == lineage &&
    s.history[lineage].message.Envelope? && s.history[lineage].message.eventId == id
  }

  lemma HandledAtIsListed(cfg: Config, steps: seq<Step>, k: nat, lineage: nat, id: EventId)
    requires HandledAt(cfg, steps, k, lineage, id)
    ensures HandledBefore(cfg, steps, k + 1) == HandledBefore(cfg, steps, k) + [id]
    ensures InHand(StateAt(cfg, steps, k), lineage)
  {
    AtStep(cfg, steps, k);
    hide StateAt, HandledBefore;
  }

  lemma {:induction false} HandledGrows(cfg: Config, steps: seq<Step>, k: nat, d: nat)
    requires k <= d <= |steps|
    ensures HandledBefore(cfg, steps, k) <= HandledBefore(cfg, steps, d)
    decreases d
  {
    hide StateAt, HandledBefore, HandledBy;
    if k < d {
      HandledGrows(cfg, steps, k, d - 1);
      AtStep(cfg, steps, d - 1);
    }
  }

  /** The ids handled after the step `a` and before the step `d`. */
  function HandledBetween(cfg: Config, steps: seq<Step>, a: nat, d: nat): seq<EventId>
    requires a < d <= |steps|
  {
    HandledGrows(cfg, steps, a + 1, d);
    HandledBefore(cfg, steps, d)[|HandledBefore(cfg, steps, a + 1)|..]
  }

  /** A step adds one handling to the list, or none. */
  lemma HandlingOfStep(cfg: Config, steps: seq<Step>, k: nat) returns (lineage: nat)
    requires k < |steps|
    ensures var before, after := HandledBefore(cfg, steps, k), HandledBefore(cfg, steps, k + 1);
            if |after| > |before|
            then |after| == |before| + 1 && HandledAt(cfg, steps, k, lineage, after[|before|]) && before <= after
            else after == before
  {
    AtStep(cfg, steps, k);
    hide StateAt, HandledBefore;
    var s := StateAt(cfg, steps, k);
    lineage := if HandledBy(s, steps[k]) == [] then 0 else s.copies[steps[k].i].lineage;
  }

  lemma NothingBefore(cfg: Config, steps: seq<Step>)
    ensures HandledBefore(cfg, steps, 0) == []
  {
  }

  /** The step that made the `j`-th handling of the run. */
  lemma {:induction false} StepOfHandling(cfg: Config, steps: seq<Step>, n: nat, j: nat)
      returns (k: nat, lineage: nat)
    requires n <= |steps| && j < |HandledBefore(cfg, steps, n)|
    ensures k < n && |HandledBefore(cfg, steps, k)| == j && |HandledBefore(cfg, steps, k + 1)| == j + 1
    ensures HandledAt(cfg, steps, k, lineage, HandledBefore(cfg, steps, n)[j])
    decreases n
  {
    hide *;
    NothingBefore(cfg, steps);
    k := n - 1;
    lineage := HandlingOfStep(cfg, steps, k);
    var before := HandledBefore(cfg, steps, k);
    if j < |before| {
      assert before[j] == HandledBefore(cfg, steps, n)[j];
      k, lineage := StepOfHandling(cfg, steps, n - 1, j);
    }
  }

  /** The id of this handling was no longer known before the step `d`: it had been new to the
      set at some handling up to this one, and then pushed out by `CAPACITY` others. */
  lemma ForgottenSince(cfg: Config, steps: seq<Step>, k: nat, lineage: nat, d: nat, id: EventId)
      returns (a: nat, origin: nat)
    requires k < d <= |steps| && HandledAt(cfg, steps, k, lineage, id)
    requires id !in LastIds(Entered(HandledBefore(cfg, steps, d)))
    ensures a <= k && HandledAt(cfg, steps, a, origin, id) && ManyOthers(HandledBetween(cfg, steps, a, d), id)
  {
    HandledAtIsListed(cfg, steps, k, lineage, id);
    HandledGrows(cfg, steps, k + 1, d);
    hide *;
    var j := ForgottenAfter(HandledBefore(cfg, steps, k), id, HandledBefore(cfg, steps, d));
    a, origin := StepOfHandling(cfg, steps, d, j);
    NotLater(cfg, steps, a, k, id);
    BetweenIsTheRest(cfg, steps, a, d, j);
  }

  lemma NotLater(cfg: Config, steps: seq<Step>, a: nat, k: nat, id: EventId)
    requires a < |steps| && k < |steps| && |HandledBefore(cfg, steps, a)| <= |HandledBefore(cfg, steps, k)|
    requires HandledBefore(cfg, steps, k + 1) == HandledBefore(cfg, steps, k) + [id]
    ensures a <= k
  {
    hide *;
    if a > k {
      HandledGrows(cfg, steps, k + 1, a);
    }
  }

  lemma BetweenIsTheRest(cfg: Config, steps: seq<Step>, a: nat, d: nat, j: nat)
    requires a < d <= |steps| && |HandledBefore(cfg, steps, a + 1)| == j + 1 <= |HandledBefore(cfg, steps, d)|
    ensures HandledBetween(cfg, steps, a, d) == HandledBefore(cfg, steps, d)[j + 1..]
  {
    hide HandledBefore;
  }

  lemma MessageStays(cfg: Config, s: State, step: Step, lineage: nat)
    requires lineage < |s.history|
    ensures lineage < |Next(cfg, s, step).history|
    ensures Next(cfg, s, step).history[lineage].message == s.history[lineage].message
  {
    hide OnArrival, OnFailure, Without, Remember;
  }

  lemma {:induction false} MessagesStay(cfg: Config, steps: seq<Step>, k: nat, d: nat, lineage: nat)
    requires k <= d <= |steps| && lineage < |StateAt(cfg, steps, k).history|
    ensures lineage < |StateAt(cfg, steps, d).history|
    ensures StateAt(cfg, steps, d).history[lineage].message == StateAt(cfg, steps, k).history[lineage].message
    decreases d
  {
    hide *;
    if k < d {
      MessagesStay(cfg, steps, k, d - 1, lineage);
      AtStep(cfg, steps, d - 1);
      MessageStays(cfg, StateAt(cfg, steps, d - 1), steps[d - 1], lineage);
    }
  }

  /** A copy taken in hand has an id that is not known. */
  lemma TakenIsUnknown(cfg: Config, steps: seq<Step>, d: nat, lineage: nat)
    requires d < |steps| && !InHand(StateAt(cfg, steps, d), lineage) && InHand(StateAt(cfg, steps, d + 1), lineage)
    ensures steps[d].Deliver? && lineage < |StateAt(cfg, steps, d).history|
    ensures var message := StateAt(cfg, steps, d).history[lineage].message;
            message.Envelope? && message.eventId !in LastIds(Entered(HandledBefore(cfg, steps, d)))
  {
    AtStep(cfg, steps, d);
    ProcessedIdsAreTheLatest(cfg, steps[..d]);
    assert StateAt(cfg, steps, d).processed == LastIds(Entered(HandledBefore(cfg, steps, d)));
    hide StateAt, HandledBefore, InHand, LastIds, Entered, Next;
    StepTakesInHand(cfg, StateAt(cfg, steps, d), steps[d], lineage);
  }

  /** Two successful handlings of one id. Either the second copy was in hand before the first
      handling ended, or the id was new to the set at some handling up to the first one and
      `CAPACITY` different other ids were handled between that and the second call. */
  lemma HandledTwiceOnlyFarApart(cfg: Config, steps: seq<Step>, k1: nat, first: nat, k2: nat, second: nat, id: EventId)
    requires k1 < k2 && HandledAt(cfg, steps, k1, first, id) && HandledAt(cfg, steps, k2, second, id)
    ensures InHand(StateAt(cfg, steps, k1), second) ||
            exists a: nat, origin: nat, d: nat ::
              a <= k1 < d < k2 && HandledAt(cfg, steps, a, origin, id) &&
              ManyOthers(HandledBetween(cfg, steps, a, d), id)
  {
    if !InHand(StateAt(cfg, steps, k1), second) {
      HandledAtIsListed(cfg, steps, k2, second, id);
      hide StateAt, HandledBefore, HandledBetween, InHand, LastIds, Entered, ManyOthers;
      var d := TakenInHand(cfg, steps, k1, k2, second);
      TakenIsUnknown(cfg, steps, d, second);
      MessagesStay(cfg, steps, d, k2, second);
      var a, origin := ForgottenSince(cfg, steps, k1, first, d, id);
    }
  }

  // ------------------------------------------------------------------
  // A repeat does not renew its id
  // ------------------------------------------------------------------

  /** The id that comes `n`-th after the one without any. */
  function Nth(n: nat): EventId {
    Some(seq(n, _ => 'a'))
  }

  function Of(typ: string, id: EventId): Message {
    Envelope(id, Some(typ))
  }

  /** Two copies of one id are in hand together, and one of them is handled; then come others. */
  function Others(typ: string, n: nat): seq<Step> {
    if n == 0 then
      [Publish(Of(typ, None), None)] + [Publish(Of(typ, None), None)] + [Deliver(0)] + [Deliver(0)] +
      [HandlerEnds(0, true)]
    else
      Others(typ, n - 1) + [Publish(Of(typ, Nth(n - 1)), None)] + [Deliver(1)] + [HandlerEnds(1, true)]
  }

  function Known(n: nat): seq<EventId> {
    if n == 0 then [None] else Known(n - 1) + [Nth(n - 1)]
  }

  lemma {:induction false} KnownAre(n: nat)
    ensures |Known(n)| == n + 1 && Known(n)[0] == None && forall i :: 0 < i <= n ==> Known(n)[i] == Nth(i - 1)
    ensures Nth(n) !in Known(n)
    decreases n
  {
    if n > 0 {
      KnownAre(n - 1);
    }
    hide Known;
    assert forall i: nat :: i < n ==> |Nth(i).value| != |Nth(n).value|;
  }

  /** The second copy is still in hand while `n` others have come and gone. */
  ghost predicate StillInHand(typ: string, s: State, n: nat) {
    s.copies == [Copy(1, 0, Delivered)] && |s.history| == n + 2 && s.history[1].message == Of(typ, None) &&
    s.processed == Known(n)
  }

  lemma RunSnoc(cfg: Config, steps: seq<Step>, last: Step)
    ensures Run(cfg, steps + [last]) == Next(cfg, Run(cfg, steps), last)
  {
    assert (steps + [last])[..|steps|] == steps;
  }

  lemma RunThree(cfg: Config, steps: seq<Step>, a: Step, b: Step, c: Step)
    ensures Run(cfg, steps + [a] + [b] + [c]) == Next(cfg, Next(cfg, Next(cfg, Run(cfg, steps), a), b), c)
  {
    hide *;
    RunSnoc(cfg, steps, a);
    RunSnoc(cfg, steps + [a], b);
    RunSnoc(cfg, steps + [a] + [b], c);
  }

  lemma TwoInHand(cfg: Config, typ: string)
    requires typ in cfg.handlers
    ensures StillInHand(typ, Run(cfg, Others(typ, 0)), 0)
  {
    var p, d := Publish(Of(typ, None), None), Deliver(0);
    assert Run(cfg, []) == START && [] + [p] == [p];
    hide Run;
    RunSnoc(cfg, [], p);
    RunSnoc(cfg, [p], p);
    RunThree(cfg, [p] + [p], d, d, HandlerEnds(0, true));
    var s2 := Run(cfg, [p] + [p]);
    assert s2.copies == [Copy(0, 0, Queued), Copy(1, 0, Queued)] && s2.processed == [];
    assert s2.history[0].message == s2.history[1].message == Of(typ, None);
    var s3 := Next(cfg, s2, d);
    assert s3.copies == [Copy(1, 0, Queued), Copy(0, 0, Delivered)];
    var s4 := Next(cfg, s3, d);
    assert s4.copies == [Copy(0, 0, Delivered), Copy(1, 0, Delivered)];
  }

  lemma OneMoreOther(cfg: Config, typ: string, s: State, n: nat)
    requires typ in cfg.handlers && StillInHand(typ, s, n) && n + 1 < CAPACITY
    ensures var s' := Next(cfg, Next(cfg, Next(cfg, s, Publish(Of(typ, Nth(n)), None)), Deliver(1)),
                           HandlerEnds(1, true));
            StillInHand(typ, s', n + 1)
  {
    KnownAre(n);
    hide Pow2, Nth;
    var s1 := Next(cfg, s, Publish(Of(typ, Nth(n)), None));
    assert s1.copies == [Copy(1, 0, Delivered), Copy(n + 2, 0, Queued)];
    var s2 := Next(cfg, s1, Deliver(1));
    assert s2.copies == [Copy(1, 0, Delivered), Copy(n + 2, 0, Delivered)];
  }

  lemma OneMoreRound(cfg: Config, typ: string, n: nat)
    ensures Run(cfg, Others(typ, n + 1))
         == Next(cfg, Next(cfg, Next(cfg, Run(cfg, Others(typ, n)), Publish(Of(typ, Nth(n)), None)), Deliver(1)),
                 HandlerEnds(1, true))
  {
    RunThree(cfg, Others(typ, n), Publish(Of(typ, Nth(n)), None), Deliver(1), HandlerEnds(1, true));
    hide Run, Next, Nth;
  }

  lemma {:induction false} ManyOthersPass(cfg: Config, typ: string, n: nat)
    requires typ in cfg.handlers && n < CAPACITY
    ensures StillInHand(typ, Run(cfg, Others(typ, n)), n)
    decreases n
  {
    hide *;
    if n == 0 {
      TwoInHand(cfg, typ);
    } else {
      ManyOthersPass(cfg, typ, n - 1);
      OneMoreRound(cfg, typ, n - 1);
      OneMoreOther(cfg, typ, Run(cfg, Others(typ, n - 1)), n - 1);
    }
  }

  /** The second copy is handled, then one more other, and then the id comes again. */
  function Again(typ: string): seq<Step> {
    [HandlerEnds(0, true), Publish(Of(typ, Nth(CAPACITY - 1)), None), Deliver(0), HandlerEnds(0, true),
     Publish(Of(typ, None), None), Deliver(0), HandlerEnds(0, true)]
  }

  /** The states of that run after the others have passed. */
  ghost predicate AgainState(typ: string, s: State, j: nat) {
    var other, last := CAPACITY + 1, CAPACITY + 2;
    s.copies == (if j == 0 then [Copy(1, 0, Delivered)]
                 else if j == 2 then [Copy(other, 0, Queued)]
                 else if j == 3 then [Copy(other, 0, Delivered)]
                 else if j == 5 then [Copy(last, 0, Queued)]
                 else if j == 6 then [Copy(last, 0, Delivered)] else []) &&
    |s.history| == (if j < 2 then other else if j < 5 then last else last + 1) &&
    s.history[1].message == Of(typ, None) && (j >= 2 ==> s.history[other].message == Of(typ, Nth(CAPACITY - 1))) &&
    (j >= 5 ==> s.history[last].message == Of(typ, None)) &&
    s.processed == if j < 4 then Known(CAPACITY - 1) else Known(CAPACITY - 1)[1..] + [Nth(CAPACITY - 1)]
  }

  lemma KnownOnceMore()
    ensures var known, next := Known(CAPACITY - 1), Nth(CAPACITY - 1);
            Remember(known, None) == known && Remember(known, next) == known[1..] + [next] &&
            next !in known && None !in known[1..] + [next]
  {
    KnownAre(CAPACITY - 1);
    var known, next := Known(CAPACITY - 1), Nth(CAPACITY - 1);
    assert known[0] in known;
    assert (known + [next])[1..] == known[1..] + [next];
    hide Known;
  }

  lemma OnlyCopyIsHandled(cfg: Config, s: State, lineage: nat)
    requires s.copies == [Copy(lineage, 0, Delivered)] && lineage < |s.history| && s.history[lineage].message.Envelope?
    ensures var id := s.history[lineage].message.eventId;
            Next(cfg, s, HandlerEnds(0, true))
              == s.(copies := [], ended := s.ended + [Ended(lineage, Acked)], processed := Remember(s.processed, id)) &&
            HandledBy(s, HandlerEnds(0, true)) == [id]
  {
    hide Pow2, Remember, OnFailure;
    assert Without(s.copies, 0) == [];
    assert s.history[lineage := s.history[lineage]] == s.history;
  }

  lemma OnlyCopyIsTaken(cfg: Config, s: State, lineage: nat)
    requires s.copies == [Copy(lineage, 0, Queued)] && lineage < |s.history|
    requires OnArrival(cfg, s.processed, s.history[lineage].message, 0) == None
    ensures var h := s.history[lineage];
            Next(cfg, s, Deliver(0)) ==
              s.(copies := [Copy(lineage, 0, Delivered)],
                 history := s.history[lineage := h.(deliveries := h.deliveries + 1, calls := h.calls + 1)])
  {
    hide OnArrival, OnFailure;
    assert Without(s.copies, 0) == [];
  }

  lemma AgainHandle(cfg: Config, typ: string, s: State, j: nat)
    requires (j == 0 || j == 3) && AgainState(typ, s, j)
    ensures AgainState(typ, Next(cfg, s, Again(typ)[j]), j + 1) && |HandledBy(s, Again(typ)[j])| == 1
  {
    hide Pow2, Known, Nth, Remember, Next, HandledBy;
    KnownOnceMore();
    OnlyCopyIsHandled(cfg, s, if j == 0 then 1 else CAPACITY + 1);
  }

  lemma AgainPublish(cfg: Config, typ: string, s: State, j: nat)
    requires (j == 1 || j == 4) && AgainState(typ, s, j)
    ensures AgainState(typ, Next(cfg, s, Again(typ)[j]), j + 1) && HandledBy(s, Again(typ)[j]) == []
  {
    hide Pow2, Known, Nth, Remember, OnArrival, OnFailure;
  }

  lemma AgainDeliver(cfg: Config, typ: string, s: State, j: nat)
    requires typ in cfg.handlers && (j == 2 || j == 5) && AgainState(typ, s, j)
    ensures AgainState(typ, Next(cfg, s, Again(typ)[j]), j + 1) && HandledBy(s, Again(typ)[j]) == []
  {
    hide Pow2, Known, Nth, Remember, Next;
    KnownOnceMore();
    OnlyCopyIsTaken(cfg, s, if j == 2 then CAPACITY + 1 else CAPACITY + 2);
  }

  lemma AgainStep(cfg: Config, typ: string, s: State, j: nat)
    requires typ in cfg.handlers && j < 6 && AgainState(typ, s, j)
    ensures AgainState(typ, Next(cfg, s, Again(typ)[j]), j + 1)
    ensures |HandledBy(s, Again(typ)[j])| == if j == 0 || j == 3 then 1 else 0
  {
    hide AgainState, Next, HandledBy;
    if j == 0 || j == 3 {
      AgainHandle(cfg, typ, s, j);
    } else if j == 1 || j == 4 {
      AgainPublish(cfg, typ, s, j);
    } else {
      AgainDeliver(cfg, typ, s, j);
    }
  }

  /** The whole run. */
  function RepeatingRun(typ: string): seq<Step> {
    Others(typ, CAPACITY - 1) + Again(typ)
  }

  function Before(typ: string): nat {
    |Others(typ, CAPACITY - 1)|
  }

  lemma RepeatingRunAt(typ: string, j: nat)
    requires j < 7
    ensures |RepeatingRun(typ)| == Before(typ) + 7 && RepeatingRun(typ)[Before(typ) + j] == Again(typ)[j]
  {
    hide Others, Nth, Of;
  }

  lemma RepeatingStart(cfg: Config, typ: string)
    requires typ in cfg.handlers
    ensures Before(typ) < |RepeatingRun(typ)| && AgainState(typ, StateAt(cfg, RepeatingRun(typ), Before(typ)), 0)
  {
    assert RepeatingRun(typ)[..Before(typ)] == Others(typ, CAPACITY - 1);
    hide Others, Run, Known;
    ManyOthersPass(cfg, typ, CAPACITY - 1);
  }

  ghost predicate AgainAt(cfg: Config, typ: string, j: nat)
    requires j < 7
  {
    Before(typ) + j < |RepeatingRun(typ)| &&
    AgainState(typ, StateAt(cfg, RepeatingRun(typ), Before(typ) + j), j) &&
    |HandledBefore(cfg, RepeatingRun(typ), Before(typ) + j)|
      == |HandledBefore(cfg, RepeatingRun(typ), Before(typ))| + (if j == 0 then 0 else if j < 4 then 1 else 2)
  }

  lemma NextAgainAt(cfg: Config, typ: string, j: nat)
    requires typ in cfg.handlers && j < 6 && AgainAt(cfg, typ, j)
    ensures AgainAt(cfg, typ, j + 1)
  {
    var steps, k := RepeatingRun(typ), Before(typ) + j;
    hide RepeatingRun, Before, StateAt, HandledBefore, AgainState, Next, HandledBy, Again;
    RepeatingRunAt(typ, j);
    AtStep(cfg, steps, k);
    AgainStep(cfg, typ, StateAt(cfg, steps, k), j);
  }

  lemma {:induction false} AllAgain(cfg: Config, typ: string, j: nat)
    requires typ in cfg.handlers && j < 7
    ensures AgainAt(cfg, typ, j)
    decreases j
  {
    if j == 0 {
      hide RepeatingRun, Before, StateAt, HandledBefore, AgainState;
      RepeatingStart(cfg, typ);
    } else {
      hide *;
      AllAgain(cfg, typ, j - 1);
      NextAgainAt(cfg, typ, j - 1);
    }
  }

  lemma AgainHandles(cfg: Config, typ: string, j: nat)
    requires typ in cfg.handlers && (j == 0 || j == 6) && AgainAt(cfg, typ, j)
    ensures HandledAt(cfg, RepeatingRun(typ), Before(typ) + j, if j == 0 then 1 else CAPACITY + 2, None)
    ensures j == 0 ==> !InHand(StateAt(cfg, RepeatingRun(typ), Before(typ)), CAPACITY + 2)
  {
    RepeatingRunAt(typ, j);
    hide RepeatingRun, Before, StateAt, HandledBefore, Known;
  }

  /** An id handled again while it is known is not renewed. So it can be handled a third time
      by a call made after the second handling, with a single other id handled in between. */
  lemma ARepeatDoesNotRenew(cfg: Config, typ: string)
    requires typ in cfg.handlers
    ensures exists steps, k1: nat, k2: nat, second: nat ::
      k1 < k2 && HandledAt(cfg, steps, k1, 1, None) && HandledAt(cfg, steps, k2, second, None) &&
      !InHand(StateAt(cfg, steps, k1), second) && |HandledBetween(cfg, steps, k1, k2)| == 1
  {
    hide *;
    RepeatingRunAt(typ, 0);
    AllAgain(cfg, typ, 0);
    AllAgain(cfg, typ, 6);
    AgainHandles(cfg, typ, 0);
    AgainHandles(cfg, typ, 6);
    OneBetween(cfg, typ);
    var steps, k := RepeatingRun(typ), Before(typ);
    assert |HandledBetween(cfg, steps, k, k + 6)| == 1;
  }

  lemma HandlingsOf(cfg: Config, typ: string, j: nat)
    requires j < 7 && AgainAt(cfg, typ, j)
    ensures |HandledBefore(cfg, RepeatingRun(typ), Before(typ) + j)|
         == |HandledBefore(cfg, RepeatingRun(typ), Before(typ))| + (if j == 0 then 0 else if j < 4 then 1 else 2)
  {
    hide RepeatingRun, Before, StateAt, HandledBefore, AgainState;
  }

  lemma OneBetween(cfg: Config, typ: string)
    requires typ in cfg.handlers && |RepeatingRun(typ)| == Before(typ) + 7
    ensures |HandledBetween(cfg, RepeatingRun(typ), Before(typ), Before(typ) + 6)| == 1
  {
    hide *;
    var steps, k := RepeatingRun(typ), Before(typ);
    AllAgain(cfg, typ, 1);
    AllAgain(cfg, typ, 6);
    HandlingsOf(cfg, typ, 1);
    HandlingsOf(cfg, typ, 6);
    BetweenIsTheRest(cfg, steps, k, k + 6, |HandledBefore(cfg, steps, k)|);
  }

  // ------------------------------------------------------------------
  // The consumer object
  // ------------------------------------------------------------------

  class RabbitMQEventConsumer {
    const config: Config
    var processedMessages: seq<EventId>  // an insertion-ordered set

    constructor (config: Config)
      ensures this.config == config && processedMessages == []
    {
      this.config := config;
      processedMessages := [];
    }

    /** One delivery from start to end; `handlerOk` is whether the handler, if called, succeeds. */
    method HandleMessage(message: Message, header: Option<nat>, handlerOk: bool)
      returns (called: bool, disposition: Disposition)
      modifies this`processedMessages
      ensures called <==> message.Envelope? && message.eventType.Some? && message.eventType.value in config.handlers &&
                          message.eventId !in old(processedMessages)
      ensures var fails := message.Garbled? || (called && !handlerOk);
              var retries := if header.Some? then header.value else 0;
              disposition == if !fails then Acked
                             else if config.enableRetry && retries < config.maxRetries
                             then Retried(config.retryDelay * Pow2(retries) as real, retries + 1)
                             else if config.enableDlq then DeadLettered else Dropped
      ensures var retries := RetryCount(header);
              var arrival := OnArrival(config, old(processedMessages), message, retries);
              called == arrival.None? && disposition == arrival.GetOr(OnHandled(config, handlerOk, retries))
      ensures processedMessages == if called && handlerOk then Remember(old(processedMessages), message.eventId)
                                   else old(processedMessages)
    {
      called := false;
      if message.Garbled? {
        disposition := Fail(header);
        return;
      }
      if message.eventId in processedMessages {
        return false, Acked;
      }
      if !HasHandler(config.handlers, message) {
        return false, Acked;
      }
      called := true;
      if !handlerOk {
        disposition := Fail(header);
        return;
      }
      if message.eventId !in processedMessages {
        processedMessages := processedMessages + [message.eventId];
      }
      if |processedMessages| > CAPACITY {
        processedMessages := processedMessages[1..];
      }
      disposition := Acked;
    }

    method Fail(header: Option<nat>) returns (disposition: Disposition)
      ensures disposition == OnFailure(config, RetryCount(header))
    {
      var retries := RetryCount(header);
      if config.enableRetry && retries < config.maxRetries {
        return Retried(config.retryDelay * Pow2(retries) as real, retries + 1);
      }
      return if config.enableDlq then DeadLettered else Dropped;
    }
  }
}
