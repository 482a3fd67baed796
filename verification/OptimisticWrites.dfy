/** Any number of writers load account streams, raise events through the commands
    and append them, interleaved in any way. Every reachable state of the store is
    the outcome of running the committed units of work one at a time. */
module OptimisticWrites {
  import opened BankAccounts
  import opened EventStores
  import opened Common

  datatype Opening = NotOpened | OpenedWith(owner: string, initialBalance: real)

  /** One `BankAccount` in a writer's hands. `loaded` is the stream length the writer
      read, which it will pass as the expected version; `opening` and `decided` record
      which unit of work led to the uncommitted events. */
  datatype Writer = Writer(
    id: string, loaded: nat,
    account: Account, version: nat, uncommitted: seq<Event>,
    opening: Opening, decided: seq<Command>)

  datatype World = World(streams: Streams, writers: map<nat, Writer>)

  const START := World(map[], map[])

  datatype Step =
    | Open(w: nat, id: string, owner: string, initialBalance: real)
    | Load(w: nat, id: string)
    | Execute(w: nat, command: Command)
    | Append(w: nat)

  function AfterLoad(id: string, stream: seq<Event>): Writer {
    Writer(id, |stream|, Replay(BLANK, stream), |stream|, [], NotOpened, [])
  }

  function AfterEvent(writer: Writer, event: Event): Writer {
    writer.(account := ApplyEvent(writer.account, event),
            version := writer.version + 1,
            uncommitted := writer.uncommitted + [event])
  }

  /** Append with some expected version; on success the writer marks its events
      committed and goes on from the stream it has just extended. */
  function AppendAs(s: World, w: nat, expected: int): World
    requires w in s.writers
  {
    var writer := s.writers[w];
    match AppendTo(s.streams, writer.id, writer.uncommitted, expected)
    case Conflict(_, _) => s
    case Appended(streams) =>
      World(streams,
            s.writers[w := writer.(loaded := |StreamOf(streams, writer.id)|, uncommitted := [],
                                   opening := NotOpened, decided := [])])
  }

  function Next(s: World, step: Step): World {
    match step
    case Open(w, id, owner, initialBalance) =>
      (match DecideOpen(id, owner, initialBalance)
       case Reject(_) => s
       case Accept(event) =>
         s.(writers := s.writers[w := AfterEvent(
              Writer(id, 0, BLANK, 0, [], OpenedWith(owner, initialBalance), []), event)]))
    case Load(w, id) =>
      s.(writers := s.writers[w := AfterLoad(id, StreamOf(s.streams, id))])
    case Execute(w, command) =>
      if w !in s.writers then s
      else
        var writer := s.writers[w];
        (match Decide(writer.id, writer.account, command)
         case Reject(_) => s
         case Accept(event) =>
           s.(writers := s.writers[w := AfterEvent(writer, event).(decided := writer.decided + [command])]))
    case Append(w) =>
      if w !in s.writers then s else AppendAs(s, w, s.writers[w].loaded)
  }

  function Run(s: World, steps: seq<Step>): World {
    if steps == [] then s else Next(Run(s, steps[..|steps| - 1]), steps[|steps| - 1])
  }

  // ------------------------------------------------------------------
  // Units of work, run alone
  // ------------------------------------------------------------------

  datatype Transaction = Transaction(id: string, opening: Opening, commands: seq<Command>)

  /** The events a unit of work raises from a loaded account, or None when one of
      its commands is refused. */
  function EventsOf(id: string, account: Account, opening: Opening, commands: seq<Command>): Option<seq<Event>> {
    if commands == [] then
      match opening
      case NotOpened => Some([])
      case OpenedWith(owner, initialBalance) =>
        var d := DecideOpen(id, owner, initialBalance);
        if d.Accept? then Some([d.event]) else None
    else
      match EventsOf(id, account, opening, commands[..|commands| - 1])
      case None => None
      case Some(events) =>
        var d := Decide(id, Replay(account, events), commands[|commands| - 1]);
        if d.Accept? then Some(events + [d.event]) else None
  }

  function RunTransaction(streams: Streams, t: Transaction): Option<Streams> {
    var history := StreamOf(streams, t.id);
    if t.opening.OpenedWith? && history != [] then None
    else
      match EventsOf(t.id, Replay(BLANK, history), t.opening, t.commands)
      case None => None
      case Some(events) => Some(streams[t.id := history + events])
  }

  function RunSerially(streams: Streams, ts: seq<Transaction>): Option<Streams> {
    if ts == [] then Some(streams)
    else
      match RunSerially(streams, ts[..|ts| - 1])
      case None => None
      case Some(before) => RunTransaction(before, ts[|ts| - 1])
  }

  /** The units of work whose append succeeded during a run, in commit order. */
  function Committed(s: World, steps: seq<Step>): seq<Transaction> {
    if steps == [] then []
    else
      var before := Run(s, steps[..|steps| - 1]);
      Committed(s, steps[..|steps| - 1]) + CommittedBy(before, steps[|steps| - 1])
  }

  function CommittedBy(s: World, step: Step): seq<Transaction> {
    if step.Append? && step.w in s.writers && Current(s, s.writers[step.w]) then
      var writer := s.writers[step.w];
      [Transaction(writer.id, writer.opening, writer.decided)]
    else []
  }

  predicate Current(s: World, writer: Writer) {
    |StreamOf(s.streams, writer.id)| == writer.loaded
  }

  // ------------------------------------------------------------------
  // What every step keeps
  // ------------------------------------------------------------------

  /** A writer holds the replay of a prefix of its stream followed by the events
      its own unit of work raises from there. */
  ghost predicate Faithful(streams: Streams, writer: Writer) {
    var stream := StreamOf(streams, writer.id);
    writer.loaded <= |stream| &&
    (writer.opening.OpenedWith? ==> writer.loaded == 0) &&
    writer.version == writer.loaded + |writer.uncommitted| &&
    FollowsFrom(Replay(BLANK, stream[..writer.loaded]), writer)
  }

  ghost predicate FollowsFrom(base: Account, writer: Writer) {
    EventsOf(writer.id, base, writer.opening, writer.decided) == Some(writer.uncommitted) &&
    writer.account == Replay(base, writer.uncommitted)
  }

  ghost predicate Inv(s: World) {
    forall w :: w in s.writers ==> Faithful(s.streams, s.writers[w])
  }

  lemma AfterEventFaithful(streams: Streams, writer: Writer, event: Event, command: Command)
    requires Faithful(streams, writer)
    requires Decide(writer.id, writer.account, command) == Accept(event)
    ensures Faithful(streams, AfterEvent(writer, event).(decided := writer.decided + [command]))
  {
    var base := Replay(BLANK, StreamOf(streams, writer.id)[..writer.loaded]);
    ReplaySnoc(base, writer.uncommitted, event);
    assert (writer.decided + [command])[..|writer.decided|] == writer.decided;
  }

  lemma OpenedFaithful(streams: Streams, id: string, owner: string, initialBalance: real)
    requires initialBalance >= 0.0
    ensures Faithful(streams, AfterEvent(Writer(id, 0, BLANK, 0, [], OpenedWith(owner, initialBalance), []),
                                         AccountOpened(id, owner, initialBalance)))
  {
    var event := AccountOpened(id, owner, initialBalance);
    assert StreamOf(streams, id)[..0] == [];
    ReplaySnoc(BLANK, [], event);
    assert [] + [event] == [event];
  }

  lemma LoadFaithful(streams: Streams, id: string)
    ensures Faithful(streams, AfterLoad(id, StreamOf(streams, id)))
  {
    var stream := StreamOf(streams, id);
    assert stream[..|stream|] == stream;
  }

  /** Growing a stream changes nothing for a writer that read a prefix of it. */
  lemma GrowthKeepsFaithful(streams: Streams, id: string, events: seq<Event>, writer: Writer)
    requires Faithful(streams, writer)
    ensures Faithful(streams[id := StreamOf(streams, id) + events], writer)
  {
    var grown := streams[id := StreamOf(streams, id) + events];
    assert StreamOf(grown, writer.id)[..writer.loaded] == StreamOf(streams, writer.id)[..writer.loaded];
  }

  lemma CommitFaithful(s: World, w: nat)
    requires Inv(s) && w in s.writers && Current(s, s.writers[w])
    ensures Faithful(AppendAs(s, w, s.writers[w].loaded).streams, AppendAs(s, w, s.writers[w].loaded).writers[w])
  {
    var writer := s.writers[w];
    var stream := StreamOf(s.streams, writer.id);
    assert stream[..writer.loaded] == stream;
    ReplayConcat(BLANK, stream, writer.uncommitted);
    var longer := stream + writer.uncommitted;
    assert longer[..|longer|] == longer;
  }

  lemma AppendKeepsInv(s: World, w: nat)
    requires Inv(s) && w in s.writers
    ensures Inv(AppendAs(s, w, s.writers[w].loaded))
  {
    if Current(s, s.writers[w]) {
      var writer := s.writers[w];
      var after := AppendAs(s, w, writer.loaded);
      CommitFaithful(s, w);
      forall v | v in after.writers ensures Faithful(after.streams, after.writers[v]) {
        if v != w {
          GrowthKeepsFaithful(s.streams, writer.id, writer.uncommitted, s.writers[v]);
        }
      }
    }
  }

  lemma ReplacedWriterKeepsInv(s: World, w: nat, writer: Writer)
    requires Inv(s) && Faithful(s.streams, writer)
    ensures Inv(s.(writers := s.writers[w := writer]))
  {
  }

  lemma NextKeepsInv(s: World, step: Step)
    requires Inv(s)
    ensures Inv(Next(s, step))
  {
    var after := Next(s, step);
    match step
    case Open(w, id, owner, initialBalance) =>
      if initialBalance >= 0.0 {
        OpenedFaithful(s.streams, id, owner, initialBalance);
        ReplacedWriterKeepsInv(s, w, after.writers[w]);
      }
    case Load(w, id) =>
      LoadFaithful(s.streams, id);
      ReplacedWriterKeepsInv(s, w, after.writers[w]);
    case Execute(w, command) =>
      if w in s.writers {
        var d := Decide(s.writers[w].id, s.writers[w].account, command);
        if d.Accept? {
          AfterEventFaithful(s.streams, s.writers[w], d.event, command);
          ReplacedWriterKeepsInv(s, w, after.writers[w]);
        }
      }
    case Append(w) =>
      if w in s.writers { AppendKeepsInv(s, w); }
  }

  lemma {:induction false} RunKeepsInv(s: World, steps: seq<Step>)
    requires Inv(s)
    ensures Inv(Run(s, steps))
    decreases |steps|
  {
    if steps != [] {
      RunKeepsInv(s, steps[..|steps| - 1]);
      NextKeepsInv(Run(s, steps[..|steps| - 1]), steps[|steps| - 1]);
    }
  }

  // ------------------------------------------------------------------
  // Serializability
  // ------------------------------------------------------------------

  lemma StepIsSerial(s: World, step: Step)
    requires Inv(s)
    ensures RunSerially(s.streams, CommittedBy(s, step)) == Some(Next(s, step).streams)
  {
    var ts := CommittedBy(s, step);
    if ts != [] {
      var writer := s.writers[step.w];
      var stream := StreamOf(s.streams, writer.id);
      assert stream[..writer.loaded] == stream;
      assert ts[..0] == [];
    }
  }

  lemma {:induction false} RunSeriallyConcat(streams: Streams, first: seq<Transaction>, second: seq<Transaction>)
    requires RunSerially(streams, first).Some?
    ensures RunSerially(streams, first + second) == RunSerially(RunSerially(streams, first).value, second)
    decreases |second|
  {
    if second == [] {
      assert first + second == first;
    } else {
      RunSeriallyConcat(streams, first, second[..|second| - 1]);
      assert (first + second)[..|first + second| - 1] == first + second[..|second| - 1];
    }
  }

  /** Optimistic writes are serializable: whatever the interleaving, the store holds
      what the committed units of work leave when they run one after the other, each
      loading, deciding and appending alone, with no command refused. */
  lemma {:induction false} Serializable(steps: seq<Step>)
    ensures RunSerially(START.streams, Committed(START, steps)) == Some(Run(START, steps).streams)
    decreases |steps|
  {
    if steps != [] {
      var init := steps[..|steps| - 1];
      Serializable(init);
      RunKeepsInv(START, init);
      StepIsSerial(Run(START, init), steps[|steps| - 1]);
      RunSeriallyConcat(START.streams, Committed(START, init), CommittedBy(Run(START, init), steps[|steps| - 1]));
    }
  }

  lemma {:induction false} RaisedEventsKeepSound(id: string, history: seq<Event>, opening: Opening,
                                                   commands: seq<Command>)
    requires Sound(id, history)
    requires opening.OpenedWith? ==> history == []
    requires EventsOf(id, Replay(BLANK, history), opening, commands).Some?
    ensures Sound(id, history + EventsOf(id, Replay(BLANK, history), opening, commands).value)
    decreases |commands|
  {
    hide Sound, Replay, ApplyEvent;
    var base := Replay(BLANK, history);
    if commands == [] {
      if opening.OpenedWith? {
        DecidedEventKeepsSound(id, history, DecideOpen(id, opening.owner, opening.initialBalance).event);
      } else {
        assert history + [] == history;
      }
    } else {
      var init, last := commands[..|commands| - 1], commands[|commands| - 1];
      RaisedEventsKeepSound(id, history, opening, init);
      var events := EventsOf(id, base, opening, init).value;
      ReplayConcat(BLANK, history, events);
      var event := Decide(id, Replay(base, events), last).event;
      assert Decide(id, Replay(BLANK, history + events), last) == Accept(event);
      DecidedEventKeepsSound(id, history + events, event);
      assert history + (events + [event]) == (history + events) + [event];
    }
  }

  ghost predicate AllSound(streams: Streams) {
    forall id :: id in streams ==> Sound(id, streams[id])
  }

  lemma {:induction false} SerialRunIsSound(streams: Streams, ts: seq<Transaction>)
    requires AllSound(streams)
    requires RunSerially(streams, ts).Some?
    ensures AllSound(RunSerially(streams, ts).value)
    decreases |ts|
  {
    if ts != [] {
      var before := RunSerially(streams, ts[..|ts| - 1]).value;
      SerialRunIsSound(streams, ts[..|ts| - 1]);
      var t := ts[|ts| - 1];
      RaisedEventsKeepSound(t.id, StreamOf(before, t.id), t.opening, t.commands);
    }
  }

  /** Under every interleaving, every stream replays at every prefix to a balance
      that is not negative, and nothing moves money after a freeze. */
  lemma EveryReachableStreamIsSound(steps: seq<Step>, id: string)
    ensures Sound(id, StreamOf(Run(START, steps).streams, id))
  {
    Serializable(steps);
    SerialRunIsSound(START.streams, Committed(START, steps));
  }

  // ------------------------------------------------------------------
  // Where the money comes from
  // ------------------------------------------------------------------

  /** What a command that is carried out adds to the balance. */
  function Adds(command: Command): real {
    match command
    case Deposit(amount) => amount
    case Withdraw(amount) => -amount
    case Freeze => 0.0
  }

  function AddsAll(commands: seq<Command>): real {
    if commands == [] then 0.0 else AddsAll(commands[..|commands| - 1]) + Adds(commands[|commands| - 1])
  }

  function Brings(t: Transaction): real {
    (match t.opening case NotOpened => 0.0 case OpenedWith(_, initialBalance) => initialBalance) + AddsAll(t.commands)
  }

  /** What the units of work on the account add up to. */
  function BringsTo(id: string, ts: seq<Transaction>): real {
    if ts == [] then 0.0
    else BringsTo(id, ts[..|ts| - 1]) + if ts[|ts| - 1].id == id then Brings(ts[|ts| - 1]) else 0.0
  }

  /** Which event a command raises, in any state of the account, is told by the command alone. */
  lemma CommandsAreCarriedOut(id: string, account: Account, command: Command)
    ensures var d := Decide(id, account, command);
            match command
            case Deposit(amount) =>
              (d == Reject(AccountIsFrozen) <==> account.frozen) &&
              (d == Reject(NonPositiveDeposit) <==> !account.frozen && amount <= 0.0) &&
              (d.Accept? <==> !account.frozen && amount > 0.0)
            case Withdraw(amount) =>
              (d == Reject(AccountIsFrozen) <==> account.frozen) &&
              (d == Reject(InsufficientFunds) <==> !account.frozen && amount > account.balance) &&
              (d.Accept? <==> !account.frozen && amount <= account.balance)
            case Freeze => d.Accept?
    ensures var d := Decide(id, account, command);
            d.Accept? ==>
              d.event.accountId == id &&
              var after := ApplyEvent(account, d.event);
              after.balance == account.balance + Adds(command) && after.owner == account.owner &&
              (after.frozen <==> account.frozen || command.Freeze?)
  {
  }

  lemma {:induction false} EventsBring(id: string, account: Account, opening: Opening, commands: seq<Command>)
    requires EventsOf(id, account, opening, commands).Some?
    requires opening.OpenedWith? ==> account.balance == 0.0
    ensures Replay(account, EventsOf(id, account, opening, commands).value).balance
         == account.balance + Brings(Transaction(id, opening, commands))
    decreases |commands|
  {
    if commands == [] {
      if opening.OpenedWith? {
        var event := AccountOpened(id, opening.owner, opening.initialBalance);
        assert EventsOf(id, account, opening, commands).value == [event];
        assert [event][..0] == [];
      }
    } else {
      var init, last := commands[..|commands| - 1], commands[|commands| - 1];
      EventsBring(id, account, opening, init);
      var events := EventsOf(id, account, opening, init).value;
      CommandsAreCarriedOut(id, Replay(account, events), last);
      ReplaySnoc(account, events, Decide(id, Replay(account, events), last).event);
    }
  }

  lemma TransactionBrings(streams: Streams, t: Transaction, id: string)
    requires RunTransaction(streams, t).Some?
    ensures Replay(BLANK, StreamOf(RunTransaction(streams, t).value, id)).balance
         == Replay(BLANK, StreamOf(streams, id)).balance + if t.id == id then Brings(t) else 0.0
  {
    var history := StreamOf(streams, t.id);
    var base := Replay(BLANK, history);
    EventsBring(t.id, base, t.opening, t.commands);
    hide Brings;
    ReplayConcat(BLANK, history, EventsOf(t.id, base, t.opening, t.commands).value);
  }

  lemma {:induction false} SerialRunBrings(ts: seq<Transaction>, id: string)
    requires RunSerially(START.streams, ts).Some?
    ensures Replay(BLANK, StreamOf(RunSerially(START.streams, ts).value, id)).balance == BringsTo(id, ts)
    decreases |ts|
  {
    if ts != [] {
      SerialRunBrings(ts[..|ts| - 1], id);
      TransactionBrings(RunSerially(START.streams, ts[..|ts| - 1]).value, ts[|ts| - 1], id);
      hide Brings, Replay, RunTransaction;
    }
  }

  /** Under every interleaving, a stream replays to the sum of the initial balances and the
      deposits less the withdrawals that the committed units of work on it were asked for. */
  lemma BalanceIsWhatWasCommitted(steps: seq<Step>, id: string)
    ensures Replay(BLANK, StreamOf(Run(START, steps).streams, id)).balance == BringsTo(id, Committed(START, steps))
  {
    Serializable(steps);
    SerialRunBrings(Committed(START, steps), id);
  }

  /** What a command does to the writer in whose hands the account is, told by the command
      and the account alone: it is carried out and noted, or it changes nothing. */
  lemma ExecuteNotesTheCommand(s: World, w: nat, command: Command)
    requires w in s.writers
    ensures var before := s.writers[w];
            var account := before.account;
            var done := match command
                        case Deposit(amount) => !account.frozen && amount > 0.0
                        case Withdraw(amount) => !account.frozen && amount <= account.balance
                        case Freeze => true;
            var after := Next(s, Execute(w, command));
            if !done then after == s
            else
              w in after.writers && after == s.(writers := s.writers[w := after.writers[w]]) &&
              var now := after.writers[w];
              now.id == before.id && now.loaded == before.loaded && now.opening == before.opening &&
              now.decided == before.decided + [command] && now.version == before.version + 1 &&
              now.account.balance == account.balance + Adds(command)
  {
    CommandsAreCarriedOut(s.writers[w].id, s.writers[w].account, command);
  }

  /** The other two ways to have an account in hand: a refused opening changes nothing. */
  lemma OpenAndLoadNoteTheirBase(s: World, w: nat, id: string, owner: string, initialBalance: real)
    ensures Next(s, Open(w, id, owner, initialBalance)) ==
            if initialBalance < 0.0 then s
            else s.(writers := s.writers[w := Writer(id, 0, Account(owner, initialBalance, false), 1,
                                                     [AccountOpened(id, owner, initialBalance)],
                                                     OpenedWith(owner, initialBalance), [])])
    ensures var after := Next(s, Load(w, id));
            var stream := StreamOf(s.streams, id);
            w in after.writers && after == s.(writers := s.writers[w := after.writers[w]]) &&
            after.writers[w] == Writer(id, |stream|, Replay(BLANK, stream), |stream|, [], NotOpened, [])
  {
    assert [] + [AccountOpened(id, owner, initialBalance)] == [AccountOpened(id, owner, initialBalance)];
  }

  // ------------------------------------------------------------------
  // One append
  // ------------------------------------------------------------------

  /** An append succeeds exactly when the stream has not grown since the writer
      loaded it; it then extends the very history the writer decided on, and
      otherwise it changes nothing. */
  lemma AppendExtendsWhatWasDecided(steps: seq<Step>, w: nat)
    requires w in Run(START, steps).writers
    ensures var s := Run(START, steps);
            var writer := s.writers[w];
            var stream := StreamOf(s.streams, writer.id);
            var after := Next(s, Append(w));
            if |stream| == writer.loaded then
              StreamOf(after.streams, writer.id) == stream + writer.uncommitted &&
              Replay(BLANK, StreamOf(after.streams, writer.id)) == writer.account &&
              (forall id :: id != writer.id ==> StreamOf(after.streams, id) == StreamOf(s.streams, id))
            else |stream| > writer.loaded && after == s
  {
    var s := Run(START, steps);
    RunKeepsInv(START, steps);
    var writer := s.writers[w];
    var stream := StreamOf(s.streams, writer.id);
    if |stream| == writer.loaded {
      assert stream[..writer.loaded] == stream;
      ReplayConcat(BLANK, stream, writer.uncommitted);
    }
  }

  lemma NextOnlyGrows(s: World, step: Step, id: string)
    ensures StreamOf(s.streams, id) <= StreamOf(Next(s, step).streams, id)
  {
  }

  ghost predicate LeavesAlone(steps: seq<Step>, w: nat) {
    forall i :: 0 <= i < |steps| ==> steps[i].Append? || steps[i].Execute? || steps[i].w != w
  }

  /** Once another writer got in first, every further append by this writer fails, whatever
      it goes on to decide, until it loads again: the first writer wins for good. */
  lemma {:induction false} StaleStaysStale(s: World, w: nat, more: seq<Step>)
    requires w in s.writers && |StreamOf(s.streams, s.writers[w].id)| > s.writers[w].loaded
    requires LeavesAlone(more, w)
    ensures var later := Run(s, more);
            w in later.writers && later.writers[w].id == s.writers[w].id &&
            later.writers[w].loaded == s.writers[w].loaded &&
            |StreamOf(later.streams, s.writers[w].id)| > s.writers[w].loaded &&
            Next(later, Append(w)) == later
    decreases |more|
  {
    if more != [] {
      var init, last := more[..|more| - 1], more[|more| - 1];
      StaleStaysStale(s, w, init);
      NextOnlyGrows(Run(s, init), last, s.writers[w].id);
      assert last == more[|more| - 1];
    }
  }

  // ------------------------------------------------------------------
  // The expected version has to be the loaded length
  // ------------------------------------------------------------------

  /** The package's README passes `version`, which already counts the uncommitted
      events. Such an append, when the store accepts it, extends the history the
      writer decided on only if the writer has nothing to append. */
  lemma DocumentedVersionExtendsOnlyNothing(steps: seq<Step>, w: nat)
    requires w in Run(START, steps).writers
    ensures var s := Run(START, steps);
            var writer := s.writers[w];
            var r := AppendTo(s.streams, writer.id, writer.uncommitted, writer.version);
            r.Appended? ==>
              writer.loaded <= |StreamOf(s.streams, writer.id)| &&
              (StreamOf(r.streams, writer.id) == StreamOf(s.streams, writer.id)[..writer.loaded] + writer.uncommitted
               <==> writer.uncommitted == [])
  {
    RunKeepsInv(START, steps);
    var s := Run(START, steps);
    var writer := s.writers[w];
    var stream := StreamOf(s.streams, writer.id);
    if |stream| == writer.version && writer.uncommitted == [] {
      assert stream[..writer.loaded] == stream;
    }
  }

  /** Steps of writers of both kinds: those that pass the loaded length and those that pass
      the documented version. */
  datatype MixedStep = Correct(step: Step) | AppendVersion(w: nat)

  function MixedNext(s: World, step: MixedStep): World {
    match step
    case Correct(correct) => Next(s, correct)
    case AppendVersion(w) => if w in s.writers then AppendAs(s, w, s.writers[w].version) else s
  }

  function MixedRun(s: World, steps: seq<MixedStep>): World {
    if steps == [] then s else MixedNext(MixedRun(s, steps[..|steps| - 1]), steps[|steps| - 1])
  }

  /** Nothing is stored, and every writer's version counts just its uncommitted events. */
  ghost predicate NothingStored(s: World) {
    (forall id :: StreamOf(s.streams, id) == []) &&
    forall w :: w in s.writers ==> s.writers[w].version == |s.writers[w].uncommitted|
  }

  lemma DocumentedStepStoresNothing(s: World, step: MixedStep)
    requires NothingStored(s) && !(step.Correct? && step.step.Append?)
    ensures NothingStored(MixedNext(s, step))
  {
    hide Decide, DecideOpen, ApplyEvent;
    var after := MixedNext(s, step);
    forall id ensures StreamOf(after.streams, id) == [] {
      assert StreamOf(s.streams, id) == [];
    }
  }

  /** If every writer appends as documented, nothing is ever stored: an append is accepted
      only when there is nothing to append. */
  lemma {:induction false} DocumentedVersionStoresNothing(steps: seq<MixedStep>)
    requires forall i :: 0 <= i < |steps| ==> !(steps[i].Correct? && steps[i].step.Append?)
    ensures NothingStored(MixedRun(START, steps))
    decreases |steps|
  {
    if steps != [] {
      hide MixedNext, NothingStored;
      DocumentedVersionStoresNothing(steps[..|steps| - 1]);
      DocumentedStepStoresNothing(MixedRun(START, steps[..|steps| - 1]), steps[|steps| - 1]);
    } else {
      assert NothingStored(START);
    }
  }

  /** One account, and two writers that load it and withdraw the whole balance. The first
      appends with the loaded length, the second with its version. */
  function Overdraft(id: string, owner: string): seq<MixedStep> {
    [Correct(Open(0, id, owner, 100.0)), Correct(Append(0)),
     Correct(Load(1, id)), Correct(Load(2, id)),
     Correct(Execute(1, Withdraw(100.0))), Correct(Execute(2, Withdraw(100.0))),
     Correct(Append(1)), AppendVersion(2)]
  }

  lemma MixedSnoc(steps: seq<MixedStep>, n: nat)
    requires 0 < n <= |steps|
    ensures MixedRun(START, steps[..n]) == MixedNext(MixedRun(START, steps[..n - 1]), steps[n - 1])
  {
    assert steps[..n][..n - 1] == steps[..n - 1];
  }

  function Holder(id: string, owner: string): Writer {
    Writer(id, 1, Account(owner, 100.0, false), 1, [], NotOpened, [])
  }

  function Spender(id: string, owner: string): Writer {
    Writer(id, 1, Account(owner, 0.0, false), 2, [MoneyWithdrawn(id, 100.0)], NotOpened, [Withdraw(100.0)])
  }

  lemma LoadedHolder(id: string, owner: string)
    ensures AfterLoad(id, [AccountOpened(id, owner, 100.0)]) == Holder(id, owner)
  {
    ReplaySnoc(BLANK, [], AccountOpened(id, owner, 100.0));
    assert [] + [AccountOpened(id, owner, 100.0)] == [AccountOpened(id, owner, 100.0)];
  }

  lemma AfterOpening(id: string, owner: string)
    ensures MixedRun(START, Overdraft(id, owner)[..2])
         == World(map[id := [AccountOpened(id, owner, 100.0)]], map[0 := Holder(id, owner)])
  {
    var steps := Overdraft(id, owner);
    EmptyMixedRun();
    MixedSnoc(steps, 1);
    MixedSnoc(steps, 2);
    OpenAndLoadNoteTheirBase(START, 0, id, owner, 100.0);
    hide MixedRun, AfterLoad, Replay, DecideOpen, AfterEvent;
    var raised := Writer(id, 0, Account(owner, 100.0, false), 1, [AccountOpened(id, owner, 100.0)],
                         OpenedWith(owner, 100.0), []);
    assert MixedRun(START, steps[..1]) == World(map[], map[0 := raised]);
    assert [] + raised.uncommitted == raised.uncommitted;
  }

  lemma Loading(s: World, w: nat, id: string, owner: string)
    requires s.streams == map[id := [AccountOpened(id, owner, 100.0)]]
    ensures MixedNext(s, Correct(Load(w, id))) == s.(writers := s.writers[w := Holder(id, owner)])
  {
    LoadedHolder(id, owner);
    hide AfterLoad;
  }

  lemma AfterLoads(id: string, owner: string)
    ensures MixedRun(START, Overdraft(id, owner)[..4])
         == World(map[id := [AccountOpened(id, owner, 100.0)]],
                  map[0 := Holder(id, owner), 1 := Holder(id, owner), 2 := Holder(id, owner)])
  {
    var steps := Overdraft(id, owner);
    assert steps[2] == Correct(Load(1, id)) && steps[3] == Correct(Load(2, id));
    AfterOpening(id, owner);
    MixedSnoc(steps, 3);
    MixedSnoc(steps, 4);
    hide *;
    Loading(MixedRun(START, steps[..2]), 1, id, owner);
    Loading(MixedRun(START, steps[..3]), 2, id, owner);
  }

  lemma Withdrawing(s: World, w: nat, id: string, owner: string)
    requires w in s.writers && s.writers[w] == Holder(id, owner)
    ensures Next(s, Execute(w, Withdraw(100.0))) == s.(writers := s.writers[w := Spender(id, owner)])
  {
    var out := MoneyWithdrawn(id, 100.0);
    var holder := Holder(id, owner);
    assert Decide(id, holder.account, Withdraw(100.0)) == Accept(out);
    assert [] + [out] == [out] && [] + [Withdraw(100.0)] == [Withdraw(100.0)];
    assert AfterEvent(holder, out).(decided := [Withdraw(100.0)]) == Spender(id, owner);
  }

  lemma CorrectStep(s: World, step: Step)
    ensures MixedNext(s, Correct(step)) == Next(s, step)
  {
  }

  lemma AfterWithdrawals(id: string, owner: string)
    ensures var s := MixedRun(START, Overdraft(id, owner)[..6]);
            s.streams == map[id := [AccountOpened(id, owner, 100.0)]] && 1 in s.writers && 2 in s.writers &&
            s.writers[1] == s.writers[2] == Spender(id, owner)
  {
    TwoMoreSteps(id, owner);
    var steps := Overdraft(id, owner);
    assert |steps| == 8;
    hide *;
    AfterLoads(id, owner);
    TwoWithdrawals(MixedRun(START, steps[..4]), id, owner);
  }

  lemma TwoMoreSteps(id: string, owner: string)
    ensures MixedRun(START, Overdraft(id, owner)[..6])
         == MixedNext(MixedNext(MixedRun(START, Overdraft(id, owner)[..4]), Correct(Execute(1, Withdraw(100.0)))),
                      Correct(Execute(2, Withdraw(100.0))))
  {
    var steps := Overdraft(id, owner);
    assert steps[4] == Correct(Execute(1, Withdraw(100.0))) && steps[5] == Correct(Execute(2, Withdraw(100.0)));
    hide *;
    MixedSnoc(steps, 5);
    MixedSnoc(steps, 6);
  }

  lemma TwoWithdrawals(s: World, id: string, owner: string)
    requires 1 in s.writers && s.writers[1] == Holder(id, owner)
    requires 2 in s.writers && s.writers[2] == Holder(id, owner)
    ensures var once := MixedNext(s, Correct(Execute(1, Withdraw(100.0))));
            MixedNext(once, Correct(Execute(2, Withdraw(100.0))))
            == s.(writers := s.writers[1 := Spender(id, owner)][2 := Spender(id, owner)])
  {
    hide *;
    var once := MixedNext(s, Correct(Execute(1, Withdraw(100.0))));
    Withdrawing(s, 1, id, owner);
    CorrectStep(s, Execute(1, Withdraw(100.0)));
    Withdrawing(once, 2, id, owner);
    CorrectStep(once, Execute(2, Withdraw(100.0)));
  }

  lemma EmptyMixedRun()
    ensures MixedRun(START, []) == START
  {
  }

  /** A documented writer among correct ones overdraws: its append is accepted because the
      other one's withdrawal got in first, and the stream replays to a debt. */
  lemma OneDocumentedWriterOverdraws(id: string, owner: string)
    ensures var stream := StreamOf(MixedRun(START, Overdraft(id, owner)).streams, id);
            stream == [AccountOpened(id, owner, 100.0), MoneyWithdrawn(id, 100.0), MoneyWithdrawn(id, 100.0)] &&
            Replay(BLANK, stream).balance == -100.0 && !Sound(id, stream)
  {
    var steps := Overdraft(id, owner);
    var out := MoneyWithdrawn(id, 100.0);
    AfterWithdrawals(id, owner);
    MixedSnoc(steps, 7);
    MixedSnoc(steps, 8);
    assert steps[..8] == steps;
    hide MixedRun, Replay, Sound;
    var s7 := MixedRun(START, steps[..7]);
    assert StreamOf(s7.streams, id) == [AccountOpened(id, owner, 100.0), out];
    assert s7.writers[2] == Spender(id, owner);
    OverdrawnStream(id, owner);
  }

  lemma OverdrawnStream(id: string, owner: string)
    ensures var stream := [AccountOpened(id, owner, 100.0), MoneyWithdrawn(id, 100.0), MoneyWithdrawn(id, 100.0)];
            Replay(BLANK, stream).balance == -100.0 && !Sound(id, stream)
  {
    var first, out := AccountOpened(id, owner, 100.0), MoneyWithdrawn(id, 100.0);
    assert Replay(BLANK, []) == BLANK;
    hide Replay, NothingMovesAfterFreeze, OpenedOnlyFirst, BelongsTo;
    ReplaySnoc(BLANK, [], first);
    ReplaySnoc(BLANK, [first], out);
    ReplaySnoc(BLANK, [first, out], out);
    assert [] + [first] == [first] && [first] + [out] == [first, out];
    var stream := [first, out, out];
    assert [first, out] + [out] == stream && stream[..3] == stream;
    assert Replay(BLANK, stream[..3]).balance == -100.0;
  }
}
