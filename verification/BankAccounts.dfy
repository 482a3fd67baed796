/** The `BankAccount` aggregate of the event-sourcing example: its events, its
    replay, the commands that decide which event may be raised, and the class
    that holds the state those events are applied to. */
module BankAccounts {
  import opened RealArithmetic

  datatype Event =
    | AccountOpened(accountId: string, owner: string, initialBalance: real)
    | MoneyDeposited(accountId: string, amount: real)
    | MoneyWithdrawn(accountId: string, amount: real)
    | AccountFrozen(accountId: string)

  /** The fields that events are applied to. */
  datatype Account = Account(owner: string, balance: real, frozen: bool)

  const BLANK := Account("", 0.0, false)

  datatype Command = Deposit(amount: real) | Withdraw(amount: real) | Freeze

  datatype Rejection = NegativeInitialBalance | AccountIsFrozen | NonPositiveDeposit | InsufficientFunds

  datatype Decision = Accept(event: Event) | Reject(why: Rejection)

  function ApplyEvent(account: Account, event: Event): Account {
    match event
    case AccountOpened(_, owner, initialBalance) => account.(owner := owner, balance := initialBalance)
    case MoneyDeposited(_, amount) => account.(balance := account.balance + amount)
    case MoneyWithdrawn(_, amount) => account.(balance := account.balance - amount)
    case AccountFrozen(_) => account.(frozen := true)
  }

  function Replay(account: Account, events: seq<Event>): Account {
    if events == [] then account
    else ApplyEvent(Replay(account, events[..|events| - 1]), events[|events| - 1])
  }

  function DecideOpen(id: string, owner: string, initialBalance: real): Decision {
    if initialBalance < 0.0 then Reject(NegativeInitialBalance)
    else Accept(AccountOpened(id, owner, initialBalance))
  }

  function Decide(id: string, account: Account, command: Command): Decision {
    match command
    case Deposit(amount) =>
      if account.frozen then Reject(AccountIsFrozen)
      else if amount <= 0.0 then Reject(NonPositiveDeposit)
      else Accept(MoneyDeposited(id, amount))
    case Withdraw(amount) =>
      if account.frozen then Reject(AccountIsFrozen)
      else if amount > account.balance then Reject(InsufficientFunds)
      else Accept(MoneyWithdrawn(id, amount))
    case Freeze => Accept(AccountFrozen(id))
  }

  lemma ReplaySnoc(account: Account, events: seq<Event>, event: Event)
    ensures Replay(account, events + [event]) == ApplyEvent(Replay(account, events), event)
  {
    assert (events + [event])[..|events|] == events;
  }

  lemma {:induction false} ReplayConcat(account: Account, first: seq<Event>, second: seq<Event>)
    ensures Replay(account, first + second) == Replay(Replay(account, first), second)
    decreases |second|
  {
    if second == [] {
      assert first + second == first;
    } else {
      var init, last := second[..|second| - 1], second[|second| - 1];
      ReplayConcat(account, first, init);
      assert first + second == (first + init) + [last];
      ReplaySnoc(account, first + init, last);
    }
  }

  // ------------------------------------------------------------------
  // What the domain rules promise of a whole stream
  // ------------------------------------------------------------------

  predicate MovesMoney(event: Event) {
    event.MoneyDeposited? || event.MoneyWithdrawn?
  }

  ghost predicate NeverOverdrawn(events: seq<Event>) {
    forall k :: 0 <= k <= |events| ==> Replay(BLANK, events[..k]).balance >= 0.0
  }

  ghost predicate NothingMovesAfterFreeze(events: seq<Event>) {
    forall i, j :: 0 <= i < j < |events| && events[i].AccountFrozen? ==> !MovesMoney(events[j])
  }

  ghost predicate OpenedOnlyFirst(events: seq<Event>) {
    forall i :: 0 <= i < |events| && events[i].AccountOpened? ==> i == 0
  }

  ghost predicate BelongsTo(id: string, events: seq<Event>) {
    forall i :: 0 <= i < |events| ==> events[i].accountId == id
  }

  ghost predicate Sound(id: string, events: seq<Event>) {
    NeverOverdrawn(events) && NothingMovesAfterFreeze(events) && OpenedOnlyFirst(events) && BelongsTo(id, events)
  }

  /** A replayed account is frozen exactly when its history holds a freeze. */
  lemma {:induction false} FrozenIffFreezeRecorded(events: seq<Event>)
    ensures Replay(BLANK, events).frozen <==> exists i :: 0 <= i < |events| && events[i].AccountFrozen?
  {
    if events != [] {
      var init := events[..|events| - 1];
      FrozenIffFreezeRecorded(init);
      if Replay(BLANK, init).frozen {
        var i :| 0 <= i < |init| && init[i].AccountFrozen?;
        assert events[i].AccountFrozen?;
      }
    }
  }

  /** Raising an event that was decided on the replayed state keeps the stream sound. */
  lemma DecidedEventKeepsSound(id: string, events: seq<Event>, event: Event)
    requires Sound(id, events)
    requires event.accountId == id
    requires event.AccountOpened? ==> events == [] && event.initialBalance >= 0.0
    requires !event.AccountOpened? ==> exists c :: Decide(id, Replay(BLANK, events), c) == Accept(event)
    ensures Sound(id, events + [event])
  {
    var longer := events + [event];
    forall k | 0 <= k <= |longer| ensures Replay(BLANK, longer[..k]).balance >= 0.0 {
      if k <= |events| {
        assert longer[..k] == events[..k];
      } else {
        assert longer[..k] == longer;
        assert events[..|events|] == events;
        ReplaySnoc(BLANK, events, event);
      }
    }
    FrozenIffFreezeRecorded(events);
  }

  // ------------------------------------------------------------------
  // The read model built from the same stream
  // ------------------------------------------------------------------

  datatype Summary = Summary(
    accountId: string, owner: string, balance: real,
    totalDeposited: real, totalWithdrawn: real, frozen: bool, txCount: nat)

  const EMPTY_SUMMARY := Summary("", "", 0.0, 0.0, 0.0, false, 0)

  function Project(s: Summary, event: Event): Summary {
    match event
    case AccountOpened(id, owner, initialBalance) => s.(accountId := id, owner := owner, balance := initialBalance)
    case MoneyDeposited(_, amount) =>
      s.(balance := s.balance + amount, totalDeposited := s.totalDeposited + amount, txCount := s.txCount + 1)
    case MoneyWithdrawn(_, amount) =>
      s.(balance := s.balance - amount, totalWithdrawn := s.totalWithdrawn + amount, txCount := s.txCount + 1)
    case AccountFrozen(_) => s.(frozen := true)
  }

  function ProjectAll(events: seq<Event>): Summary {
    if events == [] then EMPTY_SUMMARY
    else Project(ProjectAll(events[..|events| - 1]), events[|events| - 1])
  }

  function OpeningBalance(events: seq<Event>): real {
    if events != [] && events[0].AccountOpened? then events[0].initialBalance else 0.0
  }

  /** The read model agrees with the aggregate on every stream. */
  lemma {:induction false} ProjectionAgrees(events: seq<Event>)
    ensures var s, a := ProjectAll(events), Replay(BLANK, events);
            s.owner == a.owner && s.balance == a.balance && s.frozen == a.frozen
  {
    if events != [] {
      ProjectionAgrees(events[..|events| - 1]);
    }
  }

  /** When the account is opened once, first, no money appears or disappears: what
      is left is what was put in less what was taken out. */
  lemma {:induction false} MoneyIsConserved(events: seq<Event>)
    requires OpenedOnlyFirst(events)
    ensures Replay(BLANK, events).balance ==
            OpeningBalance(events) + ProjectAll(events).totalDeposited - ProjectAll(events).totalWithdrawn
  {
    if events != [] {
      var init, last := events[..|events| - 1], events[|events| - 1];
      MoneyIsConserved(init);
      if last.AccountOpened? {
        assert init == [];
      } else if init != [] {
        assert init[0] == events[0];
      }
    }
  }

  predicate IsMovement(event: Event, deposit: bool) {
    if deposit then event.MoneyDeposited? else event.MoneyWithdrawn?
  }

  /** The deposits, or the withdrawals, in the order of the stream. */
  function Amounts(events: seq<Event>, deposit: bool): seq<real> {
    if events == [] then []
    else
      var last := events[|events| - 1];
      Amounts(events[..|events| - 1], deposit) + if IsMovement(last, deposit) then [last.amount] else []
  }

  /** The totals of the read model are the sums over the stream, and it counts both kinds. */
  lemma {:induction false} ProjectionCounts(events: seq<Event>)
    ensures var s := ProjectAll(events);
            s.totalDeposited == Sum(Amounts(events, true)) && s.totalWithdrawn == Sum(Amounts(events, false)) &&
            s.txCount == |Amounts(events, true)| + |Amounts(events, false)|
  {
    if events != [] {
      var init, last := events[..|events| - 1], events[|events| - 1];
      ProjectionCounts(init);
      assert forall deposit :: Amounts(init, deposit) + [] == Amounts(init, deposit);
      if MovesMoney(last) {
        SumSnoc(Amounts(init, last.MoneyDeposited?), last.amount);
      }
    }
  }

  lemma SumSnoc(values: seq<real>, v: real)
    ensures Sum(values + [v]) == Sum(values) + v
  {
    assert (values + [v])[..|values|] == values;
  }

  // ------------------------------------------------------------------
  // The aggregate object
  // ------------------------------------------------------------------

  datatype Outcome = Done | Refused(why: Rejection)

  class BankAccount {
    const id: string
    var version: nat
    var uncommitted: seq<Event>
    var owner: string
    var balance: real
    var frozen: bool

    ghost function State(): Account
      reads this
    {
      Account(owner, balance, frozen)
    }

    constructor (id: string)
      ensures this.id == id && version == 0 && uncommitted == [] && State() == BLANK
    {
      this.id := id;
      version, uncommitted := 0, [];
      owner, balance, frozen := "", 0.0, false;
    }

    method Apply(event: Event)
      modifies this`owner, this`balance, this`frozen
      ensures State() == ApplyEvent(old(State()), event)
    {
      match event {
        case AccountOpened(_, newOwner, initialBalance) =>
          owner := newOwner;
          balance := initialBalance;
        case MoneyDeposited(_, amount) => balance := balance + amount;
        case MoneyWithdrawn(_, amount) => balance := balance - amount;
        case AccountFrozen(_) => frozen := true;
      }
    }

    method Raise(event: Event)
      modifies this
      ensures State() == ApplyEvent(old(State()), event)
      ensures version == old(version) + 1 && uncommitted == old(uncommitted) + [event]
    {
      Apply(event);
      version := version + 1;
      uncommitted := uncommitted + [event];
    }

    /** The factory `open`: a refused opening creates no account. */
    static method Open(id: string, owner: string, initialBalance: real) returns (account: BankAccount?)
      ensures account == null <==> initialBalance < 0.0
      ensures account == null <==> DecideOpen(id, owner, initialBalance).Reject?
      ensures account != null ==>
        fresh(account) && account.id == id && account.version == 1 &&
        account.uncommitted == [AccountOpened(id, owner, initialBalance)] &&
        account.State() == Account(owner, initialBalance, false)
    {
      if initialBalance < 0.0 {
        return null;
      }
      account := new BankAccount(id);
      account.Raise(AccountOpened(id, owner, initialBalance));
    }

    /** Replays a history onto the current state. */
    method LoadFromHistory(events: seq<Event>)
      modifies this
      ensures State() == Replay(old(State()), events)
      ensures version == old(version) + |events| && uncommitted == old(uncommitted)
    {
      for i := 0 to |events|
        invariant State() == Replay(old(State()), events[..i])
        invariant version == old(version) + i && uncommitted == old(uncommitted)
      {
        Apply(events[i]);
        version := version + 1;
        ReplaySnoc(old(State()), events[..i], events[i]);
        assert events[..i] + [events[i]] == events[..i + 1];
      }
      assert events[..|events|] == events;
    }

    method MarkCommitted()
      modifies this`uncommitted
      ensures uncommitted == []
    {
      uncommitted := [];
    }

    /** Carries out one of the commands `deposit`, `withdraw` and `freeze`. */
    method Execute(command: Command) returns (outcome: Outcome)
      modifies this
      ensures match Decide(id, old(State()), command)
              case Accept(event) =>
                outcome == Done && State() == ApplyEvent(old(State()), event) &&
                version == old(version) + 1 && uncommitted == old(uncommitted) + [event]
              case Reject(why) =>
                outcome == Refused(why) && State() == old(State()) &&
                version == old(version) && uncommitted == old(uncommitted)
      ensures outcome == match command
                         case Deposit(amount) =>
                           if old(frozen) then Refused(AccountIsFrozen)
                           else if amount <= 0.0 then Refused(NonPositiveDeposit) else Done
                         case Withdraw(amount) =>
                           if old(frozen) then Refused(AccountIsFrozen)
                           else if amount > old(balance) then Refused(InsufficientFunds) else Done
                         case Freeze => Done
      ensures outcome.Done? ==>
                owner == old(owner) &&
                match command
                case Deposit(amount) => balance == old(balance) + amount && frozen == old(frozen)
                case Withdraw(amount) => balance == old(balance) - amount && frozen == old(frozen)
                case Freeze => balance == old(balance) && frozen
    {
      match command {
        case Deposit(amount) =>
          if frozen { return Refused(AccountIsFrozen); }
          if amount <= 0.0 { return Refused(NonPositiveDeposit); }
          Raise(MoneyDeposited(id, amount));
        case Withdraw(amount) =>
          if frozen { return Refused(AccountIsFrozen); }
          if amount > balance { return Refused(InsufficientFunds); }
          Raise(MoneyWithdrawn(id, amount));
        case Freeze =>
          Raise(AccountFrozen(id));
      }
      return Done;
    }
  }
}
