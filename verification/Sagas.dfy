/** The saga transaction: a stack of compensations for the steps that completed. The state
    that actions and compensations change is a world of any type; each may throw. Calls are
    awaited one after another, so that a call is one step although it may await several
    times: no step is still running when a rollback starts. */
module Sagas {
  import opened Common

  /** What came of an action or a compensation: the world it left, and whether it threw. */
  datatype Tried<W> = Tried(world: W, threw: bool)

  datatype Record<!W> = Record(name: string, undo: W -> Tried<W>)

  datatype Status = Running | Committed | Compensating | Compensated

  datatype Outcome = Done | StepThrew | SagaStepError(status: Status) | SagaTimeoutError(timeoutMs: int)

  /** `undone` lists every compensation attempted so far, in order. */
  datatype State<!W> = State(status: Status, startedAt: int, timeoutMs: Option<int>, completed: seq<Record<W>>,
                             undone: seq<Record<W>>, world: W)

  datatype Call<!W> =
    | Step(name: string, now: int, action: W -> Tried<W>, undo: W -> Tried<W>)
    | Commit
    | Rollback

  function Start<W>(startedAt: int, timeoutMs: Option<int>, world: W): State<W> {
    State(Running, startedAt, timeoutMs, [], [], world)
  }

  /** Every compensation once, the last step's first, whether or not earlier ones threw. */
  function UndoAll<W>(completed: seq<Record<W>>, world: W): W {
    if completed == [] then world
    else UndoAll(completed[..|completed| - 1], completed[|completed| - 1].undo(world).world)
  }

  /** Why a step is refused before its action is called; `Done` when it is not. */
  function Refusal<W>(s: State<W>, now: int): Outcome {
    if s.status != Running then SagaStepError(s.status)
    else if s.timeoutMs.Some? && now - s.startedAt > s.timeoutMs.value then SagaTimeoutError(s.timeoutMs.value)
    else Done
  }

  function Next<W>(s: State<W>, call: Call<W>): State<W> {
    match call
    case Step(name, now, action, undo) =>
      if Refusal(s, now) != Done then s
      else
        var tried := action(s.world);
        s.(world := tried.world,
           completed := if tried.threw then s.completed else s.completed + [Record(name, undo)])
    case Commit => s.(status := Committed)
    case Rollback =>
      s.(status := Compensated, world := UndoAll(s.completed, s.world), undone := s.undone + Reversed(s.completed))
  }

  function Run<W>(s: State<W>, calls: seq<Call<W>>): State<W> {
    if calls == [] then s else Next(Run(s, calls[..|calls| - 1]), calls[|calls| - 1])
  }

  // ------------------------------------------------------------------
  // Rolling back restores the world
  // ------------------------------------------------------------------

  /** If the step's action runs and succeeds, its compensation would take the world back;
      if the action throws, it leaves the world alone. */
  ghost predicate Reversible<W>(s: State<W>, call: Call<W>) {
    call.Step? &&
    (Refusal(s, call.now) == Done ==>
      var tried := call.action(s.world);
      if tried.threw then tried.world == s.world else call.undo(tried.world) == Tried(s.world, false))
  }

  ghost predicate AllReversible<W>(s: State<W>, calls: seq<Call<W>>) {
    calls != [] ==>
      AllReversible(s, calls[..|calls| - 1]) && Reversible(Run(s, calls[..|calls| - 1]), calls[|calls| - 1])
  }

  lemma ReversibleStepKeepsTheWayBack<W>(s: State<W>, call: Call<W>)
    requires Reversible(s, call)
    ensures var s' := Next(s, call);
            UndoAll(s'.completed, s'.world) == UndoAll(s.completed, s.world) &&
            s'.status == s.status && s'.undone == s.undone
  {
    if Refusal(s, call.now) == Done && !call.action(s.world).threw {
      var more := s.completed + [Record(call.name, call.undo)];
      assert more[..|s.completed|] == s.completed;
    }
  }

  lemma {:induction false} TheWayBackIsKept<W>(s: State<W>, calls: seq<Call<W>>)
    requires AllReversible(s, calls)
    ensures var s' := Run(s, calls);
            UndoAll(s'.completed, s'.world) == UndoAll(s.completed, s.world) &&
            s'.status == s.status && s'.undone == s.undone
    decreases |calls|
  {
    if calls != [] {
      TheWayBackIsKept(s, calls[..|calls| - 1]);
      hide Next, UndoAll, Reversible;
      ReversibleStepKeepsTheWayBack(Run(s, calls[..|calls| - 1]), calls[|calls| - 1]);
    }
  }

  /** After any steps, completed, failed, timed out or refused, a rollback restores the world
      from before the first of them, and attempts exactly the compensations of the completed
      ones, each once and in reverse. */
  lemma {:induction false} RollbackRestoresTheStart<W>(startedAt: int, timeoutMs: Option<int>, world: W,
                                                         calls: seq<Call<W>>)
    requires AllReversible(Start(startedAt, timeoutMs, world), calls)
    ensures var before := Run(Start(startedAt, timeoutMs, world), calls);
            var after := Next(before, Rollback);
            after.world == world && after.status == Compensated && after.undone == Reversed(before.completed)
  {
    var start := Start(startedAt, timeoutMs, world);
    TheWayBackIsKept(start, calls);
    var before := Run(start, calls);
    assert [] + Reversed(before.completed) == Reversed(before.completed);
  }

  // ------------------------------------------------------------------
  // Which steps a rollback undoes
  // ------------------------------------------------------------------

  /** The call ran a step's action to success. */
  predicate Completes<W>(s: State<W>, call: Call<W>) {
    call.Step? && Refusal(s, call.now) == Done && !call.action(s.world).threw
  }

  function CompletedBy<W>(s: State<W>, calls: seq<Call<W>>): seq<Record<W>> {
    if calls == [] then []
    else
      var before := Run(s, calls[..|calls| - 1]);
      var last := calls[|calls| - 1];
      CompletedBy(s, calls[..|calls| - 1]) + if Completes(before, last) then [Record(last.name, last.undo)] else []
  }

  /** Over any calls, commits and rollbacks included, the stack holds exactly the steps that
      completed, in order: a failed, timed-out or refused step is never compensated. */
  lemma {:induction false} StackIsWhatCompleted<W>(startedAt: int, timeoutMs: Option<int>, world: W,
                                                     calls: seq<Call<W>>)
    ensures var s := Start(startedAt, timeoutMs, world);
            Run(s, calls).completed == CompletedBy(s, calls)
    decreases |calls|
  {
    if calls != [] {
      var s := Start(startedAt, timeoutMs, world);
      StackIsWhatCompleted(startedAt, timeoutMs, world, calls[..|calls| - 1]);
      var before := Run(s, calls[..|calls| - 1]);
      assert before.completed + [] == before.completed;
    }
  }

  function AddOne(now: int): Call<int> {
    Step("add", now, (w: int) => Tried(w + 1, false), (w: int) => Tried(w - 1, false))
  }

  /** A step that adds one and a compensation that takes it away, rolled back twice. */
  lemma ASecondRollbackUndoesTooMuch(now: int)
    ensures var s := Next(Start(now, None, 0), AddOne(now));
            Next(s, Rollback).world == 0 && Next(Next(s, Rollback), Rollback).world == -1
  {
    var s := Next(Start(now, None, 0), AddOne(now));
    assert s.completed == [Record("add", AddOne(now).undo)] && s.completed[..0] == [];
    assert UndoAll(s.completed, 1) == 0;
    assert UndoAll(s.completed, 0) == -1;
  }

  // ------------------------------------------------------------------
  // When some compensations throw
  // ------------------------------------------------------------------

  /** Which attempts threw, by the index of the step. */
  function Threw<W>(completed: seq<Record<W>>, world: W): (r: seq<bool>)
    ensures |r| == |completed|
  {
    if completed == [] then []
    else
      var tried := completed[|completed| - 1].undo(world);
      Threw(completed[..|completed| - 1], tried.world) + [tried.threw]
  }

  /** The compensation touches only `resource`, and unless it throws puts back `value`. */
  ghost predicate Restores<V(!new)>(record: Record<map<string, V>>, resource: string, value: V) {
    forall w :: Puts(w, record.undo(w), resource, value)
  }

  predicate Puts<V(==)>(before: map<string, V>, tried: Tried<map<string, V>>, resource: string, value: V) {
    (forall r :: r in before && r != resource ==> r in tried.world && tried.world[r] == before[r]) &&
    (!tried.threw ==> resource in tried.world && tried.world[resource] == value)
  }

  ghost predicate EachRestoresItsOwn<V(!new)>(completed: seq<Record<map<string, V>>>, resources: seq<string>,
                                              values: seq<V>) {
    |resources| == |values| == |completed| && Distinct(resources) &&
    forall i :: 0 <= i < |completed| ==> Restores(completed[i], resources[i], values[i])
  }

  lemma {:induction false} OthersAreUntouched<V(!new)>(completed: seq<Record<map<string, V>>>, resources: seq<string>,
                                                       values: seq<V>, world: map<string, V>, r: string)
    requires EachRestoresItsOwn(completed, resources, values)
    requires r !in resources && r in world
    ensures r in UndoAll(completed, world) && UndoAll(completed, world)[r] == world[r]
    decreases |completed|
  {
    if completed != [] {
      var last := |completed| - 1;
      assert Restores(completed[last], resources[last], values[last]);
      assert Puts(world, completed[last].undo(world), resources[last], values[last]);
      OthersAreUntouched(completed[..last], resources[..last], values[..last], completed[last].undo(world).world, r);
    }
  }

  /** When every step works on its own resource, a compensation that throws costs only that
      step: every other one's resource is put back. */
  lemma {:induction false} AThrowCostsOnlyItsOwnStep<V(!new)>(completed: seq<Record<map<string, V>>>,
                                                              resources: seq<string>, values: seq<V>,
                                                              world: map<string, V>, i: nat)
    requires EachRestoresItsOwn(completed, resources, values)
    requires i < |completed| && !Threw(completed, world)[i]
    ensures resources[i] in UndoAll(completed, world) && UndoAll(completed, world)[resources[i]] == values[i]
    decreases |completed|
  {
    var last := |completed| - 1;
    var tried := completed[last].undo(world);
    if i == last {
      assert Restores(completed[last], resources[last], values[last]);
      assert Puts(world, tried, resources[last], values[last]);
      OthersAreUntouched(completed[..last], resources[..last], values[..last], tried.world, resources[last]);
    } else {
      AThrowCostsOnlyItsOwnStep(completed[..last], resources[..last], values[..last], tried.world, i);
    }
  }

  // ------------------------------------------------------------------
  // Rolling back more than once
  // ------------------------------------------------------------------

  /** The compensation, whether it throws or not, turns the value of `resource` into `f` of
      it and touches nothing else. */
  ghost predicate ActsOn<V(!new)>(record: Record<map<string, V>>, resource: string, f: V -> V) {
    forall w :: resource in w ==> record.undo(w).world == w[resource := f(w[resource])]
  }

  ghost predicate EachActsOnItsOwn<V(!new)>(completed: seq<Record<map<string, V>>>, resources: seq<string>,
                                            fs: seq<V -> V>) {
    |resources| == |fs| == |completed| && Distinct(resources) &&
    forall i :: 0 <= i < |completed| ==> ActsOn(completed[i], resources[i], fs[i])
  }

  /** Each resource has become what its function makes of it, and the others are as before. */
  ghost predicate EachBecame<V>(before: map<string, V>, after: map<string, V>, resources: seq<string>,
                                    fs: seq<V -> V>)
    requires |resources| == |fs| && forall r :: r in resources ==> r in before
  {
    after.Keys == before.Keys &&
    (forall r :: r in before && r !in resources ==> after[r] == before[r]) &&
    forall i :: 0 <= i < |resources| ==> after[resources[i]] == fs[i](before[resources[i]])
  }

  lemma OneMoreBecame<V>(world: map<string, V>, after: map<string, V>, resources: seq<string>, fs: seq<V -> V>)
    requires |resources| == |fs| > 0 && Distinct(resources) && forall r :: r in resources ==> r in world
    requires var last := |resources| - 1;
             var tried := world[resources[last] := fs[last](world[resources[last]])];
             (forall r :: r in resources[..last] ==> r in tried) &&
             EachBecame(tried, after, resources[..last], fs[..last])
    ensures EachBecame(world, after, resources, fs)
  {
    var last := |resources| - 1;
    assert resources == resources[..last] + [resources[last]];
    forall i | 0 <= i < |resources| ensures after[resources[i]] == fs[i](world[resources[i]]) {
      assert resources[i] in resources;
      if i < last {
        assert resources[..last][i] == resources[i] && resources[i] != resources[last];
      } else {
        assert resources[last] !in resources[..last];
      }
    }
  }

  lemma FirstOnesActOnTheirOwn<V(!new)>(completed: seq<Record<map<string, V>>>, resources: seq<string>,
                                        fs: seq<V -> V>)
    requires completed != [] && EachActsOnItsOwn(completed, resources, fs)
    ensures var last := |completed| - 1;
            EachActsOnItsOwn(completed[..last], resources[..last], fs[..last])
  {
    hide ActsOn;
  }

  /** A rollback turns each step's resource into what its compensation makes of it, and
      leaves every other resource alone. */
  lemma {:induction false} EachResourceIsCompensated<V(!new)>(completed: seq<Record<map<string, V>>>,
                                                              resources: seq<string>, fs: seq<V -> V>,
                                                              world: map<string, V>)
    requires EachActsOnItsOwn(completed, resources, fs) && forall r :: r in resources ==> r in world
    ensures EachBecame(world, UndoAll(completed, world), resources, fs)
    decreases |completed|
  {
    if completed != [] {
      var last := |completed| - 1;
      assert ActsOn(completed[last], resources[last], fs[last]) && resources[last] in resources;
      var tried := completed[last].undo(world).world;
      assert tried == world[resources[last] := fs[last](world[resources[last]])];
      assert forall r :: r in resources[..last] ==> r in resources;
      FirstOnesActOnTheirOwn(completed, resources, fs);
      hide EachActsOnItsOwn;
      EachResourceIsCompensated(completed[..last], resources[..last], fs[..last], tried);
      hide EachBecame, ActsOn, UndoAll;
      OneMoreBecame(world, UndoAll(completed, world), resources, fs);
    }
  }

  /** A rollback leaves the world as it is exactly when every compensation leaves its own
      resource as it is. */
  lemma UndoChangesNothingExactlyWhen<V(!new)>(completed: seq<Record<map<string, V>>>, resources: seq<string>,
                                               fs: seq<V -> V>, world: map<string, V>)
    requires EachActsOnItsOwn(completed, resources, fs) && forall r :: r in resources ==> r in world
    ensures UndoAll(completed, world) == world
       <==> forall i :: 0 <= i < |resources| ==> fs[i](world[resources[i]]) == world[resources[i]]
  {
    EachResourceIsCompensated(completed, resources, fs, world);
    hide EachActsOnItsOwn, UndoAll;
    var after := UndoAll(completed, world);
    if forall i :: 0 <= i < |resources| ==> fs[i](world[resources[i]]) == world[resources[i]] {
      forall r | r in world ensures after[r] == world[r] {
        if r in resources {
          var i :| 0 <= i < |resources| && resources[i] == r;
          assert after[resources[i]] == fs[i](world[resources[i]]);
        }
      }
    }
  }

  /** Neither a commit nor a rollback empties the stack: in any state of any saga, a second
      rollback attempts every compensation again, and none exactly when no step had completed. */
  lemma ASecondRollbackAttemptsNothingExactlyWhen<W>(s: State<W>)
    ensures var once := Next(s, Rollback);
            var twice := Next(once, Rollback);
            twice.undone == once.undone + Reversed(s.completed) &&
            (twice.undone == once.undone <==> s.completed == [])
  {
    var once := Next(s, Rollback);
    assert |once.undone + Reversed(s.completed)| == |once.undone| + |s.completed|;
  }

  /** When every step works on its own resource, a second rollback does no harm exactly when
      every compensation, applied twice to the value its resource had, does the same as once. */
  lemma ASecondRollbackIsHarmlessExactlyWhen<V(!new)>(s: State<map<string, V>>, resources: seq<string>,
                                                      fs: seq<V -> V>)
    requires EachActsOnItsOwn(s.completed, resources, fs) && forall r :: r in resources ==> r in s.world
    ensures var once := Next(s, Rollback);
            var twice := Next(once, Rollback);
            twice.world == once.world <==>
              forall i :: 0 <= i < |resources| ==>
                fs[i](fs[i](s.world[resources[i]])) == fs[i](s.world[resources[i]])
  {
    var once := Next(s, Rollback);
    EachResourceIsCompensated(s.completed, resources, fs, s.world);
    UndoChangesNothingExactlyWhen(s.completed, resources, fs, once.world);
    hide EachActsOnItsOwn, UndoAll;
    assert forall i :: 0 <= i < |resources| ==> resources[i] in resources;
    assert forall i :: 0 <= i < |resources| ==> once.world[resources[i]] == fs[i](s.world[resources[i]]);
  }

  /** The stack and the world a commit or a rollback leaves stay so through any further
      steps and commits, which are all refused or without effect. */
  lemma {:induction false} NothingMovesAfterTheEnd<W>(s: State<W>, calls: seq<Call<W>>)
    requires s.status != Running && forall i :: 0 <= i < |calls| ==> !calls[i].Rollback?
    ensures var s' := Run(s, calls);
            s'.status != Running && s'.world == s.world && s'.completed == s.completed && s'.undone == s.undone
    decreases |calls|
  {
    if calls != [] {
      NothingMovesAfterTheEnd(s, calls[..|calls| - 1]);
      assert !calls[|calls| - 1].Rollback?;
    }
  }

  /** As `NothingMovesAfterTheEnd`, also through rollbacks, if one changes nothing. */
  lemma {:induction false} NothingMovesByRollingBack<W>(s: State<W>, calls: seq<Call<W>>)
    requires s.status != Running && UndoAll(s.completed, s.world) == s.world
    ensures var s' := Run(s, calls);
            s'.status != Running && s'.world == s.world && s'.completed == s.completed
    decreases |calls|
  {
    if calls != [] {
      NothingMovesByRollingBack(s, calls[..|calls| - 1]);
      hide UndoAll;
    }
  }

  /** When every compensation applied twice does the same as once, any number of further
      rollbacks, commits and refused steps leaves the world as the first rollback left it. */
  lemma RestoringTwiceIsRestoringOnce<V(!new)>(s: State<map<string, V>>, resources: seq<string>,
                                               fs: seq<V -> V>, calls: seq<Call<map<string, V>>>)
    requires EachActsOnItsOwn(s.completed, resources, fs) && forall r :: r in resources ==> r in s.world
    requires forall i, v :: 0 <= i < |fs| ==> fs[i](fs[i](v)) == fs[i](v)
    ensures var once := Next(s, Rollback);
            var later := Run(once, calls);
            later.world == once.world && later.completed == s.completed && later.status != Running
  {
    var once := Next(s, Rollback);
    assert once.status != Running && once.completed == s.completed;
    ASecondRollbackIsHarmlessExactlyWhen(s, resources, fs);
    assert Next(once, Rollback).world == UndoAll(once.completed, once.world);
    hide EachActsOnItsOwn, UndoAll, Next;
    NothingMovesByRollingBack(once, calls);
  }

  // ------------------------------------------------------------------
  // The transaction object
  // ------------------------------------------------------------------

  class SagaTransaction<!W> {
    const startedAt: int
    const timeoutMs: Option<int>
    var completedSteps: seq<Record<W>>
    var status: Status
    var world: W                  // what the actions and compensations work on
    ghost var undone: seq<Record<W>>

    ghost function Model(): State<W>
      reads this
    {
      State(status, startedAt, timeoutMs, completedSteps, undone, world)
    }

    constructor (now: int, timeoutMs: Option<int>, world: W)
      ensures Model() == Start(now, timeoutMs, world)
    {
      this.startedAt, this.timeoutMs, this.world := now, timeoutMs, world;
      completedSteps, status, undone := [], Running, [];
    }

    method Step(name: string, now: int, action: W -> Tried<W>, undo: W -> Tried<W>) returns (outcome: Outcome)
      modifies this
      ensures Model() == Next(old(Model()), Call.Step(name, now, action, undo))
      ensures outcome == if Refusal(old(Model()), now) != Done then Refusal(old(Model()), now)
                         else if action(old(world)).threw then StepThrew else Done
      ensures var late := timeoutMs.Some? && now - startedAt > timeoutMs.value;
              if old(status) != Running || late then
                Model() == old(Model()) &&
                outcome == if old(status) != Running then SagaStepError(old(status))
                           else SagaTimeoutError(timeoutMs.value)
              else
                world == action(old(world)).world && status == Running && undone == old(undone) &&
                if action(old(world)).threw then outcome == StepThrew && completedSteps == old(completedSteps)
                else outcome == Done && completedSteps == old(completedSteps) + [Record(name, undo)]
    {
      if status != Running {
        return SagaStepError(status);
      }
      if timeoutMs.Some? && now - startedAt > timeoutMs.value {
        return SagaTimeoutError(timeoutMs.value);
      }
      var tried := action(world);
      world := tried.world;
      if tried.threw {
        return StepThrew;
      }
      completedSteps := completedSteps + [Record(name, undo)];
      return Done;
    }

    method Commit()
      modifies this
      ensures Model() == Next(old(Model()), Call.Commit)
      ensures Model() == old(Model()).(status := Committed)
    {
      status := Committed;
    }

    method Rollback()
      modifies this
      ensures Model() == Next(old(Model()), Call.Rollback)
    {
      status := Compensating;
      RunCompensations();
      status := Compensated;
    }

    method RunCompensations()
      modifies this`world, this`undone
      ensures world == UndoAll(completedSteps, old(world))
      ensures undone == old(undone) + Reversed(completedSteps)
    {
      var reversed := Reversed(completedSteps);
      var n := |completedSteps|;
      assert completedSteps[..n] == completedSteps;
      for i := 0 to n
        invariant UndoAll(completedSteps[..n - i], world) == UndoAll(completedSteps, old(world))
        invariant undone == old(undone) + reversed[..i]
      {
        var rest := completedSteps[..n - i];
        assert rest[..|rest| - 1] == completedSteps[..n - i - 1] && rest[|rest| - 1] == reversed[i];
        var tried := reversed[i].undo(world);
        world := tried.world;
        undone := undone + [reversed[i]];
      }
      assert reversed[..n] == reversed;
    }
  }
}
