/** The round-robin and least-connections balancers. An instance is known by its id. */
module LoadBalancers {
  import opened Common
  import opened IntegerArithmetic

  type Id = string

  function Count(ids: seq<Id>, id: Id): nat {
    if ids == [] then 0 else Count(ids[..|ids| - 1], id) + if ids[|ids| - 1] == id then 1 else 0
  }

  lemma CountSnoc(ids: seq<Id>, last: Id, id: Id)
    ensures Count(ids + [last], id) == Count(ids, id) + if last == id then 1 else 0
  {
    assert (ids + [last])[..|ids|] == ids;
  }

  // ------------------------------------------------------------------
  // Least connections
  // ------------------------------------------------------------------

  type Connections = map<Id, nat>

  function Of(connections: Connections, id: Id): nat {
    if id in connections then connections[id] else 0
  }

  /** The first of the instances with the fewest connections. */
  ghost predicate IsFirstLeast(connections: Connections, instances: seq<Id>, k: nat) {
    k < |instances| &&
    (forall j :: 0 <= j < |instances| ==> Of(connections, instances[k]) <= Of(connections, instances[j])) &&
    forall j :: 0 <= j < k ==> Of(connections, instances[k]) < Of(connections, instances[j])
  }

  function FirstLeast(connections: Connections, instances: seq<Id>): (k: nat)
    requires instances != []
    ensures IsFirstLeast(connections, instances, k)
  {
    if |instances| == 1 then 0
    else
      var k := FirstLeast(connections, instances[..|instances| - 1]);
      if Of(connections, instances[|instances| - 1]) < Of(connections, instances[k]) then |instances| - 1 else k
  }

  datatype Step = Pick(instances: seq<Id>) | Release(id: Id)

  /** `picked` lists the instances chosen so far, `released` the releases that counted. */
  datatype State = State(connections: Connections, picked: seq<Id>, released: seq<Id>)

  const START := State(map[], [], [])

  function Next(s: State, step: Step): State {
    match step
    case Pick(instances) =>
      if instances == [] then s
      else
        var id := instances[FirstLeast(s.connections, instances)];
        s.(connections := s.connections[id := Of(s.connections, id) + 1], picked := s.picked + [id])
    case Release(id) =>
      var current := Of(s.connections, id);
      if current == 0 then s
      else s.(connections := s.connections[id := current - 1], released := s.released + [id])
  }

  function Run(steps: seq<Step>): State {
    if steps == [] then START else Next(Run(steps[..|steps| - 1]), steps[|steps| - 1])
  }

  ghost predicate Conserved(s: State, id: Id) {
    Of(s.connections, id) + Count(s.released, id) == Count(s.picked, id)
  }

  lemma NextConserves(s: State, step: Step, id: Id)
    requires Conserved(s, id)
    ensures Conserved(Next(s, step), id)
  {
    hide FirstLeast, Count;
    if step.Release? {
      CountSnoc(s.released, step.id, id);
    } else if step.instances != [] {
      CountSnoc(s.picked, step.instances[FirstLeast(s.connections, step.instances)], id);
    }
  }

  /** For every instance, the connections are the times it was picked less the releases
      that counted, over any instance lists and any releases. */
  lemma {:induction false} ConnectionsAreConserved(steps: seq<Step>, id: Id)
    ensures Conserved(Run(steps), id)
    decreases |steps|
  {
    if steps != [] {
      hide Conserved, Next;
      ConnectionsAreConserved(steps[..|steps| - 1], id);
      NextConserves(Run(steps[..|steps| - 1]), steps[|steps| - 1], id);
    } else {
      assert Conserved(START, id);
    }
  }

  /** How many connections the instance has open: picks less the releases that counted. */
  function Open(s: State, id: Id): int {
    Count(s.picked, id) - Count(s.released, id)
  }

  /** After any run each pick goes to the first of the offered instances with the fewest
      open connections, and a release counts exactly when the instance has one open. */
  lemma PicksTheFirstLeastLoaded(steps: seq<Step>, instances: seq<Id>)
    requires instances != []
    ensures var s := Run(steps);
            exists k ::
              0 <= k < |instances| && Next(s, Pick(instances)).picked == s.picked + [instances[k]] &&
              (forall j :: 0 <= j < |instances| ==> Open(s, instances[k]) <= Open(s, instances[j])) &&
              forall j :: 0 <= j < k ==> Open(s, instances[k]) < Open(s, instances[j])
    ensures forall id :: Next(Run(steps), Release(id)).released
                         == Run(steps).released + if Open(Run(steps), id) > 0 then [id] else []
  {
    var s := Run(steps);
    forall id ensures Open(s, id) == Of(s.connections, id) {
      ConnectionsAreConserved(steps, id);
    }
    hide Run, Open;
    var k := FirstLeast(s.connections, instances);
    assert Next(s, Pick(instances)).picked == s.picked + [instances[k]];
    assert s.released + [] == s.released;
  }

  // ------------------------------------------------------------------
  // Without releases, least connections is round robin
  // ------------------------------------------------------------------

  function Picks(instances: seq<Id>, n: nat): State
  {
    if n == 0 then START else Next(Picks(instances, n - 1), Pick(instances))
  }

  /** How many of the numbers `0..n` leave remainder `i` when divided by `size`. */
  function Share(n: nat, size: nat, i: nat): nat
    requires size > 0
  {
    n / size + if i < n % size then 1 else 0
  }

  lemma NextShare(n: nat, size: nat, i: nat)
    requires size > 0 && i < size
    ensures Share(n + 1, size, i) == Share(n, size, i) + if i == n % size then 1 else 0
  {
    Cycle(n + 1, size);
  }

  ghost predicate Even(connections: Connections, instances: seq<Id>, n: nat)
    requires instances != []
  {
    forall i :: 0 <= i < |instances| ==> Of(connections, instances[i]) == Share(n, |instances|, i)
  }

  lemma FirstLeastOfEven(connections: Connections, instances: seq<Id>, n: nat)
    requires instances != [] && Even(connections, instances, n)
    ensures FirstLeast(connections, instances) == n % |instances|
  {
    var r := n % |instances|;
    var k := FirstLeast(connections, instances);
    assert IsFirstLeast(connections, instances, k);
    assert Of(connections, instances[r]) == n / |instances|;
    assert Of(connections, instances[k]) == Share(n, |instances|, k);
    assert Of(connections, instances[k]) <= Of(connections, instances[r]);
  }

  lemma OnePickKeepsEven(connections: Connections, instances: seq<Id>, n: nat)
    requires instances != [] && Distinct(instances) && Even(connections, instances, n)
    ensures var id := instances[n % |instances|];
            Even(connections[id := Of(connections, id) + 1], instances, n + 1)
  {
    var r := n % |instances|;
    var id := instances[r];
    var after := connections[id := Of(connections, id) + 1];
    forall i | 0 <= i < |instances| ensures Of(after, instances[i]) == Share(n + 1, |instances|, i) {
      NextShare(n, |instances|, i);
      assert i != r ==> instances[i] != id;
    }
  }

  /** The instances visited in turn, from the first on. */
  ghost predicate InTurn(chosen: seq<Id>, instances: seq<Id>)
    requires instances != []
  {
    forall j :: 0 <= j < |chosen| ==> chosen[j] == Turn(instances, j)
  }

  function Turn(instances: seq<Id>, j: nat): Id
    requires instances != []
  {
    instances[j % |instances|]
  }

  /** Visiting in turn shares the picks out evenly: each instance gets the whole quotient,
      and the first ones one more. */
  lemma {:induction false} InTurnIsEven(chosen: seq<Id>, instances: seq<Id>, i: nat)
    requires i < |instances| && Distinct(instances) && InTurn(chosen, instances)
    ensures Count(chosen, instances[i]) == Share(|chosen|, |instances|, i)
    decreases |chosen|
  {
    if chosen != [] {
      var n := |chosen| - 1;
      InTurnIsEven(chosen[..n], instances, i);
      NextShare(n, |instances|, i);
      hide Count, Share;
      CountSnoc(chosen[..n], chosen[n], instances[i]);
      assert chosen == chosen[..n] + [chosen[n]];
      assert chosen[n] == instances[n % |instances|];
    } else {
      Quotient(0, |instances|, 0, 0);
    }
  }

  /** `n` picks in turn, shared out evenly. */
  ghost predicate GoneRound(s: State, instances: seq<Id>, n: nat)
    requires instances != []
  {
    |s.picked| == n && InTurn(s.picked, instances) && Even(s.connections, instances, n)
  }

  lemma OnePick(s: State, instances: seq<Id>, n: nat)
    requires instances != [] && Distinct(instances) && GoneRound(s, instances, n)
    ensures GoneRound(Next(s, Pick(instances)), instances, n + 1)
  {
    hide Even, IsFirstLeast, FirstLeast, Distinct;
    assert Turn(instances, n) == instances[n % |instances|];
    FirstLeastOfEven(s.connections, instances, n);
    OnePickKeepsEven(s.connections, instances, n);
  }

  lemma EvenAtTheStart(instances: seq<Id>)
    requires instances != []
    ensures Even(map[], instances, 0)
  {
    forall i | 0 <= i < |instances| ensures Share(0, |instances|, i) == 0 {
      Quotient(0, |instances|, 0, 0);
    }
  }

  /** Over a fixed list of distinct instances, least connections without releases visits
      them in turn, exactly as round robin does, so no two counts differ by more than one. */
  lemma {:induction false} WithoutReleasesItIsRoundRobin(instances: seq<Id>, n: nat)
    requires instances != [] && Distinct(instances)
    ensures GoneRound(Picks(instances, n), instances, n)
    decreases n
  {
    if n == 0 {
      EvenAtTheStart(instances);
    } else {
      WithoutReleasesItIsRoundRobin(instances, n - 1);
      hide GoneRound, Next, Distinct;
      OnePick(Picks(instances, n - 1), instances, n - 1);
    }
  }

  lemma Wrap(k: nat, size: nat)
    requires size > 0
    ensures k % size % size == k % size && (k % size + 1) % size == (k + 1) % size
  {
    var r := k % size;
    Quotient(r, size, 0, r);
    Cycle(k + 1, size);
    if r + 1 < size {
      Quotient(r + 1, size, 0, r + 1);
    } else {
      Quotient(r + 1, size, 1, 0);
    }
  }

  // ------------------------------------------------------------------
  // The balancer objects
  // ------------------------------------------------------------------

  class LeastConnectionsBalancer {
    var connections: Connections
    ghost var picked: seq<Id>
    ghost var released: seq<Id>

    ghost function Model(): State
      reads this
    {
      State(connections, picked, released)
    }

    constructor ()
      ensures Model() == START
    {
      connections, picked, released := map[], [], [];
    }

    method Pick(instances: seq<Id>) returns (chosen: Option<Id>)
      modifies this
      ensures Model() == Next(old(Model()), Step.Pick(instances))
      ensures chosen == if instances == [] then None
                        else Some(instances[FirstLeast(old(connections), instances)])
    {
      if |instances| == 0 {
        return None;
      }
      var id := instances[0];
      var minConns := Of(connections, id);
      for i := 1 to |instances|
        invariant id == instances[FirstLeast(connections, instances[..i])] && minConns == Of(connections, id)
        invariant connections == old(connections) && picked == old(picked) && released == old(released)
      {
        var conns := Of(connections, instances[i]);
        assert instances[..i + 1][..i] == instances[..i];
        if conns < minConns {
          minConns := conns;
          id := instances[i];
        }
      }
      assert instances[..|instances|] == instances;
      connections := connections[id := Of(connections, id) + 1];
      picked := picked + [id];
      chosen := Some(id);
    }

    method Release(id: Id)
      modifies this
      ensures Model() == Next(old(Model()), Step.Release(id))
    {
      var current := Of(connections, id);
      if current > 0 {
        connections := connections[id := current - 1];
        released := released + [id];
      }
    }

    method GetConnections(id: Id) returns (count: nat)
      ensures count == Of(connections, id)
    {
      count := if id in connections then connections[id] else 0;
    }
  }

  class RoundRobinBalancer {
    var index: nat

    constructor ()
      ensures index == 0
    {
      index := 0;
    }

    method Pick(instances: seq<Id>) returns (chosen: Option<Id>)
      modifies this
      ensures instances == [] ==> chosen == None && index == old(index)
      ensures instances != [] ==>
        chosen == Some(instances[old(index) % |instances|]) && index == (old(index) + 1) % |instances|
    {
      if |instances| == 0 {
        return None;
      }
      chosen := Some(instances[index % |instances|]);
      index := (index + 1) % |instances|;
    }

    /** `n` calls in a row over a fixed list, from a new or reset balancer. */
    method PickMany(instances: seq<Id>, n: nat) returns (chosen: seq<Id>)
      requires instances != [] && index == 0
      modifies this
      ensures |chosen| == n && InTurn(chosen, instances)
    {
      chosen := [];
      Quotient(0, |instances|, 0, 0);
      for k := 0 to n
        invariant index == k % |instances| && |chosen| == k && InTurn(chosen, instances)
      {
        var one := Pick(instances);
        Cycle(k + 1, |instances|);
        Wrap(k, |instances|);
        chosen := chosen + [one.value];
      }
    }

    method Reset()
      modifies this
      ensures index == 0
    {
      index := 0;
    }
  }
}
