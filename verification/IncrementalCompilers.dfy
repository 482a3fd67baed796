/** The incremental compiler: a reverse dependency index kept up to date as files are
    registered, and the closure of a changed file over it, in a graph that may be
    cyclic and may name files that are not registered. */
module IncrementalCompilers {
  import opened Common

  type File = string

  datatype Node = Node(imports: seq<File>, dependents: seq<File>)

  type Graph = map<File, Node>

  // ------------------------------------------------------------------
  // Keeping the index
  // ------------------------------------------------------------------

  function AddDependent(g: Graph, file: File, imp: File): Graph {
    if imp in g && file !in g[imp].dependents
    then g[imp := g[imp].(dependents := g[imp].dependents + [file])]
    else g
  }

  function AddDependents(g: Graph, file: File, imports: seq<File>): Graph {
    if imports == [] then g
    else AddDependent(AddDependents(g, file, imports[..|imports| - 1]), file, imports[|imports| - 1])
  }

  /** `buildDependents`, visiting the files in the map's insertion order. */
  function BuildDependents(g: Graph, order: seq<File>): Graph {
    if order == [] then g
    else
      var before := BuildDependents(g, order[..|order| - 1]);
      var file := order[|order| - 1];
      if file in before then AddDependents(before, file, before[file].imports) else before
  }

  function RegisterOrder(order: seq<File>, file: File): seq<File> {
    if file in order then order else order + [file]
  }

  function RegisterGraph(g: Graph, order: seq<File>, file: File, imports: seq<File>): Graph {
    BuildDependents(g[file := Node(imports, [])], RegisterOrder(order, file))
  }

  /** `after` is `before` with more dependents, and nothing else changed. */
  ghost predicate OnlyMoreDependents(before: Graph, after: Graph) {
    after.Keys == before.Keys &&
    forall x :: x in before ==> after[x].imports == before[x].imports && before[x].dependents <= after[x].dependents
  }

  ghost predicate NoDuplicates(g: Graph) {
    forall x :: x in g ==> Distinct(g[x].dependents)
  }

  predicate Imports(g: Graph, file: File, imp: File) {
    file in g && imp in g[file].imports
  }

  lemma AddDependentEffect(g: Graph, file: File, imp: File)
    requires NoDuplicates(g)
    ensures var after := AddDependent(g, file, imp);
            OnlyMoreDependents(g, after) && NoDuplicates(after) &&
            (imp in g ==> file in after[imp].dependents) &&
            forall x, f :: x in g && f in after[x].dependents ==> f in g[x].dependents || (f == file && x == imp)
  {
  }

  lemma {:induction false} AddDependentsEffect(g: Graph, file: File, imports: seq<File>)
    requires NoDuplicates(g)
    ensures var after := AddDependents(g, file, imports);
            OnlyMoreDependents(g, after) && NoDuplicates(after) &&
            (forall i :: 0 <= i < |imports| && imports[i] in g ==> file in after[imports[i]].dependents) &&
            forall x, f :: x in g && f in after[x].dependents ==> f in g[x].dependents || (f == file && x in imports)
    decreases |imports|
  {
    if imports != [] {
      hide AddDependent, Distinct;
      AddDependentsEffect(g, file, imports[..|imports| - 1]);
      AddDependentEffect(AddDependents(g, file, imports[..|imports| - 1]), file, imports[|imports| - 1]);
    }
  }

  lemma {:induction false} BuildDependentsEffect(g: Graph, order: seq<File>)
    requires NoDuplicates(g)
    ensures var after := BuildDependents(g, order);
            OnlyMoreDependents(g, after) && NoDuplicates(after) &&
            (forall x, f :: f in order && Imports(g, f, x) && x in g ==> f in after[x].dependents) &&
            forall x, f :: x in g && f in after[x].dependents ==>
              f in g[x].dependents || (f in order && Imports(g, f, x))
    decreases |order|
  {
    if order != [] {
      hide AddDependents, Distinct;
      var init, last := order[..|order| - 1], order[|order| - 1];
      BuildDependentsEffect(g, init);
      var before := BuildDependents(g, init);
      if last in before {
        AddDependentsEffect(before, last, before[last].imports);
      }
      assert order == init + [last];
      var after := BuildDependents(g, order);
      forall x, f | x in g && f in after[x].dependents
        ensures f in g[x].dependents || (f in order && Imports(g, f, x))
      {
        assert f in before[x].dependents || (f == last && Imports(before, f, x));
      }
    }
  }

  // ------------------------------------------------------------------
  // What registering keeps
  // ------------------------------------------------------------------

  /** Every registered importer of a registered file is among its dependents. */
  ghost predicate Complete(g: Graph) {
    forall x, f :: x in g && Imports(g, f, x) ==> f in g[x].dependents
  }

  /** No file is listed as a dependent of something it does not import. */
  ghost predicate NoStale(g: Graph) {
    forall x, f :: x in g && f in g[x].dependents ==> Imports(g, f, x)
  }

  ghost predicate DependentsRegistered(g: Graph) {
    forall x, f :: x in g && f in g[x].dependents ==> f in g
  }

  ghost predicate GraphInv(order: seq<File>, g: Graph) {
    (forall f :: f in order <==> f in g) && Distinct(order) &&
    NoDuplicates(g) && Complete(g) && DependentsRegistered(g)
  }

  /** What one registration does to the dependents of each file: it forgets those of the
      file itself, and adds every current importer. */
  lemma RegisterEffect(order: seq<File>, g: Graph, file: File, imports: seq<File>)
    requires GraphInv(order, g)
    ensures var after := RegisterGraph(g, order, file, imports);
            after.Keys == g.Keys + {file} && after[file].imports == imports &&
            (forall x :: x in g && x != file ==> after[x].imports == g[x].imports) &&
            NoDuplicates(after) &&
            forall x, f :: x in after ==>
              (f in after[x].dependents <==> Imports(after, f, x) || (x != file && f in g[x].dependents))
  {
    hide BuildDependents, Distinct;
    var start := g[file := Node(imports, [])];
    assert NoDuplicates(start) by {
      EmptyIsDistinct();
    }
    var longer := RegisterOrder(order, file);
    BuildDependentsEffect(start, longer);
    var after := BuildDependents(start, longer);
    forall x, f ensures Imports(after, f, x) == Imports(start, f, x) {
    }
  }

  lemma EmptyIsDistinct()
    ensures Distinct<File>([])
  {
  }

  lemma RegisterKeepsGraphInv(order: seq<File>, g: Graph, file: File, imports: seq<File>)
    requires GraphInv(order, g)
    ensures GraphInv(RegisterOrder(order, file), RegisterGraph(g, order, file, imports))
  {
    hide RegisterGraph;
    RegisterEffect(order, g, file, imports);
  }

  /** A registration leaves no stale dependents exactly when it keeps every registered
      import, other than the file itself, that the file had before. */
  lemma StaleExactlyWhenAnImportIsDropped(order: seq<File>, g: Graph, file: File, imports: seq<File>)
    requires GraphInv(order, g) && NoStale(g)
    ensures NoStale(RegisterGraph(g, order, file, imports))
       <==> forall x :: Imports(g, file, x) && x in g && x != file ==> x in imports
  {
    hide RegisterGraph, Distinct;
    RegisterEffect(order, g, file, imports);
    var after := RegisterGraph(g, order, file, imports);
    if x :| Imports(g, file, x) && x in g && x != file && x !in imports {
      assert file in g[x].dependents;
      assert file in after[x].dependents && !Imports(after, file, x);
    } else {
      forall x, f | x in after && f in after[x].dependents ensures Imports(after, f, x) {
        if x != file && f in g[x].dependents {
          assert Imports(g, f, x);
        }
      }
    }
  }

  // ------------------------------------------------------------------
  // The closure over dependents
  // ------------------------------------------------------------------

  predicate Edge(g: Graph, x: File, y: File) {
    x in g && y in g[x].dependents
  }

  ghost predicate IsPath(g: Graph, p: seq<File>) {
    p != [] && forall i, j :: 0 <= i && j == i + 1 && j < |p| ==> Edge(g, p[i], p[j])
  }

  ghost predicate Reaches(g: Graph, from: File, to: File) {
    exists p :: IsPath(g, p) && p[0] == from && p[|p| - 1] == to
  }

  lemma ReachesItself(g: Graph, x: File)
    ensures Reaches(g, x, x)
  {
    assert IsPath(g, [x]);
  }

  lemma ReachesOneMore(g: Graph, from: File, x: File, y: File)
    requires Reaches(g, from, x) && Edge(g, x, y)
    ensures Reaches(g, from, y)
  {
    var p :| IsPath(g, p) && p[0] == from && p[|p| - 1] == x;
    var q := p + [y];
    assert IsPath(g, q) && q[0] == from && q[|q| - 1] == y;
  }

  lemma {:induction false} ClosedSetHoldsPath(g: Graph, closed: seq<File>, p: seq<File>)
    requires IsPath(g, p) && p[0] in closed
    requires forall x, y :: x in closed && Edge(g, x, y) ==> y in closed
    ensures p[|p| - 1] in closed
    decreases |p|
  {
    if |p| > 1 {
      assert IsPath(g, p[..|p| - 1]);
      ClosedSetHoldsPath(g, closed, p[..|p| - 1]);
      assert Edge(g, p[|p| - 2], p[|p| - 1]);
    }
  }

  /** Every file that the closure of `file` can hold. */
  ghost function Universe(g: Graph, file: File): set<File> {
    {file} + set x, y | x in g && y in g[x].dependents :: y
  }

  lemma AffectedIsBounded(g: Graph, file: File, affected: seq<File>)
    requires Distinct(affected) && forall x :: x in affected ==> x in Universe(g, file)
    ensures |affected| <= |Universe(g, file)|
  {
    DistinctSize(affected);
    SubsetSize(Elements(affected), Universe(g, file));
  }

  /** Distinct files reached from `file`, whose dependents are all there except for
      those still in the queue. */
  ghost predicate Exploring(g: Graph, file: File, affected: seq<File>, queue: seq<File>) {
    file in affected && Distinct(affected) &&
    (forall x :: x in affected ==> Reaches(g, file, x) && x in Universe(g, file)) &&
    (forall x :: x in queue ==> x in affected) &&
    (forall x, y :: x in affected && x !in queue && Edge(g, x, y) ==> y in affected)
  }

  /** `collectAffected` on one changed file. */
  method CollectAffected(file: File, g: Graph) returns (affected: seq<File>)
    ensures Distinct(affected)
    ensures forall x :: x in affected <==> Reaches(g, file, x)
  {
    affected := [file];
    var queue := [file];
    ReachesItself(g, file);
    while queue != []
      invariant Exploring(g, file, affected, queue)
      decreases |Universe(g, file)| - |affected|, |queue|
    {
      var current := queue[0];
      ghost var before := queue;
      queue := queue[1..];
      assert forall x :: x in before ==> x == current || x in queue;
      if current in g {
        affected, queue := Expand(file, g, current, affected, queue);
      }
      AffectedIsBounded(g, file, affected);
    }
    forall x | Reaches(g, file, x) ensures x in affected {
      var p :| IsPath(g, p) && p[0] == file && p[|p| - 1] == x;
      ClosedSetHoldsPath(g, affected, p);
    }
  }

  /** The inner loop: the dependents of one file taken from the queue. */
  method Expand(file: File, g: Graph, current: File, affected0: seq<File>, queue0: seq<File>)
    returns (affected: seq<File>, queue: seq<File>)
    requires current in g && current in affected0
    requires Exploring(g, file, affected0, [current] + queue0)
    ensures Exploring(g, file, affected, queue)
    ensures |affected| >= |affected0| && |queue| - |queue0| == |affected| - |affected0|
  {
    affected, queue := affected0, queue0;
    var dependents := g[current].dependents;
    for j := 0 to |dependents|
      invariant Exploring(g, file, affected, [current] + queue)
      invariant current in affected && forall i :: 0 <= i < j ==> dependents[i] in affected
      invariant |affected| >= |affected0| && |queue| - |queue0| == |affected| - |affected0|
    {
      var dep := dependents[j];
      if dep !in affected {
        Discovered(g, file, current, dep, affected, queue);
        affected := affected + [dep];
        queue := queue + [dep];
      }
    }
    assert forall x :: x in [current] + queue <==> x == current || x in queue;
  }

  lemma Discovered(g: Graph, file: File, current: File, dep: File, affected: seq<File>, queue: seq<File>)
    requires Exploring(g, file, affected, [current] + queue)
    requires current in affected && Edge(g, current, dep) && dep !in affected
    ensures Exploring(g, file, affected + [dep], [current] + (queue + [dep]))
  {
    ReachesOneMore(g, file, current, dep);
    hide Reaches;
    assert forall x :: x in affected + [dep] <==> x in affected || x == dep;
    assert forall x :: x in [current] + (queue + [dep]) <==> x in [current] + queue || x == dep;
  }

  // ------------------------------------------------------------------
  // Transitive importers
  // ------------------------------------------------------------------

  ghost predicate IsImportChain(g: Graph, p: seq<File>) {
    p != [] && forall i, j :: 0 <= i && j == i + 1 && j < |p| ==> Imports(g, p[i], p[j])
  }

  /** `file` is `target`, or it imports something that transitively imports `target`. */
  ghost predicate TransitivelyImports(g: Graph, file: File, target: File) {
    exists p :: IsImportChain(g, p) && p[0] == file && p[|p| - 1] == target
  }

  /** The files that marking `file` makes dirty. */
  ghost function ReachSet(g: Graph, file: File): (r: set<File>)
    ensures forall x :: x in r <==> Reaches(g, file, x)
  {
    forall x | Reaches(g, file, x) ensures x in Universe(g, file) {
      var p :| IsPath(g, p) && p[0] == file && p[|p| - 1] == x;
      if |p| > 1 {
        assert Edge(g, p[|p| - 2], p[|p| - 1]);
      }
    }
    set x | x in Universe(g, file) && Reaches(g, file, x)
  }

  lemma {:induction false} ChainIsReached(order: seq<File>, g: Graph, p: seq<File>)
    requires GraphInv(order, g) && IsImportChain(g, p) && p[|p| - 1] in g
    ensures Reaches(g, p[|p| - 1], p[0])
    decreases |p|
  {
    hide Distinct;
    if |p| == 1 {
      ReachesItself(g, p[0]);
    } else {
      assert IsImportChain(g, p[1..]);
      ChainIsReached(order, g, p[1..]);
      assert Imports(g, p[0], p[1]);
      assert p[1] in g by {
        if |p| > 2 {
          assert Imports(g, p[1], p[2]);
        }
      }
      ReachesOneMore(g, p[|p| - 1], p[1], p[0]);
    }
  }

  lemma {:induction false} PathIsChain(g: Graph, p: seq<File>)
    requires NoStale(g) && IsPath(g, p)
    ensures TransitivelyImports(g, p[|p| - 1], p[0])
    decreases |p|
  {
    if |p| == 1 {
      assert IsImportChain(g, [p[0]]);
    } else {
      var init := p[..|p| - 1];
      assert IsPath(g, init);
      PathIsChain(g, init);
      var chain :| IsImportChain(g, chain) && chain[0] == p[|p| - 2] && chain[|chain| - 1] == p[0];
      assert Edge(g, p[|p| - 2], p[|p| - 1]);
      var longer := [p[|p| - 1]] + chain;
      assert IsImportChain(g, longer) && longer[|longer| - 1] == p[0];
    }
  }

  /** Marking a registered file reaches every file that transitively imports it, however
      cyclic the imports and in whatever order the files were registered. */
  lemma ImportersAreReached(order: seq<File>, g: Graph, file: File, target: File)
    requires GraphInv(order, g) && target in g
    requires TransitivelyImports(g, file, target)
    ensures file in ReachSet(g, target)
  {
    var p :| IsImportChain(g, p) && p[0] == file && p[|p| - 1] == target;
    ChainIsReached(order, g, p);
  }

  /** While no registration has dropped an import, marking reaches nothing else. */
  lemma OnlyImportersAreReached(order: seq<File>, g: Graph, file: File, target: File)
    requires GraphInv(order, g) && NoStale(g) && target in g
    ensures file in ReachSet(g, target) <==> TransitivelyImports(g, file, target)
  {
    if Reaches(g, target, file) {
      var p :| IsPath(g, p) && p[0] == target && p[|p| - 1] == file;
      PathIsChain(g, p);
    }
    if TransitivelyImports(g, file, target) {
      ImportersAreReached(order, g, file, target);
    }
  }

  lemma ChainsJoin(g: Graph, file: File, middle: File, target: File)
    requires TransitivelyImports(g, file, middle) && TransitivelyImports(g, middle, target)
    ensures TransitivelyImports(g, file, target)
  {
    var p :| IsImportChain(g, p) && p[0] == file && p[|p| - 1] == middle;
    var q :| IsImportChain(g, q) && q[0] == middle && q[|q| - 1] == target;
    var r := p + q[1..];
    forall i, j | 0 <= i && j == i + 1 && j < |r| ensures Imports(g, r[i], r[j]) {
      if j < |p| {
        assert Imports(g, p[i], p[j]);
      } else {
        assert r[j] == q[j - |p| + 1] && r[i] == q[i - |p| + 1];
        assert Imports(g, q[i - |p| + 1], q[j - |p| + 1]);
      }
    }
    assert IsImportChain(g, r) && r[0] == file && r[|r| - 1] == target;
  }

  /** Every listed dependent still imports the file, directly or through others. */
  ghost predicate DependentsImport(g: Graph) {
    forall x, f :: Edge(g, x, f) ==> TransitivelyImports(g, f, x)
  }

  lemma {:induction false} PathImports(g: Graph, p: seq<File>)
    requires DependentsImport(g) && IsPath(g, p)
    ensures TransitivelyImports(g, p[|p| - 1], p[0])
    decreases |p|
  {
    if |p| == 1 {
      assert IsImportChain(g, [p[0]]);
    } else {
      var init := p[..|p| - 1];
      assert IsPath(g, init);
      PathImports(g, init);
      assert Edge(g, p[|p| - 2], p[|p| - 1]);
      ChainsJoin(g, p[|p| - 1], p[|p| - 2], p[0]);
    }
  }

  /** Marking reaches no file but transitive importers exactly when every listed dependent
      still imports the file, directly or through others: a stale one does no harm while some
      other chain of imports remains. */
  lemma NothingElseIsReachedExactlyWhen(g: Graph)
    ensures (forall target, file :: file in ReachSet(g, target) ==> TransitivelyImports(g, file, target))
       <==> DependentsImport(g)
  {
    if DependentsImport(g) {
      forall target, file | file in ReachSet(g, target) ensures TransitivelyImports(g, file, target) {
        var p :| IsPath(g, p) && p[0] == target && p[|p| - 1] == file;
        PathImports(g, p);
      }
    } else {
      var x, f :| Edge(g, x, f) && !TransitivelyImports(g, f, x);
      ReachesItself(g, x);
      ReachesOneMore(g, x, x, f);
      assert f in ReachSet(g, x);
    }
  }

  /** Marking any registered file reaches exactly its transitive importers. */
  ghost predicate MarksExactly(g: Graph) {
    forall target, file :: target in g ==> (file in ReachSet(g, target) <==> TransitivelyImports(g, file, target))
  }

  lemma MarksExactlyWhenDependentsImport(order: seq<File>, g: Graph)
    requires GraphInv(order, g)
    ensures MarksExactly(g) <==> DependentsImport(g)
  {
    hide GraphInv, TransitivelyImports, Reaches;
    NothingElseIsReachedExactlyWhen(g);
    if MarksExactly(g) {
      forall x, f | Edge(g, x, f) ensures TransitivelyImports(g, f, x) {
        ReachesItself(g, x);
        ReachesOneMore(g, x, x, f);
        assert f in ReachSet(g, x);
      }
    }
    forall target, file | target in g && TransitivelyImports(g, file, target) ensures file in ReachSet(g, target) {
      ImportersAreReached(order, g, file, target);
    }
  }

  lemma OneImport(g: Graph, file: File, imp: File)
    requires Imports(g, file, imp)
    ensures TransitivelyImports(g, file, imp)
  {
    assert IsImportChain(g, [file, imp]);
  }

  lemma ImportsItself(g: Graph, file: File)
    ensures TransitivelyImports(g, file, file)
  {
    assert IsImportChain(g, [file]);
  }

  /** A chain of imports may lose a link that another chain replaces. */
  lemma {:induction false} ChainSurvives(g: Graph, after: Graph, file: File, p: seq<File>)
    requires forall x :: x in g && x != file ==> x in after && after[x].imports == g[x].imports
    requires forall x :: Imports(g, file, x) && x in g && x != file ==> TransitivelyImports(after, file, x)
    requires IsImportChain(g, p) && p[|p| - 1] in g
    ensures TransitivelyImports(after, p[0], p[|p| - 1])
    decreases |p|
  {
    if |p| == 1 {
      ImportsItself(after, p[0]);
    } else {
      assert IsImportChain(g, p[1..]);
      assert Imports(g, p[0], p[1]);
      assert p[1] in g by {
        assert |p| > 2 ==> Imports(g, p[1], p[2]);
      }
      ChainSurvives(g, after, file, p[1..]);
      hide TransitivelyImports;
      if p[0] != p[1] {
        if p[0] != file {
          OneImport(after, p[0], p[1]);
        }
        ChainsJoin(after, p[0], p[1], p[|p| - 1]);
      }
    }
  }

  /** A registration first lists a dependent that no longer imports its file, directly or
      through others, exactly when it cuts the registered file off from one it imported. */
  lemma DependentsImportExactlyWhenNotCutOff(order: seq<File>, g: Graph, file: File, imports: seq<File>)
    requires GraphInv(order, g) && DependentsImport(g)
    ensures var after := RegisterGraph(g, order, file, imports);
            DependentsImport(after) <==>
              forall x :: Imports(g, file, x) && x in g && x != file ==> TransitivelyImports(after, file, x)
  {
    RegisterEffect(order, g, file, imports);
    var after := RegisterGraph(g, order, file, imports);
    hide RegisterGraph, Distinct, TransitivelyImports;
    if DependentsImport(after) {
      forall x | Imports(g, file, x) && x in g && x != file ensures TransitivelyImports(after, file, x) {
        assert Edge(after, x, file);
      }
    }
    if forall x :: Imports(g, file, x) && x in g && x != file ==> TransitivelyImports(after, file, x) {
      forall x, f | Edge(after, x, f) ensures TransitivelyImports(after, f, x) {
        if Imports(after, f, x) {
          OneImport(after, f, x);
        } else {
          assert Edge(g, x, f);
          OldChainSurvives(g, after, file, f, x);
        }
      }
    }
  }

  lemma OldChainSurvives(g: Graph, after: Graph, file: File, f: File, x: File)
    requires forall y :: y in g && y != file ==> y in after && after[y].imports == g[y].imports
    requires forall y :: Imports(g, file, y) && y in g && y != file ==> TransitivelyImports(after, file, y)
    requires TransitivelyImports(g, f, x) && x in g
    ensures TransitivelyImports(after, f, x)
  {
    var p :| IsImportChain(g, p) && p[0] == f && p[|p| - 1] == x;
    ChainSurvives(g, after, file, p);
  }

  ghost predicate HasImporter(g: Graph, target: File) {
    exists file :: Imports(g, file, target)
  }

  lemma ChainEndsInAnImport(g: Graph, p: seq<File>)
    requires IsImportChain(g, p)
    ensures |p| == 1 || HasImporter(g, p[|p| - 1])
  {
    if |p| > 1 {
      assert Imports(g, p[|p| - 2], p[|p| - 1]);
    }
  }

  /** Marking a file reaches all its transitive importers exactly when the file is
      registered or nothing imports it: the dependents of an unregistered file are unknown. */
  lemma MarkingIsCompleteExactlyWhen(order: seq<File>, g: Graph, target: File)
    requires GraphInv(order, g)
    ensures (forall file :: TransitivelyImports(g, file, target) ==> file in ReachSet(g, target))
       <==> target in g || !HasImporter(g, target)
  {
    if target in g {
      forall file | TransitivelyImports(g, file, target) ensures file in ReachSet(g, target) {
        ImportersAreReached(order, g, file, target);
      }
      return;
    }
    forall x | Reaches(g, target, x) ensures x == target {
      var p :| IsPath(g, p) && p[0] == target && p[|p| - 1] == x;
      assert |p| > 1 ==> Edge(g, p[0], p[1]);
    }
    if file :| Imports(g, file, target) {
      var p := [file, target];
      assert IsImportChain(g, p) && p[0] == file && p[|p| - 1] == target;
      assert TransitivelyImports(g, file, target) && file in g;
      assert file !in ReachSet(g, target);
    } else {
      forall file | TransitivelyImports(g, file, target) ensures file in ReachSet(g, target) {
        var p :| IsImportChain(g, p) && p[0] == file && p[|p| - 1] == target;
        ChainEndsInAnImport(g, p);
        ReachesItself(g, target);
      }
    }
  }

  // ------------------------------------------------------------------
  // Whole runs
  // ------------------------------------------------------------------

  datatype State = State(order: seq<File>, graph: Graph, dirty: set<File>, compiled: set<File>)

  const START := State([], map[], {}, {})

  datatype Step =
    | Register(file: File, imports: seq<File>)
    | MarkDirty(file: File)
    | Compile(errors: seq<File>)
    | InvalidateAll

  ghost function Next(s: State, step: Step): State {
    match step
    case Register(file, imports) =>
      s.(order := RegisterOrder(s.order, file), graph := RegisterGraph(s.graph, s.order, file, imports))
    case MarkDirty(file) => s.(dirty := s.dirty + ReachSet(s.graph, file))
    case Compile(errors) => s.(dirty := {}, compiled := s.compiled + (s.dirty - Elements(errors)))
    case InvalidateAll => s.(dirty := s.graph.Keys, compiled := {})
  }

  ghost function Run(s: State, steps: seq<Step>): State {
    if steps == [] then s else Next(Run(s, steps[..|steps| - 1]), steps[|steps| - 1])
  }

  lemma NextKeepsGraphInv(s: State, step: Step)
    requires GraphInv(s.order, s.graph)
    ensures GraphInv(Next(s, step).order, Next(s, step).graph)
    ensures s.graph.Keys <= Next(s, step).graph.Keys
  {
    hide GraphInv, RegisterGraph, ReachSet;
    if step.Register? {
      RegisterKeepsGraphInv(s.order, s.graph, step.file, step.imports);
      RegisterEffect(s.order, s.graph, step.file, step.imports);
    }
  }

  /** After any registrations, marks and compiles, every registered importer appears once
      among the dependents of each registered file it imports. */
  lemma {:induction false} EveryReachableIndexIsComplete(steps: seq<Step>)
    ensures GraphInv(Run(START, steps).order, Run(START, steps).graph)
    decreases |steps|
  {
    if steps != [] {
      hide GraphInv, Next;
      EveryReachableIndexIsComplete(steps[..|steps| - 1]);
      NextKeepsGraphInv(Run(START, steps[..|steps| - 1]), steps[|steps| - 1]);
    }
  }

  /** The registration drops an import, of a registered file, that the file had before. */
  ghost predicate DropsAnImport(s: State, step: Step) {
    step.Register? &&
    exists x :: Imports(s.graph, step.file, x) && x in s.graph && x != step.file && x !in step.imports
  }

  lemma StepKeepsNoStale(s: State, step: Step)
    requires GraphInv(s.order, s.graph) && NoStale(s.graph)
    ensures NoStale(Next(s, step).graph) <==> !DropsAnImport(s, step)
  {
    hide GraphInv, NoStale, RegisterGraph, ReachSet;
    if step.Register? {
      StaleExactlyWhenAnImportIsDropped(s.order, s.graph, step.file, step.imports);
    }
  }

  ghost predicate NeverDropsAnImport(steps: seq<Step>) {
    steps != [] ==>
      NeverDropsAnImport(steps[..|steps| - 1]) &&
      !DropsAnImport(Run(START, steps[..|steps| - 1]), steps[|steps| - 1])
  }

  /** At no moment of the run is a dependent stale. */
  ghost predicate NeverStale(steps: seq<Step>) {
    NoStale(Run(START, steps).graph) && (steps != [] ==> NeverStale(steps[..|steps| - 1]))
  }

  /** No dependent is stale at any moment of a run exactly when no registration of it drops
      an import. */
  lemma {:induction false} NoStaleExactlyWhenNothingIsDropped(steps: seq<Step>)
    ensures NeverStale(steps) <==> NeverDropsAnImport(steps)
    decreases |steps|
  {
    if steps != [] {
      var init, last := steps[..|steps| - 1], steps[|steps| - 1];
      assert Run(START, steps) == Next(Run(START, init), last);
      hide Run, Next, NoStale, GraphInv, DropsAnImport;
      NoStaleExactlyWhenNothingIsDropped(init);
      EveryReachableIndexIsComplete(init);
      if NeverStale(init) {
        StepKeepsNoStale(Run(START, init), last);
      }
    }
  }

  /** In such runs a mark of a registered file makes dirty exactly its transitive importers. */
  lemma MarksAreExact(steps: seq<Step>, target: File, file: File)
    requires NeverDropsAnImport(steps) && target in Run(START, steps).graph
    ensures file in ReachSet(Run(START, steps).graph, target)
       <==> TransitivelyImports(Run(START, steps).graph, file, target)
  {
    NoStaleExactlyWhenNothingIsDropped(steps);
    EveryReachableIndexIsComplete(steps);
    hide Run;
    OnlyImportersAreReached(Run(START, steps).order, Run(START, steps).graph, file, target);
  }

  /** The registration cuts the file off from a registered file that it imported: it drops
      the import, and no chain of the imports there are then leads to that file. */
  ghost predicate CutsOff(s: State, step: Step) {
    step.Register? &&
    exists x :: Imports(s.graph, step.file, x) && x in s.graph && x != step.file &&
                !TransitivelyImports(Next(s, step).graph, step.file, x)
  }

  ghost predicate NeverCutsOff(steps: seq<Step>) {
    steps != [] ==>
      NeverCutsOff(steps[..|steps| - 1]) && !CutsOff(Run(START, steps[..|steps| - 1]), steps[|steps| - 1])
  }

  /** At every moment of the run a mark of any registered file would make dirty exactly its
      transitive importers. */
  ghost predicate AlwaysMarksExactly(steps: seq<Step>) {
    MarksExactly(Run(START, steps).graph) && (steps != [] ==> AlwaysMarksExactly(steps[..|steps| - 1]))
  }

  lemma StepKeepsDependentsImport(s: State, step: Step)
    requires GraphInv(s.order, s.graph) && DependentsImport(s.graph)
    ensures DependentsImport(Next(s, step).graph) <==> !CutsOff(s, step)
  {
    hide GraphInv, DependentsImport, RegisterGraph, ReachSet, TransitivelyImports;
    if step.Register? {
      DependentsImportExactlyWhenNotCutOff(s.order, s.graph, step.file, step.imports);
    }
  }

  /** Marks are exact throughout a run exactly when no registration of it cuts a file off
      from one that it imported: the first one that does makes them reach too much. */
  lemma {:induction false} MarksAreExactExactlyWhen(steps: seq<Step>)
    ensures AlwaysMarksExactly(steps) <==> NeverCutsOff(steps)
    decreases |steps|
  {
    EveryReachableIndexIsComplete(steps);
    if steps == [] {
      assert DependentsImport(map[]);
      MarksExactlyWhenDependentsImport([], map[]);
    } else {
      var init, last := steps[..|steps| - 1], steps[|steps| - 1];
      assert Run(START, steps) == Next(Run(START, init), last);
      hide Run, Next, MarksExactly, GraphInv, CutsOff, DependentsImport;
      MarksAreExactExactlyWhen(init);
      EveryReachableIndexIsComplete(init);
      MarksExactlyWhenDependentsImport(Run(START, steps).order, Run(START, steps).graph);
      MarksExactlyWhenDependentsImport(Run(START, init).order, Run(START, init).graph);
      if AlwaysMarksExactly(init) {
        StepKeepsDependentsImport(Run(START, init), last);
      }
    }
  }

  /** The step makes `file` dirty. */
  ghost predicate Dirties(s: State, step: Step, file: File) {
    match step
    case MarkDirty(f) => file in ReachSet(s.graph, f)
    case InvalidateAll => file in s.graph
    case _ => false
  }

  predicate ClearsDirty(step: Step) {
    step.Compile? || step.InvalidateAll?
  }

  ghost predicate DirtiedAt(steps: seq<Step>, i: nat, file: File)
    requires i < |steps|
  {
    Dirties(Run(START, steps[..i]), steps[i], file) && forall j :: i < j < |steps| ==> !ClearsDirty(steps[j])
  }

  lemma DirtiedAtPrefix(steps: seq<Step>, i: nat, file: File)
    requires i + 1 < |steps|
    ensures DirtiedAt(steps, i, file)
       <==> DirtiedAt(steps[..|steps| - 1], i, file) && !ClearsDirty(steps[|steps| - 1])
  {
    var init := steps[..|steps| - 1];
    assert steps[..i] == init[..i];
    assert forall j :: i < j < |init| ==> init[j] == steps[j];
  }

  lemma DirtyAfterTheLastStep(steps: seq<Step>, file: File)
    requires steps != []
    ensures file in Run(START, steps).dirty
       <==> DirtiedAt(steps, |steps| - 1, file) ||
            (file in Run(START, steps[..|steps| - 1]).dirty && !ClearsDirty(steps[|steps| - 1]))
  {
    hide RegisterGraph, RegisterOrder, ReachSet;
  }

  ghost predicate DirtiedSinceTheLastCompile(steps: seq<Step>, file: File) {
    exists i :: 0 <= i < |steps| && DirtiedAt(steps, i, file)
  }

  lemma DirtiedOneStepLater(steps: seq<Step>, file: File)
    requires steps != []
    ensures DirtiedSinceTheLastCompile(steps, file)
       <==> DirtiedAt(steps, |steps| - 1, file) ||
            (DirtiedSinceTheLastCompile(steps[..|steps| - 1], file) && !ClearsDirty(steps[|steps| - 1]))
  {
    hide DirtiedAt;
    var init, last := steps[..|steps| - 1], steps[|steps| - 1];
    if DirtiedSinceTheLastCompile(init, file) {
      var i :| 0 <= i < |init| && DirtiedAt(init, i, file);
      DirtiedAtPrefix(steps, i, file);
    }
    if DirtiedSinceTheLastCompile(steps, file) {
      var i :| 0 <= i < |steps| && DirtiedAt(steps, i, file);
      if i < |init| {
        DirtiedAtPrefix(steps, i, file);
      }
    }
  }

  /** A file is dirty exactly when it was reached by a mark, or registered at an
      invalidation, that no later compile or invalidation followed. In particular a file
      whose compilation failed is forgotten until it is marked again. */
  lemma {:induction false} DirtyExactlySinceTheLastCompile(steps: seq<Step>, file: File)
    ensures file in Run(START, steps).dirty <==> DirtiedSinceTheLastCompile(steps, file)
    decreases |steps|
  {
    if steps != [] {
      hide *;
      DirtyExactlySinceTheLastCompile(steps[..|steps| - 1], file);
      DirtyAfterTheLastStep(steps, file);
      DirtiedOneStepLater(steps, file);
    }
  }

  /** Files that are registered and dirty stay so until the next compile. */
  lemma {:induction false} DirtyUntilCompiled(s: State, steps: seq<Step>, files: set<File>)
    requires GraphInv(s.order, s.graph) && files <= s.graph.Keys && files <= s.dirty
    requires forall i :: 0 <= i < |steps| ==> !steps[i].Compile?
    ensures files <= Run(s, steps).dirty && files <= Run(s, steps).graph.Keys
    ensures GraphInv(Run(s, steps).order, Run(s, steps).graph)
    decreases |steps|
  {
    if steps != [] {
      DirtyUntilCompiled(s, steps[..|steps| - 1], files);
      hide GraphInv, RegisterGraph, RegisterOrder, ReachSet;
      NextKeepsGraphInv(Run(s, steps[..|steps| - 1]), steps[|steps| - 1]);
    }
  }

  /** Mark a registered file in any reachable state, then do anything but compile: the
      compile that follows recompiles every file that transitively imported the marked one
      when it was marked, unless that very file has an error. */
  lemma ImportersAreRecompiled(before: seq<Step>, target: File, after: seq<Step>, errors: seq<File>, file: File)
    requires target in Run(START, before).graph
    requires forall i :: 0 <= i < |after| ==> !after[i].Compile?
    requires TransitivelyImports(Run(START, before).graph, file, target) && file !in errors
    ensures var marked := Next(Run(START, before), MarkDirty(target));
            var s := Run(marked, after);
            file in s.dirty && file in Next(s, Compile(errors)).compiled
  {
    var s := Run(START, before);
    EveryReachableIndexIsComplete(before);
    ImportersAreReached(s.order, s.graph, file, target);
    var p :| IsImportChain(s.graph, p) && p[0] == file && p[|p| - 1] == target;
    assert file in s.graph by {
      assert |p| > 1 ==> Imports(s.graph, p[0], p[1]);
    }
    DirtyUntilCompiled(Next(s, MarkDirty(target)), after, {file});
  }

  // ------------------------------------------------------------------
  // The compiler object
  // ------------------------------------------------------------------

  datatype CompileResult = CompileResult(changedFiles: seq<File>, recompiledFiles: seq<File>,
                                         errors: seq<File>, success: bool)

  class IncrementalCompiler {
    var order: seq<File>       // the keys of `graph` in insertion order
    var graph: Graph
    var outputCache: map<File, string>
    var dirtyFiles: seq<File>  // an insertion-ordered set

    ghost predicate Valid()
      reads this
    {
      GraphInv(order, graph) && Distinct(dirtyFiles) &&
      forall f :: f in outputCache ==> outputCache[f] == "compiled:" + f
    }

    ghost function Model(): State
      reads this
    {
      State(order, graph, Elements(dirtyFiles), outputCache.Keys)
    }

    constructor ()
      ensures Valid() && Model() == START
    {
      order, graph, outputCache, dirtyFiles := [], map[], map[], [];
    }

    method Register(file: File, imports: seq<File>)
      requires Valid()
      modifies this`order, this`graph
      ensures Valid() && Model() == Next(old(Model()), Step.Register(file, imports))
    {
      RegisterKeepsGraphInv(order, graph, file, imports);
      hide GraphInv, BuildDependents;
      graph := graph[file := Node(imports, [])];
      if file !in order {
        order := order + [file];
      }
      graph := Reindex(graph, order);
    }

    static method Reindex(g0: Graph, order: seq<File>) returns (g: Graph)
      ensures g == BuildDependents(g0, order)
    {
      g := g0;
      for i := 0 to |order|
        invariant g == BuildDependents(g0, order[..i])
      {
        g := Visit(g, order[i]);
        assert order[..i + 1][..i] == order[..i];
      }
      assert order[..|order|] == order;
    }

    static method Visit(g0: Graph, file: File) returns (g: Graph)
      ensures g == if file in g0 then AddDependents(g0, file, g0[file].imports) else g0
    {
      g := g0;
      if file in g0 {
        var imports := g0[file].imports;
        for j := 0 to |imports|
          invariant g == AddDependents(g0, file, imports[..j])
        {
          var imp := imports[j];
          if imp in g && file !in g[imp].dependents {
            g := g[imp := g[imp].(dependents := g[imp].dependents + [file])];
          }
          assert imports[..j + 1][..j] == imports[..j];
        }
        assert imports[..|imports|] == imports;
      }
    }

    method MarkDirty(file: File)
      requires Valid()
      modifies this`dirtyFiles
      ensures Valid() && Model() == Next(old(Model()), Step.MarkDirty(file))
    {
      var affected := CollectAffected(file, graph);
      hide GraphInv;
      for i := 0 to |affected|
        invariant Distinct(dirtyFiles)
        invariant forall x :: x in dirtyFiles <==> x in old(dirtyFiles) || x in affected[..i]
      {
        if affected[i] !in dirtyFiles {
          dirtyFiles := dirtyFiles + [affected[i]];
        }
        assert affected[..i + 1] == affected[..i] + [affected[i]];
      }
      assert affected[..|affected|] == affected;
      assert Elements(dirtyFiles) == old(Elements(dirtyFiles)) + ReachSet(graph, file);
    }

    method Compile(simulatedErrors: seq<File>) returns (result: CompileResult)
      requires Valid()
      modifies this`outputCache, this`dirtyFiles
      ensures Valid() && Model() == Next(old(Model()), Step.Compile(simulatedErrors))
      ensures dirtyFiles == [] && result.changedFiles == old(dirtyFiles)
      ensures outputCache.Keys
           == old(outputCache.Keys) + (Elements(old(dirtyFiles)) - Elements(simulatedErrors))
      ensures result.recompiledFiles == Keep(old(dirtyFiles), Elements(simulatedErrors), false)
      ensures result.errors == Keep(simulatedErrors, Elements(old(dirtyFiles)), true)
      ensures result.success <==> simulatedErrors == []
    {
      var changedFiles := dirtyFiles;
      hide GraphInv;
      var recompiled := CompileAll(changedFiles, simulatedErrors);
      var errors := ErrorsAmong(simulatedErrors, changedFiles);
      dirtyFiles := [];
      result := CompileResult(changedFiles, recompiled, errors, simulatedErrors == []);
    }

    /** The loop over the changed files. */
    method CompileAll(changedFiles: seq<File>, simulatedErrors: seq<File>) returns (recompiled: seq<File>)
      requires forall f :: f in outputCache ==> outputCache[f] == "compiled:" + f
      modifies this`outputCache
      ensures recompiled == Keep(changedFiles, Elements(simulatedErrors), false)
      ensures forall f :: f in outputCache ==> outputCache[f] == "compiled:" + f
      ensures outputCache.Keys == old(outputCache.Keys) + (Elements(changedFiles) - Elements(simulatedErrors))
    {
      recompiled := [];
      for i := 0 to |changedFiles|
        invariant recompiled == Keep(changedFiles[..i], Elements(simulatedErrors), false)
        invariant forall f :: f in outputCache ==> outputCache[f] == "compiled:" + f
        invariant outputCache.Keys ==
          old(outputCache.Keys) + (Elements(changedFiles[..i]) - Elements(simulatedErrors))
      {
        var file := changedFiles[i];
        if file !in simulatedErrors {
          outputCache := outputCache[file := "compiled:" + file];
          recompiled := recompiled + [file];
        }
        assert changedFiles[..i + 1] == changedFiles[..i] + [file];
        assert changedFiles[..i + 1][..i] == changedFiles[..i];
      }
      assert changedFiles[..|changedFiles|] == changedFiles;
    }

    /** The filter that picks the errors about changed files. */
    static method ErrorsAmong(simulatedErrors: seq<File>, changedFiles: seq<File>) returns (errors: seq<File>)
      ensures errors == Keep(simulatedErrors, Elements(changedFiles), true)
    {
      errors := [];
      for i := 0 to |simulatedErrors|
        invariant errors == Keep(simulatedErrors[..i], Elements(changedFiles), true)
      {
        if simulatedErrors[i] in changedFiles {
          errors := errors + [simulatedErrors[i]];
        }
        assert simulatedErrors[..i + 1] == simulatedErrors[..i] + [simulatedErrors[i]];
      }
      assert simulatedErrors[..|simulatedErrors|] == simulatedErrors;
    }

    method InvalidateAll()
      requires Valid()
      modifies this`outputCache, this`dirtyFiles
      ensures Valid() && Model() == Next(old(Model()), Step.InvalidateAll)
      ensures dirtyFiles == order && outputCache == map[]
    {
      outputCache := map[];
      dirtyFiles := [];
      for i := 0 to |order|
        invariant dirtyFiles == order[..i] && outputCache == map[]
      {
        dirtyFiles := dirtyFiles + [order[i]];
      }
      assert Elements(order) == graph.Keys;
    }
  }
}
