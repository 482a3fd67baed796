/** Schema evolution: the diff between two table schemas, and its application to a live
    table by a warehouse that may refuse any of the statements. */
module SchemaEvolutions {
  import opened Common

  datatype ColumnType = StringType | NumberType | BooleanType | DateType | JsonType

  datatype Column = Column(name: string, typ: ColumnType, nullable: bool)

  datatype TableSchema = TableSchema(tableName: string, columns: seq<Column>)

  // ------------------------------------------------------------------
  // Tables by column name
  // ------------------------------------------------------------------

  /** An insertion-ordered map from names to columns: what `new Map` makes of a schema's
      columns, and what a live table is. */
  datatype Table = Table(order: seq<string>, columns: map<string, Column>)

  function Put(t: Table, c: Column): Table {
    Table(if c.name in t.columns then t.order else t.order + [c.name], t.columns[c.name := c])
  }

  function FromColumns(columns: seq<Column>): Table {
    if columns == [] then Table([], map[]) else Put(FromColumns(columns[..|columns| - 1]), columns[|columns| - 1])
  }

  ghost predicate Valid(t: Table) {
    Distinct(t.order) && forall n :: n in t.order <==> n in t.columns
  }

  lemma {:induction false} FromColumnsIsValid(columns: seq<Column>)
    ensures Valid(FromColumns(columns))
    decreases |columns|
  {
    if columns != [] {
      FromColumnsIsValid(columns[..|columns| - 1]);
    }
  }

  // ------------------------------------------------------------------
  // The diff
  // ------------------------------------------------------------------

  datatype Kind = Add | Drop | Alter

  datatype Change =
    | AddColumn(table: string, column: string, definition: Column)
    | DropColumn(table: string, column: string)
    | AlterColumn(table: string, column: string, definition: Column)

  function Added(current: Table, target: Table): set<string> {
    target.columns.Keys - current.columns.Keys
  }

  function Gone(current: Table, target: Table): set<string> {
    current.columns.Keys - target.columns.Keys
  }

  function Changed(current: Table, target: Table): set<string> {
    set n | n in current.columns && n in target.columns && target.columns[n].typ != current.columns[n].typ
  }

  function Make(kind: Kind, table: string, name: string, target: Table): Change
    requires kind != Drop ==> name in target.columns
  {
    match kind
    case Add => AddColumn(table, name, target.columns[name])
    case Drop => DropColumn(table, name)
    case Alter => AlterColumn(table, name, target.columns[name])
  }

  predicate Defined(kind: Kind, names: seq<string>, target: Table) {
    kind != Drop ==> Elements(names) <= target.columns.Keys
  }

  function MakeAll(kind: Kind, table: string, names: seq<string>, target: Table): seq<Change>
    requires Defined(kind, names, target)
  {
    if names == [] then []
    else MakeAll(kind, table, names[..|names| - 1], target) + [Make(kind, table, names[|names| - 1], target)]
  }

  lemma {:induction false} MakeAllColumns(kind: Kind, table: string, names: seq<string>, target: Table)
    requires Defined(kind, names, target)
    ensures var r := MakeAll(kind, table, names, target);
            |r| == |names| && forall i :: 0 <= i < |r| ==> r[i].column == names[i]
    decreases |names|
  {
    if names != [] {
      MakeAllColumns(kind, table, names[..|names| - 1], target);
    }
  }

  lemma {:induction false} KeepNone(names: seq<string>)
    ensures Keep(names, {}, true) == [] && Keep(names, {}, false) == names
    decreases |names|
  {
    if names != [] {
      KeepNone(names[..|names| - 1]);
    }
  }

  function AddNames(current: Table, target: Table): (r: seq<string>)
    ensures Defined(Add, r, target)
  {
    KeepMembers(target.order, Added(current, target), true);
    Keep(target.order, Added(current, target), true)
  }

  function DropNames(current: Table, target: Table): seq<string> {
    Keep(current.order, Gone(current, target), true)
  }

  function AlterNames(current: Table, target: Table): (r: seq<string>)
    ensures Defined(Alter, r, target)
  {
    KeepMembers(current.order, Changed(current, target), true);
    Keep(current.order, Changed(current, target), true)
  }

  /** `generateDiff` on the maps of the two schemas. */
  function Diff(from: string, current: Table, to: string, target: Table): seq<Change> {
    MakeAll(Add, to, AddNames(current, target), target) +
    MakeAll(Drop, from, DropNames(current, target), target) +
    MakeAll(Alter, to, AlterNames(current, target), target)
  }

  /** Two tables agree when they have the same column names with the same types, whatever
      the order of the columns and whether they may be null. */
  ghost predicate Agree(t: Table, u: Table) {
    t.columns.Keys == u.columns.Keys && forall n :: n in t.columns ==> t.columns[n].typ == u.columns[n].typ
  }

  lemma {:induction false} KeepIsEmptyExactlyWhen(names: seq<string>, s: set<string>)
    requires forall n :: n in s ==> n in names
    ensures Keep(names, s, true) == [] <==> s == {}
  {
    KeepMembers(names, s, true);
    if s == {} {
      KeepNone(names);
    } else {
      var n :| n in s;
      assert n in Keep(names, s, true);
    }
  }

  lemma AgreeExactlyWhen(current: Table, target: Table)
    ensures Agree(current, target)
       <==> Added(current, target) == {} && Gone(current, target) == {} && Changed(current, target) == {}
  {
    if Added(current, target) == {} && Gone(current, target) == {} && Changed(current, target) == {} {
      forall n | n in current.columns
        ensures n in target.columns && current.columns[n].typ == target.columns[n].typ
      {
        assert n !in Gone(current, target) && n !in Changed(current, target);
      }
      forall n | n in target.columns ensures n in current.columns {
        assert n !in Added(current, target);
      }
    }
  }

  /** The diff is empty exactly when the tables agree: a change of nullability is never seen. */
  lemma DiffIsEmptyExactlyWhen(from: string, current: Table, to: string, target: Table)
    requires Valid(current) && Valid(target)
    ensures Diff(from, current, to, target) == [] <==> Agree(current, target)
  {
    var adds, drops, alters := AddNames(current, target), DropNames(current, target), AlterNames(current, target);
    KeepIsEmptyExactlyWhen(target.order, Added(current, target));
    KeepIsEmptyExactlyWhen(current.order, Gone(current, target));
    KeepIsEmptyExactlyWhen(current.order, Changed(current, target));
    AgreeExactlyWhen(current, target);
    MakeAllColumns(Add, to, adds, target);
    MakeAllColumns(Drop, from, drops, target);
    MakeAllColumns(Alter, to, alters, target);
    hide Keep, MakeAll, Agree, Added, Gone, Changed, Distinct, Valid;
    assert |Diff(from, current, to, target)| == |adds| + |drops| + |alters|;
  }

  // ------------------------------------------------------------------
  // The warehouse
  // ------------------------------------------------------------------

  /** Executing one statement on the named table: None when it is illegal. Altering a
      column sets its type alone. */
  function Exec(name: string, t: Table, change: Change): Option<Table> {
    if change.table != name then None
    else match change
      case AddColumn(_, n, c) => if n in t.columns then None else Some(Put(t, c.(name := n)))
      case DropColumn(_, n) =>
        if n in t.columns then Some(Table(Keep(t.order, {n}, false), t.columns - {n})) else None
      case AlterColumn(_, n, c) =>
        if n in t.columns then Some(t.(columns := t.columns[n := t.columns[n].(typ := c.typ)])) else None
  }

  /** `apply`, when the statements on the columns in `bad` fail for outside reasons. */
  function ApplyTo(name: string, t: Table, changes: seq<Change>, bad: set<string>): Table {
    if changes == [] then t
    else
      var before := ApplyTo(name, t, changes[..|changes| - 1], bad);
      var last := changes[|changes| - 1];
      if last.column in bad then before else Exec(name, before, last).GetOr(before)
  }

  /** No statement fails for any other reason. */
  ghost predicate AllLegal(name: string, t: Table, changes: seq<Change>, bad: set<string>) {
    changes != [] ==>
      AllLegal(name, t, changes[..|changes| - 1], bad) &&
      var last := changes[|changes| - 1];
      last.column in bad || Exec(name, ApplyTo(name, t, changes[..|changes| - 1], bad), last).Some?
  }

  function Failed(changes: seq<Change>, bad: set<string>): seq<Change> {
    if changes == [] then []
    else
      var last := changes[|changes| - 1];
      Failed(changes[..|changes| - 1], bad) + if last.column in bad then [last] else []
  }

  lemma {:induction false} ApplyConcat(name: string, t: Table, first: seq<Change>, second: seq<Change>,
                                         bad: set<string>)
    ensures ApplyTo(name, t, first + second, bad) == ApplyTo(name, ApplyTo(name, t, first, bad), second, bad)
    ensures AllLegal(name, t, first, bad) && AllLegal(name, ApplyTo(name, t, first, bad), second, bad) ==>
      AllLegal(name, t, first + second, bad)
    decreases |second|
  {
    if second == [] {
      assert first + second == first;
    } else {
      hide Exec;
      assert (first + second)[..|first + second| - 1] == first + second[..|second| - 1];
      ApplyConcat(name, t, first, second[..|second| - 1], bad);
    }
  }

  lemma {:induction false} FailedConcat(first: seq<Change>, second: seq<Change>, bad: set<string>)
    ensures Failed(first + second, bad) == Failed(first, bad) + Failed(second, bad)
    decreases |second|
  {
    if second == [] {
      assert first + second == first;
    } else {
      assert (first + second)[..|first + second| - 1] == first + second[..|second| - 1];
      FailedConcat(first, second[..|second| - 1], bad);
    }
  }

  // ------------------------------------------------------------------
  // The three phases
  // ------------------------------------------------------------------

  function Definitions(names: set<string>, target: Table): map<string, Column>
    requires names <= target.columns.Keys
  {
    map n | n in names :: target.columns[n].(name := n)
  }

  function WithAdded(t: Table, names: seq<string>, target: Table, bad: set<string>): Table
    requires Elements(names) <= target.columns.Keys
  {
    Table(t.order + Keep(names, bad, false), t.columns + Definitions(Elements(names) - bad, target))
  }

  function WithDropped(t: Table, names: set<string>): Table {
    Table(Keep(t.order, names, false), t.columns - names)
  }

  function WithAltered(t: Table, names: set<string>, target: Table): Table
    requires names <= target.columns.Keys
  {
    t.(columns := map n | n in t.columns ::
                    if n in names then t.columns[n].(typ := target.columns[n].typ) else t.columns[n])
  }

  lemma ApplySnoc(name: string, t: Table, changes: seq<Change>, last: Change, bad: set<string>)
    ensures var before := ApplyTo(name, t, changes, bad);
            ApplyTo(name, t, changes + [last], bad)
            == (if last.column in bad then before else Exec(name, before, last).GetOr(before)) &&
            (AllLegal(name, t, changes + [last], bad)
             <==> AllLegal(name, t, changes, bad) && (last.column in bad || Exec(name, before, last).Some?))
  {
    hide Exec;
    assert (changes + [last])[..|changes|] == changes;
  }

  lemma KeepSnoc(names: seq<string>, n: string, s: set<string>, inside: bool)
    ensures Keep(names + [n], s, inside)
         == if (n in s) == inside then Keep(names, s, inside) + [n] else Keep(names, s, inside)
    ensures Elements(names + [n]) == Elements(names) + {n}
  {
    assert (names + [n])[..|names|] == names;
  }

  /** The facts about a list of distinct names that each phase needs to take off its last. */
  lemma SplitLast(kind: Kind, name: string, names: seq<string>, target: Table)
    requires names != [] && Distinct(names) && Defined(kind, names, target)
    ensures var init, n := names[..|names| - 1], names[|names| - 1];
            names == init + [n] && Elements(names) == Elements(init) + {n} && n !in Elements(init) &&
            Distinct(init) && Defined(kind, init, target) && (kind != Drop ==> n in target.columns) &&
            MakeAll(kind, name, names, target) == MakeAll(kind, name, init, target) + [Make(kind, name, n, target)]
  {
    KeepSnoc(names[..|names| - 1], names[|names| - 1], {}, true);
    assert names == names[..|names| - 1] + [names[|names| - 1]];
  }

  lemma OneMoreDefinition(columns: map<string, Column>, names: set<string>, n: string, target: Table)
    requires names + {n} <= target.columns.Keys && n !in names
    ensures columns + Definitions(names + {n}, target)
         == (columns + Definitions(names, target))[n := target.columns[n].(name := n)]
  {
    assert Definitions(names + {n}, target) == Definitions(names, target)[n := target.columns[n].(name := n)];
  }

  lemma AddStep(name: string, t: Table, init: seq<string>, n: string, target: Table, bad: set<string>)
    requires Elements(init) + {n} <= target.columns.Keys && n !in Elements(init) && n !in t.columns
    ensures Elements(init + [n]) <= target.columns.Keys
    ensures var before, after := WithAdded(t, init, target, bad), WithAdded(t, init + [n], target, bad);
            if n in bad then after == before else Exec(name, before, Make(Add, name, n, target)) == Some(after)
  {
    KeepSnoc(init, n, bad, false);
    hide Keep, Elements;
    if n in bad {
      assert Elements(init) + {n} - bad == Elements(init) - bad;
      assert Keep(init, bad, false) + [] == Keep(init, bad, false);
    } else {
      assert Elements(init) + {n} - bad == Elements(init) - bad + {n};
      OneMoreDefinition(t.columns, Elements(init) - bad, n, target);
      assert n !in WithAdded(t, init, target, bad).columns;
      assert t.order + (Keep(init, bad, false) + [n]) == t.order + Keep(init, bad, false) + [n];
    }
  }

  lemma {:induction false} AddPhase(name: string, t: Table, names: seq<string>, target: Table, bad: set<string>)
    requires Distinct(names) && Defined(Add, names, target) && Elements(names) !! t.columns.Keys
    ensures var changes := MakeAll(Add, name, names, target);
            ApplyTo(name, t, changes, bad) == WithAdded(t, names, target, bad) && AllLegal(name, t, changes, bad)
    decreases |names|
  {
    if names == [] {
      assert Definitions(Elements(names) - bad, target) == map[];
    } else {
      SplitLast(Add, name, names, target);
      var init, n := names[..|names| - 1], names[|names| - 1];
      hide MakeAll, AllLegal, ApplyTo, WithAdded, Exec, Distinct, Elements, Make;
      AddPhase(name, t, init, target, bad);
      AddStep(name, t, init, n, target, bad);
      ApplySnoc(name, t, MakeAll(Add, name, init, target), Make(Add, name, n, target), bad);
      MadeColumn(Add, name, n, target);
    }
  }

  lemma MadeColumn(kind: Kind, name: string, n: string, target: Table)
    requires kind != Drop ==> n in target.columns
    ensures Make(kind, name, n, target).column == n
  {
  }

  lemma {:induction false} KeepTwice(names: seq<string>, s: set<string>, r: set<string>)
    ensures Keep(Keep(names, s, false), r, false) == Keep(names, s + r, false)
    decreases |names|
  {
    if names != [] {
      KeepTwice(names[..|names| - 1], s, r);
      var kept, last := Keep(names[..|names| - 1], s, false), names[|names| - 1];
      KeepSnoc(kept, last, r, false);
      assert kept + [] == kept;
    }
  }

  lemma DropStep(name: string, t: Table, names: set<string>, n: string, target: Table, bad: set<string>)
    requires n in t.columns && n !in names
    ensures var before, after := WithDropped(t, names - bad), WithDropped(t, names + {n} - bad);
            if n in bad then after == before else Exec(name, before, Make(Drop, name, n, target)) == Some(after)
  {
    KeepTwice(t.order, names - bad, {n});
    hide Keep;
    if n in bad {
      assert names + {n} - bad == names - bad;
    } else {
      assert names + {n} - bad == names - bad + {n};
      assert t.columns - (names - bad) - {n} == t.columns - (names - bad + {n});
    }
  }

  lemma {:induction false} DropPhase(name: string, t: Table, names: seq<string>, target: Table, bad: set<string>)
    requires Distinct(names) && Elements(names) <= t.columns.Keys
    ensures var changes := MakeAll(Drop, name, names, target);
            ApplyTo(name, t, changes, bad) == WithDropped(t, Elements(names) - bad) && AllLegal(name, t, changes, bad)
    decreases |names|
  {
    if names == [] {
      KeepNone(t.order);
      assert Elements(names) - bad == {} && t.columns - {} == t.columns;
    } else {
      SplitLast(Drop, name, names, target);
      var init, n := names[..|names| - 1], names[|names| - 1];
      hide MakeAll, AllLegal, ApplyTo, WithDropped, Exec, Distinct, Elements, Make;
      DropPhase(name, t, init, target, bad);
      DropStep(name, t, Elements(init), n, target, bad);
      ApplySnoc(name, t, MakeAll(Drop, name, init, target), Make(Drop, name, n, target), bad);
      MadeColumn(Drop, name, n, target);
    }
  }

  lemma AlterStep(name: string, t: Table, names: set<string>, n: string, target: Table, bad: set<string>)
    requires n in t.columns && n !in names && names + {n} <= target.columns.Keys
    ensures var before, after := WithAltered(t, names - bad, target), WithAltered(t, names + {n} - bad, target);
            if n in bad then after == before else Exec(name, before, Make(Alter, name, n, target)) == Some(after)
  {
    var before, after := WithAltered(t, names - bad, target), WithAltered(t, names + {n} - bad, target);
    if n in bad {
      assert names + {n} - bad == names - bad;
    } else {
      assert after.columns == before.columns[n := before.columns[n].(typ := target.columns[n].typ)];
    }
  }

  lemma {:induction false} AlterPhase(name: string, t: Table, names: seq<string>, target: Table, bad: set<string>)
    requires Distinct(names) && Defined(Alter, names, target) && Elements(names) <= t.columns.Keys
    ensures var changes := MakeAll(Alter, name, names, target);
            ApplyTo(name, t, changes, bad) == WithAltered(t, Elements(names) - bad, target) &&
            AllLegal(name, t, changes, bad)
    decreases |names|
  {
    if names == [] {
      assert Elements(names) - bad == {} && WithAltered(t, {}, target) == t;
    } else {
      SplitLast(Alter, name, names, target);
      var init, n := names[..|names| - 1], names[|names| - 1];
      hide MakeAll, AllLegal, ApplyTo, WithAltered, Exec, Distinct, Elements, Make;
      AlterPhase(name, t, init, target, bad);
      AlterStep(name, t, Elements(init), n, target, bad);
      ApplySnoc(name, t, MakeAll(Alter, name, init, target), Make(Alter, name, n, target), bad);
      MadeColumn(Alter, name, n, target);
    }
  }

  // ------------------------------------------------------------------
  // Applying the diff
  // ------------------------------------------------------------------

  /** The live table after applying the diff, in terms of which statements failed. */
  function Evolved(current: Table, target: Table, bad: set<string>): Table {
    WithAltered(
      WithDropped(WithAdded(current, AddNames(current, target), target, bad), Gone(current, target) - bad),
      Changed(current, target) - bad, target)
  }

  lemma NamesOfKept(names: seq<string>, s: set<string>)
    requires forall n :: n in s ==> n in names
    ensures Elements(Keep(names, s, true)) == s
  {
    KeepMembers(names, s, true);
  }

  lemma ApplyDiff(name: string, current: Table, target: Table, bad: set<string>)
    requires Valid(current) && Valid(target)
    ensures var changes := Diff(name, current, name, target);
            ApplyTo(name, current, changes, bad) == Evolved(current, target, bad) &&
            AllLegal(name, current, changes, bad)
  {
    var adds, drops, alters := AddNames(current, target), DropNames(current, target), AlterNames(current, target);
    KeepMembers(target.order, Added(current, target), true);
    KeepMembers(current.order, Gone(current, target), true);
    KeepMembers(current.order, Changed(current, target), true);
    NamesOfKept(target.order, Added(current, target));
    NamesOfKept(current.order, Gone(current, target));
    NamesOfKept(current.order, Changed(current, target));
    hide Keep, MakeAll, AllLegal, ApplyTo, Distinct, Elements;
    var t1 := WithAdded(current, adds, target, bad);
    AddPhase(name, current, adds, target, bad);
    DropPhase(name, t1, drops, target, bad);
    var t2 := WithDropped(t1, Gone(current, target) - bad);
    AlterPhase(name, t2, alters, target, bad);
    hide WithAdded, WithDropped, WithAltered;
    var a, d, l := MakeAll(Add, name, adds, target), MakeAll(Drop, name, drops, target),
      MakeAll(Alter, name, alters, target);
    ApplyConcat(name, current, a, d, bad);
    ApplyConcat(name, current, a + d, l, bad);
  }

  // ------------------------------------------------------------------
  // Diffing again
  // ------------------------------------------------------------------

  lemma {:induction false} KeepConcat(a: seq<string>, b: seq<string>, s: set<string>, inside: bool)
    ensures Keep(a + b, s, inside) == Keep(a, s, inside) + Keep(b, s, inside)
    decreases |b|
  {
    if b == [] {
      assert a + b == a;
    } else {
      assert (a + b)[..|a + b| - 1] == a + b[..|b| - 1];
      KeepConcat(a, b[..|b| - 1], s, inside);
    }
  }

  /** Keeping what lies in `s` after taking out `gone`, which is disjoint from it. */
  lemma {:induction false} KeepAfterRemoval(names: seq<string>, gone: set<string>, s: set<string>)
    requires gone !! s
    ensures Keep(Keep(names, gone, false), s, true) == Keep(names, s, true)
    decreases |names|
  {
    if names != [] {
      KeepAfterRemoval(names[..|names| - 1], gone, s);
      var kept, last := Keep(names[..|names| - 1], gone, false), names[|names| - 1];
      KeepSnoc(kept, last, s, true);
      assert kept + [] == kept;
    }
  }

  lemma {:induction false} KeepNothing(names: seq<string>, s: set<string>)
    requires Elements(names) !! s
    ensures Keep(names, s, true) == []
    decreases |names|
  {
    if names != [] {
      var init, n := names[..|names| - 1], names[|names| - 1];
      KeepSnoc(init, n, s, true);
      assert names == init + [n];
      KeepNothing(init, s);
    }
  }

  lemma {:induction false} KeepBoth(names: seq<string>, s: set<string>, r: set<string>)
    ensures Keep(Keep(names, s, true), r, true) == Keep(names, s * r, true)
    decreases |names|
  {
    if names != [] {
      KeepBoth(names[..|names| - 1], s, r);
      var kept, last := Keep(names[..|names| - 1], s, true), names[|names| - 1];
      KeepSnoc(kept, last, r, true);
      assert kept + [] == kept;
    }
  }

  lemma {:induction false} FailedMakeAll(kind: Kind, name: string, names: seq<string>, target: Table, bad: set<string>)
    requires Defined(kind, names, target)
    ensures Defined(kind, Keep(names, bad, true), target)
    ensures Failed(MakeAll(kind, name, names, target), bad) == MakeAll(kind, name, Keep(names, bad, true), target)
    decreases |names|
  {
    KeepMembers(names, bad, true);
    if names != [] {
      var init, n := names[..|names| - 1], names[|names| - 1];
      assert names == init + [n] && n in names;
      FailedMakeAll(kind, name, init, target, bad);
      hide Keep, MakeAll, Failed;
      MakeSnoc(kind, name, init, n, target);
      FailedSnoc(MakeAll(kind, name, init, target), Make(kind, name, n, target), bad);
      MadeColumn(kind, name, n, target);
      KeepSnoc(init, n, bad, true);
      if n in bad {
        MakeSnoc(kind, name, Keep(init, bad, true), n, target);
      }
    }
  }

  /** The failed changes of one kind are those on the bad names. */
  lemma FailedOfOneKind(kind: Kind, name: string, order: seq<string>, s: set<string>, target: Table, bad: set<string>)
    requires kind != Drop ==> s <= target.columns.Keys
    ensures Defined(kind, Keep(order, s, true), target) && Defined(kind, Keep(order, s * bad, true), target)
    ensures Failed(MakeAll(kind, name, Keep(order, s, true), target), bad)
         == MakeAll(kind, name, Keep(order, s * bad, true), target)
  {
    KeepMembers(order, s, true);
    KeepMembers(order, s * bad, true);
    hide Keep, MakeAll, Failed;
    KeepBoth(order, s, bad);
    FailedMakeAll(kind, name, Keep(order, s, true), target, bad);
  }

  lemma MakeSnoc(kind: Kind, name: string, names: seq<string>, n: string, target: Table)
    requires Defined(kind, names, target) && (kind != Drop ==> n in target.columns)
    ensures Defined(kind, names + [n], target)
    ensures MakeAll(kind, name, names + [n], target)
         == MakeAll(kind, name, names, target) + [Make(kind, name, n, target)]
  {
    assert (names + [n])[..|names|] == names;
  }

  lemma FailedSnoc(changes: seq<Change>, last: Change, bad: set<string>)
    ensures Failed(changes + [last], bad)
         == if last.column in bad then Failed(changes, bad) + [last] else Failed(changes, bad)
  {
    assert (changes + [last])[..|changes|] == changes;
  }

  lemma KeysOfPhases(t: Table, names: seq<string>, target: Table, bad: set<string>, gone: set<string>,
                     altered: set<string>)
    requires Elements(names) <= target.columns.Keys && altered <= target.columns.Keys
    ensures WithAdded(t, names, target, bad).columns.Keys == t.columns.Keys + (Elements(names) - bad)
    ensures WithDropped(t, gone).columns.Keys == t.columns.Keys - gone
    ensures WithAltered(t, altered, target).columns.Keys == t.columns.Keys
  {
    hide Keep, Elements;
  }

  lemma EvolvedKeys(current: Table, target: Table, bad: set<string>)
    requires Valid(target)
    ensures Evolved(current, target, bad).columns.Keys
         == current.columns.Keys + (Added(current, target) - bad) - (Gone(current, target) - bad)
  {
    NamesOfKept(target.order, Added(current, target));
    hide Keep, Elements, Distinct, WithAdded, WithDropped, WithAltered;
    var names := AddNames(current, target);
    var gone, altered := Gone(current, target) - bad, Changed(current, target) - bad;
    var added := WithAdded(current, names, target, bad);
    KeysOfPhases(current, names, target, bad, gone, altered);
    KeysOfPhases(added, names, target, bad, gone, altered);
    KeysOfPhases(WithDropped(added, gone), names, target, bad, gone, altered);
  }

  lemma EvolvedType(current: Table, target: Table, bad: set<string>, n: string)
    requires Valid(target) && n in Evolved(current, target, bad).columns && n in target.columns
    ensures Evolved(current, target, bad).columns[n].typ
         == if n in current.columns && n !in Changed(current, target) - bad
            then current.columns[n].typ else target.columns[n].typ
  {
    NamesOfKept(target.order, Added(current, target));
    hide Keep, Elements, Distinct, AddNames;
    var t1 := WithAdded(current, AddNames(current, target), target, bad);
    assert n in t1.columns;
    assert n in current.columns ==> n !in Added(current, target) && t1.columns[n] == current.columns[n];
  }

  /** What remains to be added, dropped and altered in the evolved table. */
  lemma Remaining(current: Table, target: Table, bad: set<string>)
    requires Valid(current) && Valid(target)
    ensures var t := Evolved(current, target, bad);
            Added(t, target) == Added(current, target) * bad &&
            Gone(t, target) == Gone(current, target) * bad &&
            Changed(t, target) == Changed(current, target) * bad
  {
    EvolvedKeys(current, target, bad);
    hide Evolved, Valid;
    var t := Evolved(current, target, bad);
    forall n ensures n in Changed(t, target) <==> n in Changed(current, target) * bad {
      if n in t.columns && n in target.columns {
        EvolvedType(current, target, bad, n);
      }
    }
  }

  /** The order of the evolved table's columns, as far as drops and alterations see it. */
  lemma RemainingOrder(current: Table, target: Table, bad: set<string>, s: set<string>)
    requires Valid(current) && Valid(target)
    requires s <= current.columns.Keys && s !! (Gone(current, target) - bad)
    ensures Keep(Evolved(current, target, bad).order, s, true) == Keep(current.order, s, true)
  {
    var adds := AddNames(current, target);
    KeepMembers(target.order, Added(current, target), true);
    KeepMembers(adds, bad, false);
    hide Distinct;
    var fresh' := Keep(adds, bad, false);
    KeepAfterRemoval(current.order + fresh', Gone(current, target) - bad, s);
    KeepConcat(current.order, fresh', s, true);
    assert Elements(fresh') !! s;
    KeepNothing(fresh', s);
  }

  /** Apply the diff while any of its statements fail, and diff again: what comes out is
      exactly the failed statements, in the same order, so that retrying converges. */
  lemma DiffAgainIsWhatFailed(name: string, current: Table, target: Table, bad: set<string>)
    requires Valid(current) && Valid(target)
    ensures var changes := Diff(name, current, name, target);
            Diff(name, ApplyTo(name, current, changes, bad), name, target) == Failed(changes, bad)
  {
    ApplyDiff(name, current, target, bad);
    Remaining(current, target, bad);
    var adds, drops, alters := AddNames(current, target), DropNames(current, target), AlterNames(current, target);
    RemainingOrder(current, target, bad, Gone(current, target) * bad);
    RemainingOrder(current, target, bad, Changed(current, target) * bad);
    FailedOfOneKind(Add, name, target.order, Added(current, target), target, bad);
    FailedOfOneKind(Drop, name, current.order, Gone(current, target), target, bad);
    FailedOfOneKind(Alter, name, current.order, Changed(current, target), target, bad);
    hide Keep, MakeAll, Failed, ApplyTo, Evolved, Distinct, Added, Gone, Changed;
    var a, d, l := MakeAll(Add, name, adds, target), MakeAll(Drop, name, drops, target),
      MakeAll(Alter, name, alters, target);
    FailedConcat(a, d, bad);
    FailedConcat(a + d, l, bad);
  }

  lemma PutKeepsValid(t: Table, c: Column)
    requires Valid(t)
    ensures Valid(Put(t, c))
  {
  }

  lemma ExecKeepsValid(name: string, t: Table, change: Change)
    requires Valid(t) && Exec(name, t, change).Some?
    ensures Valid(Exec(name, t, change).value)
  {
    match change
    case AddColumn(_, n, c) => PutKeepsValid(t, c.(name := n));
    case DropColumn(_, n) => KeepMembers(t.order, {n}, false);
    case AlterColumn(_, _, _) =>
  }

  lemma {:induction false} ApplyKeepsValid(name: string, t: Table, changes: seq<Change>, bad: set<string>)
    requires Valid(t)
    ensures Valid(ApplyTo(name, t, changes, bad))
    decreases |changes|
  {
    if changes != [] {
      hide Valid, Exec;
      var init, last := changes[..|changes| - 1], changes[|changes| - 1];
      ApplyKeepsValid(name, t, init, bad);
      if Exec(name, ApplyTo(name, t, init, bad), last).Some? {
        ExecKeepsValid(name, ApplyTo(name, t, init, bad), last);
      }
    }
  }

  /** The live table after rounds of diffing and applying; each round has its own failures. */
  function Rounds(name: string, live: Table, target: Table, bads: seq<set<string>>): Table {
    if bads == [] then live
    else
      var before := Rounds(name, live, target, bads[..|bads| - 1]);
      ApplyTo(name, before, Diff(name, before, name, target), bads[|bads| - 1])
  }

  /** The changes that failed in every round. */
  function FailedEveryTime(changes: seq<Change>, bads: seq<set<string>>): seq<Change> {
    if bads == [] then changes
    else Failed(FailedEveryTime(changes, bads[..|bads| - 1]), bads[|bads| - 1])
  }

  lemma {:induction false} FailedMembers(changes: seq<Change>, bad: set<string>)
    ensures forall c :: c in Failed(changes, bad) <==> c in changes && c.column in bad
    decreases |changes|
  {
    if changes != [] {
      FailedMembers(changes[..|changes| - 1], bad);
      assert changes == changes[..|changes| - 1] + [changes[|changes| - 1]];
    }
  }

  lemma {:induction false} FailedEveryTimeMembers(changes: seq<Change>, bads: seq<set<string>>)
    ensures forall c :: c in FailedEveryTime(changes, bads)
                   <==> c in changes && forall k :: 0 <= k < |bads| ==> c.column in bads[k]
    decreases |bads|
  {
    if bads != [] {
      var init, last := bads[..|bads| - 1], bads[|bads| - 1];
      FailedEveryTimeMembers(changes, init);
      FailedMembers(FailedEveryTime(changes, init), last);
      hide Failed;
      forall c ensures c in FailedEveryTime(changes, bads)
                  <==> c in changes && forall k :: 0 <= k < |bads| ==> c.column in bads[k] {
        assert (forall k :: 0 <= k < |bads| ==> c.column in bads[k]) <==>
               (forall k :: 0 <= k < |init| ==> c.column in init[k]) && c.column in last by {
          assert forall k :: 0 <= k < |init| ==> init[k] == bads[k];
          assert last == bads[|init|];
        }
      }
    }
  }

  /** Retrying converges: after any rounds of diffing and applying, what is left is exactly the
      changes of the first diff that failed in every round, in their order. */
  lemma {:induction false} RoundsLeaveWhatAlwaysFailed(name: string, live: Table, target: Table,
                                                       bads: seq<set<string>>)
    requires Valid(live) && Valid(target)
    ensures var t := Rounds(name, live, target, bads);
            Valid(t) && Diff(name, t, name, target) == FailedEveryTime(Diff(name, live, name, target), bads)
    decreases |bads|
  {
    if bads != [] {
      hide Valid, Diff, ApplyTo, Failed;
      var init, last := bads[..|bads| - 1], bads[|bads| - 1];
      RoundsLeaveWhatAlwaysFailed(name, live, target, init);
      var before := Rounds(name, live, target, init);
      ApplyKeepsValid(name, before, Diff(name, before, name, target), last);
      DiffAgainIsWhatFailed(name, before, target, last);
    }
  }

  /** The live table agrees with the target exactly when every change has succeeded in some
      round. */
  lemma RoundsReachTheTargetExactlyWhen(name: string, live: Table, target: Table, bads: seq<set<string>>)
    requires Valid(live) && Valid(target)
    ensures Agree(Rounds(name, live, target, bads), target)
       <==> forall c :: c in Diff(name, live, name, target) ==> exists k :: 0 <= k < |bads| && c.column !in bads[k]
  {
    RoundsLeaveWhatAlwaysFailed(name, live, target, bads);
    FailedEveryTimeMembers(Diff(name, live, name, target), bads);
    DiffIsEmptyExactlyWhen(name, Rounds(name, live, target, bads), name, target);
    hide Diff, Agree, Rounds, FailedEveryTime, Valid;
    var left := FailedEveryTime(Diff(name, live, name, target), bads);
    if left != [] {
      assert left[0] in left;
    }
  }

  /** Every statement of the diff is legal at its turn, whichever others fail; if none
      fails, the live table ends with exactly the target's columns and types. */
  lemma DiffReachesTheTarget(name: string, current: Table, target: Table)
    requires Valid(current) && Valid(target)
    ensures var changes := Diff(name, current, name, target);
            (forall bad :: AllLegal(name, current, changes, bad)) &&
            Agree(ApplyTo(name, current, changes, {}), target)
  {
    var changes := Diff(name, current, name, target);
    hide Valid;
    forall bad ensures AllLegal(name, current, changes, bad) {
      ApplyDiff(name, current, target, bad);
    }
    ApplyDiff(name, current, target, {});
    Remaining(current, target, {});
    hide Evolved, ApplyTo, AllLegal, Diff, Added, Gone, Changed, Agree;
    AgreeExactlyWhen(Evolved(current, target, {}), target);
  }

  ghost predicate ColumnsAre(changes: seq<Change>, names: seq<string>) {
    |changes| == |names| && forall i :: 0 <= i < |names| ==> changes[i].column == names[i]
  }

  lemma ColumnsJoin(a: seq<Change>, aNames: seq<string>, b: seq<Change>, bNames: seq<string>)
    requires ColumnsAre(a, aNames) && ColumnsAre(b, bNames)
    ensures ColumnsAre(a + b, aNames + bNames)
  {
  }

  lemma DistinctJoin(a: seq<string>, b: seq<string>)
    requires Distinct(a) && Distinct(b) && Elements(a) !! Elements(b)
    ensures Distinct(a + b) && Elements(a + b) == Elements(a) + Elements(b)
  {
    forall i, j | 0 <= i < j < |a + b| ensures (a + b)[i] != (a + b)[j] {
      if i < |a| <= j {
        assert a[i] in Elements(a) && b[j - |a|] in Elements(b);
      }
    }
  }

  lemma KeptNames(names: seq<string>, s: set<string>)
    requires Distinct(names) && forall n :: n in s ==> n in names
    ensures Distinct(Keep(names, s, true)) && Elements(Keep(names, s, true)) == s
  {
    KeepMembers(names, s, true);
    NamesOfKept(names, s);
  }

  /** The columns that the diff changes are distinct, so that naming the columns whose
      statements fail describes every pattern of failures. */
  lemma DiffNamesEachColumnOnce(name: string, current: Table, target: Table)
    requires Valid(current) && Valid(target)
    ensures var changes := Diff(name, current, name, target);
            forall i, j :: 0 <= i < j < |changes| ==> changes[i].column != changes[j].column
  {
    var adds, drops, alters := AddNames(current, target), DropNames(current, target), AlterNames(current, target);
    KeptNames(target.order, Added(current, target));
    KeptNames(current.order, Gone(current, target));
    KeptNames(current.order, Changed(current, target));
    MakeAllColumns(Add, name, adds, target);
    MakeAllColumns(Drop, name, drops, target);
    MakeAllColumns(Alter, name, alters, target);
    hide Keep, MakeAll, Distinct, Elements;
    var a, d, l := MakeAll(Add, name, adds, target), MakeAll(Drop, name, drops, target),
      MakeAll(Alter, name, alters, target);
    ColumnsJoin(a, adds, d, drops);
    ColumnsJoin(a + d, adds + drops, l, alters);
    DistinctJoin(adds, drops);
    DistinctJoin(adds + drops, alters);
    var changes := Diff(name, current, name, target);
    hide *;
    DistinctColumns(changes, adds + drops + alters);
  }

  lemma DistinctColumns(changes: seq<Change>, names: seq<string>)
    requires ColumnsAre(changes, names) && Distinct(names)
    ensures forall i, j :: 0 <= i < j < |changes| ==> changes[i].column != changes[j].column
  {
    assert forall i, j :: 0 <= i < j < |names| ==> names[i] != names[j];
  }

  // ------------------------------------------------------------------
  // The manager's operations
  // ------------------------------------------------------------------

  method ToMap(columns: seq<Column>) returns (t: Table)
    ensures t == FromColumns(columns) && Valid(t)
  {
    t := Table([], map[]);
    for i := 0 to |columns|
      invariant t == FromColumns(columns[..i])
    {
      assert columns[..i + 1][..i] == columns[..i];
      t := Put(t, columns[i]);
    }
    assert columns[..|columns|] == columns;
    FromColumnsIsValid(columns);
  }

  lemma MembersOfTheDiff(current: Table, target: Table, n: string)
    ensures n in Added(current, target) <==> n in target.columns && n !in current.columns
    ensures n in Gone(current, target) <==> n in current.columns && n !in target.columns
    ensures n in Changed(current, target)
       <==> n in current.columns && n in target.columns && target.columns[n].typ != current.columns[n].typ
  {
  }

  /** The changes of one kind on the names in the set, in order. */
  function KeptChanges(kind: Kind, name: string, names: seq<string>, s: set<string>, target: Table): seq<Change>
    requires kind != Drop ==> s <= target.columns.Keys
  {
    KeepMembers(names, s, true);
    MakeAll(kind, name, Keep(names, s, true), target)
  }

  lemma KeptChangesSnoc(kind: Kind, name: string, names: seq<string>, n: string, s: set<string>, target: Table)
    requires kind != Drop ==> s <= target.columns.Keys
    ensures KeptChanges(kind, name, names + [n], s, target)
         == if n in s then KeptChanges(kind, name, names, s, target) + [Make(kind, name, n, target)]
            else KeptChanges(kind, name, names, s, target)
  {
    KeepMembers(names, s, true);
    hide Keep, MakeAll;
    KeepSnoc(names, n, s, true);
    if n in s {
      MakeSnoc(kind, name, Keep(names, s, true), n, target);
    }
  }

  lemma KeptChangesOfNone(kind: Kind, name: string, s: set<string>, target: Table)
    requires kind != Drop ==> s <= target.columns.Keys
    ensures KeptChanges(kind, name, [], s, target) == []
  {
  }

  lemma MakeAllIsKept(kind: Kind, name: string, current: Table, target: Table)
    ensures match kind
            case Add => MakeAll(Add, name, AddNames(current, target), target)
                        == KeptChanges(Add, name, target.order, Added(current, target), target)
            case Drop => MakeAll(Drop, name, DropNames(current, target), target)
                         == KeptChanges(Drop, name, current.order, Gone(current, target), target)
            case Alter => MakeAll(Alter, name, AlterNames(current, target), target)
                          == KeptChanges(Alter, name, current.order, Changed(current, target), target)
  {
  }

  lemma DiffIsDefined(current: Table, target: Table)
    ensures Added(current, target) <= target.columns.Keys && Changed(current, target) <= target.columns.Keys
  {
  }

  lemma ListedIsThere(t: Table, i: nat)
    requires Valid(t) && i < |t.order|
    ensures t.order[i] in t.columns
  {
    assert t.order[i] in t.order;
  }

  lemma OneMoreTarget(to: string, current: Table, target: Table, i: nat)
    requires Valid(target) && i < |target.order|
    requires Added(current, target) <= target.columns.Keys && Changed(current, target) <= target.columns.Keys
    ensures var name := target.order[i];
            var before := KeptChanges(Add, to, target.order[..i], Added(current, target), target);
            name in target.columns &&
            KeptChanges(Add, to, target.order[..i + 1], Added(current, target), target)
            == if name !in current.columns then before + [AddColumn(to, name, target.columns[name])] else before
  {
    var name := target.order[i];
    ListedIsThere(target, i);
    MembersOfTheDiff(current, target, name);
    KeptChangesSnoc(Add, to, target.order[..i], name, Added(current, target), target);
    assert target.order[..i + 1] == target.order[..i] + [name];
    hide KeptChanges, Valid, Added, Gone, Changed;
  }

  /** The loop over the target's columns. */
  method CollectAdds(to: string, current: Table, target: Table) returns (changes: seq<Change>)
    requires Valid(target)
    ensures changes == MakeAll(Add, to, AddNames(current, target), target)
  {
    changes := [];
    DiffIsDefined(current, target);
    KeptChangesOfNone(Add, to, Added(current, target), target);
    MakeAllIsKept(Add, to, current, target);
    hide *;
    for i := 0 to |target.order|
      invariant changes == KeptChanges(Add, to, target.order[..i], Added(current, target), target)
    {
      var name := target.order[i];
      OneMoreTarget(to, current, target, i);
      if name !in current.columns {
        changes := changes + [AddColumn(to, name, target.columns[name])];
      }
    }
    assert target.order[..|target.order|] == target.order;
  }

  lemma OneMoreToDrop(from: string, current: Table, target: Table, i: nat)
    requires Valid(current) && i < |current.order|
    requires Added(current, target) <= target.columns.Keys && Changed(current, target) <= target.columns.Keys
    ensures var name := current.order[i];
            var before := KeptChanges(Drop, from, current.order[..i], Gone(current, target), target);
            name in current.columns &&
            KeptChanges(Drop, from, current.order[..i + 1], Gone(current, target), target)
            == if name !in target.columns then before + [DropColumn(from, name)] else before
  {
    var name := current.order[i];
    ListedIsThere(current, i);
    MembersOfTheDiff(current, target, name);
    hide KeptChanges, Valid, Added, Gone, Changed;
    KeptChangesSnoc(Drop, from, current.order[..i], name, Gone(current, target), target);
    assert current.order[..i + 1] == current.order[..i] + [name];
  }

  /** The first loop over the current columns. */
  method CollectDrops(from: string, current: Table, target: Table) returns (changes: seq<Change>)
    requires Valid(current)
    ensures changes == MakeAll(Drop, from, DropNames(current, target), target)
  {
    changes := [];
    DiffIsDefined(current, target);
    KeptChangesOfNone(Drop, from, Gone(current, target), target);
    MakeAllIsKept(Drop, from, current, target);
    hide *;
    for i := 0 to |current.order|
      invariant changes == KeptChanges(Drop, from, current.order[..i], Gone(current, target), target)
    {
      var name := current.order[i];
      OneMoreToDrop(from, current, target, i);
      if name !in target.columns {
        changes := changes + [DropColumn(from, name)];
      }
    }
    assert current.order[..|current.order|] == current.order;
  }

  lemma OneMoreToAlter(to: string, current: Table, target: Table, i: nat)
    requires Valid(current) && i < |current.order|
    requires Added(current, target) <= target.columns.Keys && Changed(current, target) <= target.columns.Keys
    ensures var name := current.order[i];
            var before := KeptChanges(Alter, to, current.order[..i], Changed(current, target), target);
            name in current.columns &&
            KeptChanges(Alter, to, current.order[..i + 1], Changed(current, target), target)
            == if name in target.columns && target.columns[name].typ != current.columns[name].typ
               then before + [AlterColumn(to, name, target.columns[name])] else before
  {
    var name := current.order[i];
    ListedIsThere(current, i);
    MembersOfTheDiff(current, target, name);
    KeptChangesSnoc(Alter, to, current.order[..i], name, Changed(current, target), target);
    assert current.order[..i + 1] == current.order[..i] + [name];
    hide KeptChanges, Valid, Added, Gone, Changed;
  }

  /** The second loop over the current columns. */
  method CollectAlters(to: string, current: Table, target: Table) returns (changes: seq<Change>)
    requires Valid(current)
    ensures changes == MakeAll(Alter, to, AlterNames(current, target), target)
  {
    changes := [];
    DiffIsDefined(current, target);
    KeptChangesOfNone(Alter, to, Changed(current, target), target);
    MakeAllIsKept(Alter, to, current, target);
    hide *;
    for i := 0 to |current.order|
      invariant changes == KeptChanges(Alter, to, current.order[..i], Changed(current, target), target)
    {
      var name := current.order[i];
      OneMoreToAlter(to, current, target, i);
      if name in target.columns && target.columns[name].typ != current.columns[name].typ {
        changes := changes + [AlterColumn(to, name, target.columns[name])];
      }
    }
    assert current.order[..|current.order|] == current.order;
  }

  method GenerateDiff(current: TableSchema, target: TableSchema) returns (changes: seq<Change>)
    ensures changes == Diff(current.tableName, FromColumns(current.columns),
                            target.tableName, FromColumns(target.columns))
  {
    var currentCols := ToMap(current.columns);
    var targetCols := ToMap(target.columns);
    var adds := CollectAdds(target.tableName, currentCols, targetCols);
    var drops := CollectDrops(current.tableName, currentCols, targetCols);
    var alters := CollectAlters(target.tableName, currentCols, targetCols);
    return adds + drops + alters;
  }

  /** Which changes succeed. */
  function Outcomes(name: string, t: Table, changes: seq<Change>, bad: set<string>): seq<bool> {
    if changes == [] then []
    else
      var init, last := changes[..|changes| - 1], changes[|changes| - 1];
      Outcomes(name, t, init, bad) +
      [last.column !in bad && Exec(name, ApplyTo(name, t, init, bad), last).Some?]
  }

  function CountTrue(s: seq<bool>): nat {
    if s == [] then 0 else CountTrue(s[..|s| - 1]) + if s[|s| - 1] then 1 else 0
  }

  lemma OutcomesSnoc(name: string, t: Table, changes: seq<Change>, last: Change, bad: set<string>)
    ensures Outcomes(name, t, changes + [last], bad)
         == Outcomes(name, t, changes, bad) +
            [last.column !in bad && Exec(name, ApplyTo(name, t, changes, bad), last).Some?]
  {
    assert (changes + [last])[..|changes|] == changes;
  }

  lemma CountTrueSnoc(s: seq<bool>, b: bool)
    ensures CountTrue(s + [b]) == CountTrue(s) + if b then 1 else 0
  {
    assert (s + [b])[..|s|] == s;
  }

  /** `apply` against a live table. */
  method Apply(name: string, live: Table, changes: seq<Change>, bad: set<string>)
    returns (t: Table, applied: nat, failed: nat, results: seq<bool>)
    ensures t == ApplyTo(name, live, changes, bad) && results == Outcomes(name, live, changes, bad)
    ensures applied == CountTrue(results) && applied + failed == |changes|
  {
    t, applied, results := live, 0, [];
    hide Exec;
    for i := 0 to |changes|
      invariant t == ApplyTo(name, live, changes[..i], bad)
      invariant results == Outcomes(name, live, changes[..i], bad) && |results| == i
      invariant applied == CountTrue(results) <= i
    {
      var next := if changes[i].column in bad then None else Exec(name, t, changes[i]);
      ApplySnoc(name, live, changes[..i], changes[i], bad);
      OutcomesSnoc(name, live, changes[..i], changes[i], bad);
      CountTrueSnoc(results, next.Some?);
      assert changes[..i + 1] == changes[..i] + [changes[i]];
      hide *;
      results := results + [next.Some?];
      if next.Some? {
        t := next.value;
        applied := applied + 1;
      }
    }
    assert changes[..|changes|] == changes;
    failed := |changes| - applied;
  }

  /** When every statement is legal, exactly those on bad columns fail: successes and
      failures add up to the changes. */
  lemma {:induction false} LegalChangesFailOnlyWhenBad(name: string, t: Table, changes: seq<Change>, bad: set<string>)
    requires AllLegal(name, t, changes, bad)
    ensures CountTrue(Outcomes(name, t, changes, bad)) + |Failed(changes, bad)| == |changes|
    decreases |changes|
  {
    if changes != [] {
      hide Exec;
      var init := changes[..|changes| - 1];
      LegalChangesFailOnlyWhenBad(name, t, init, bad);
      var outcomes := Outcomes(name, t, changes, bad);
      assert outcomes[..|outcomes| - 1] == Outcomes(name, t, init, bad);
    }
  }
}
