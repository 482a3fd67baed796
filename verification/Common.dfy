/** Small vocabulary shared by the modules. */
module Common {

  datatype Option<+T> = None | Some(value: T) {
    function GetOr(default: T): T {
      match this
      case Some(v) => v
      case None => default
    }
  }

  /** A field of a record: a number, or anything else. */
  datatype Value = Number(v: real) | Other

  function Max(a: int, b: int): int {
    if a < b then b else a
  }

  function Min(a: int, b: int): int {
    if a < b then a else b
  }

  function Pow2(n: nat): nat {
    if n == 0 then 1 else 2 * Pow2(n - 1)
  }

  ghost predicate Distinct<T>(s: seq<T>) {
    forall i, j :: 0 <= i < j < |s| ==> s[i] != s[j]
  }

  function Elements<T(==,!new)>(s: seq<T>): (r: set<T>)
    ensures forall x :: x in r <==> x in s
  {
    set i | 0 <= i < |s| :: s[i]
  }

  lemma {:induction false} DistinctSize<T(!new)>(s: seq<T>)
    requires Distinct(s)
    ensures |Elements(s)| == |s|
    decreases |s|
  {
    if s != [] {
      var init, last := s[..|s| - 1], s[|s| - 1];
      DistinctSize(init);
      assert s == init + [last];
      assert Elements(s) == Elements(init) + {last};
      assert last !in Elements(init);
    }
  }

  lemma {:induction false} SubsetSize<T>(small: set<T>, big: set<T>)
    requires small <= big
    ensures |small| <= |big|
    decreases |small|
  {
    if small != {} {
      var x :| x in small;
      SubsetSize(small - {x}, big - {x});
    }
  }

  /** The members that are (or are not) in the set, in order. */
  function Keep<T(==)>(s: seq<T>, these: set<T>, inside: bool): seq<T> {
    if s == [] then []
    else
      var last := s[|s| - 1];
      Keep(s[..|s| - 1], these, inside) + if (last in these) == inside then [last] else []
  }

  lemma {:induction false} KeepMembers<T(!new)>(s: seq<T>, these: set<T>, inside: bool)
    ensures forall x :: x in Keep(s, these, inside) <==> x in s && (x in these) == inside
    ensures Distinct(s) ==> Distinct(Keep(s, these, inside))
    decreases |s|
  {
    if s != [] {
      KeepMembers(s[..|s| - 1], these, inside);
      assert s == s[..|s| - 1] + [s[|s| - 1]];
    }
  }

  function Reversed<T>(s: seq<T>): (r: seq<T>)
    ensures |r| == |s| && forall i :: 0 <= i < |s| ==> r[i] == s[|s| - 1 - i]
  {
    if s == [] then [] else [s[|s| - 1]] + Reversed(s[..|s| - 1])
  }
}
