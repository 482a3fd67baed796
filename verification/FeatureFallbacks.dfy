/** Which hashes the keys of a flag can have, and when a key exists for which
    `assignVariant` finds no variant by weight and falls back to the last one. */
module FeatureFallbacks {
  import opened Common
  import opened FeatureRollouts
  import opened IntegerArithmetic
  import opened RealArithmetic

  // ------------------------------------------------------------------
  // Every hash is reached
  // ------------------------------------------------------------------

  lemma {:induction false} PolynomialOfBoth(a: Text, b: Text)
    ensures Polynomial(a + b) == Polynomial(a) * Pow31(|b|) + Polynomial(b)
    decreases |b|
  {
    if b == [] {
      assert a + b == a;
    } else {
      var init, c := b[..|b| - 1], b[|b| - 1];
      PolynomialOfBoth(a, init);
      assert a + b == (a + init) + [c] && b == init + [c];
      Horner(a + init, c);
      Horner(init, c);
      assert Pow31(|b|) == 31 * Pow31(|init|);
      hide Polynomial, Pow31;
      Shift(Polynomial(a), Pow31(|init|));
    }
  }

  /** The largest polynomial of `n` code units. */
  function Largest(n: nat): nat {
    if n == 0 then 0 else 31 * Largest(n - 1) + 0xFFFF
  }

  lemma LastUnit(v: nat, largest: nat) returns (q: nat, c: CodeUnit)
    requires v <= 31 * largest + 0xFFFF
    ensures v == 31 * q + c && q <= largest
  {
    if v <= 0xFFFF {
      q, c := 0, v;
    } else {
      q := (v - 0xFFFF + 30) / 31;
      c := v - 31 * q;
    }
  }

  /** The texts of `n` code units have every polynomial up to the largest. */
  lemma {:induction false} TextOf(v: nat, n: nat) returns (s: Text)
    requires v <= Largest(n)
    ensures |s| == n && Polynomial(s) == v
    decreases n
  {
    if n == 0 {
      s := [];
    } else {
      var q, c := LastUnit(v, Largest(n - 1));
      hide Largest, Polynomial;
      var init := TextOf(q, n - 1);
      Horner(init, c);
      s := init + [c];
    }
  }

  lemma FiveUnitsSuffice()
    ensures Largest(5) >= MODULUS
  {
    assert Largest(1) == 0xFFFF;
    assert Largest(2) == 31 * 0xFFFF + 0xFFFF;
    assert Largest(3) == 31 * Largest(2) + 0xFFFF;
    assert Largest(4) == 31 * Largest(3) + 0xFFFF;
  }

  lemma RemainderBack(p: int, h: nat)
    requires h < MODULUS
    ensures (p + (h - p) % MODULUS) % MODULUS == h
  {
  }

  /** For every flag and every value of the hash there is a user with that hash. */
  lemma EveryHashIsReached(flagKey: Text, h: nat) returns (user: Text)
    requires h < MODULUS
    ensures Hash(flagKey + COLON + user) == h
  {
    var p := Polynomial(flagKey + COLON) * Pow31(5);
    FiveUnitsSuffice();
    user := TextOf((h - p) % MODULUS, 5);
    PolynomialOfBoth(flagKey + COLON, user);
    RemainderBack(p, h);
  }

  // ------------------------------------------------------------------
  // When the fallback is reached
  // ------------------------------------------------------------------

  function Magnitude(x: int): nat {
    if x < 0 then -x else x
  }

  lemma RemainderOfSigned(a: nat, b: int)
    requires b != 0
    ensures Remainder(a as real, b as real) == (a % Magnitude(b)) as real
  {
    RemainderOfWholeNumbers(a, Magnitude(b));
    assert b < 0 ==> -(b as real) == Magnitude(b) as real;
  }

  lemma {:induction false} NoneAboveExactlyWhen(variants: seq<Variant>, ws: seq<int>, bucket: nat, from: nat)
    requires WholeWeights(variants, ws) && from <= |ws|
    ensures FirstAbove(variants, bucket as real, from).None?
       <==> forall k :: from < k <= |ws| ==> WholePrefix(ws, k) <= bucket
    decreases |ws| - from
  {
    if from < |ws| {
      PrefixIsWhole(variants, ws, from + 1);
      NoneAboveExactlyWhen(variants, ws, bucket, from + 1);
      hide FirstAbove, Prefix, WholePrefix, WholeWeights;
      assert FirstAbove(variants, bucket as real, from).None? <==>
             WholePrefix(ws, from + 1) <= bucket && FirstAbove(variants, bucket as real, from + 1).None? by {
        FirstAboveUnfolds(variants, bucket as real, from);
      }
    }
  }

  lemma FirstAboveUnfolds(variants: seq<Variant>, bucket: real, from: nat)
    requires from < |variants|
    ensures FirstAbove(variants, bucket, from).None?
       <==> !(bucket < Prefix(variants, from + 1)) && FirstAbove(variants, bucket, from + 1).None?
  {
  }

  function HashOf(flagKey: Text, context: Option<Context>): (h: nat)
    ensures h < MODULUS
  {
    Hash(flagKey + COLON + ContextSeed(context, ANONYMOUS))
  }

  lemma Lands(h: nat, m: nat)
    requires m > 0 && h < MODULUS
    ensures h % m < Min(m, MODULUS)
  {
    assert h == m * (h / m) + h % m && m * (h / m) >= 0;
  }

  /** For this flag and context the loop of `assignVariant` finds no variant. */
  predicate FallsThrough(flagKey: Text, variants: seq<Variant>, context: Option<Context>)
    requires variants != [] && TotalWeight(variants) != 0.0
  {
    FirstAbove(variants, Remainder(HashOf(flagKey, context) as real, TotalWeight(variants)), 0).None?
  }

  lemma FallingExactlyWhen(flagKey: Text, variants: seq<Variant>, ws: seq<int>, context: Option<Context>)
    requires variants != [] && WholeWeights(variants, ws) && WholePrefix(ws, |ws|) != 0
    ensures TotalWeight(variants) != 0.0
    ensures FallsThrough(flagKey, variants, context)
       <==> forall k :: 0 <= k <= |ws| ==>
              WholePrefix(ws, k) <= HashOf(flagKey, context) % Magnitude(WholePrefix(ws, |ws|))
  {
    var total := WholePrefix(ws, |ws|);
    PrefixIsWhole(variants, ws, |ws|);
    hide FirstAbove, Prefix, Remainder, WholeWeights, HashOf;
    RemainderOfSigned(HashOf(flagKey, context), total);
    NoneAboveExactlyWhen(variants, ws, HashOf(flagKey, context) % Magnitude(total), 0);
    assert WholePrefix(ws, 0) == 0;
  }

  /** Every cumulative weight stays below the number of buckets that hashes can land in: the
      magnitude of the total, or the modulus if that is smaller. */
  ghost predicate NoneCoversTheBuckets(ws: seq<int>) {
    forall k :: 0 <= k <= |ws| ==> WholePrefix(ws, k) < Min(Magnitude(WholePrefix(ws, |ws|)), MODULUS)
  }

  lemma FallingNeedsUncovered(flagKey: Text, variants: seq<Variant>, ws: seq<int>, context: Option<Context>)
    requires variants != [] && WholeWeights(variants, ws) && WholePrefix(ws, |ws|) != 0
    requires TotalWeight(variants) != 0.0 && FallsThrough(flagKey, variants, context)
    ensures NoneCoversTheBuckets(ws)
  {
    FallingExactlyWhen(flagKey, variants, ws, context);
    Lands(HashOf(flagKey, context), Magnitude(WholePrefix(ws, |ws|)));
  }

  lemma UncoveredFallsThrough(flagKey: Text, variants: seq<Variant>, ws: seq<int>) returns (context: Option<Context>)
    requires variants != [] && WholeWeights(variants, ws) && WholePrefix(ws, |ws|) != 0
    requires TotalWeight(variants) != 0.0 && NoneCoversTheBuckets(ws)
    ensures FallsThrough(flagKey, variants, context)
  {
    var m := Magnitude(WholePrefix(ws, |ws|));
    var h := Min(m, MODULUS) - 1;
    var user := EveryHashIsReached(flagKey, h);
    context := Some(Context(Some(user), None));
    Quotient(h, m, 0, h);
    FallingExactlyWhen(flagKey, variants, ws, context);
  }

  /** With whole weights of any sign, some context of a flag falls through exactly when no
      cumulative weight covers the buckets. */
  lemma FallbackIsReachedExactlyWhen(flagKey: Text, variants: seq<Variant>, ws: seq<int>)
    requires variants != [] && WholeWeights(variants, ws) && WholePrefix(ws, |ws|) != 0
    ensures TotalWeight(variants) != 0.0
    ensures (exists context :: FallsThrough(flagKey, variants, context)) <==> NoneCoversTheBuckets(ws)
  {
    PrefixIsWhole(variants, ws, |ws|);
    assert TotalWeight(variants) != 0.0;
    hide FallsThrough, NoneCoversTheBuckets;
    if NoneCoversTheBuckets(ws) {
      var context := UncoveredFallsThrough(flagKey, variants, ws);
      assert FallsThrough(flagKey, variants, context);
    } else {
      forall context | FallsThrough(flagKey, variants, context) ensures false {
        FallingNeedsUncovered(flagKey, variants, ws, context);
      }
    }
  }

  /** For every flag, weights of 1 and -3 make some user fall through to the last variant. */
  lemma NegativeTotalsFallThrough(flagKey: Text, first: Variant, second: Variant)
    requires first.weight == 1.0 && second.weight == -3.0
    ensures TotalWeight([first, second]) != 0.0
    ensures exists context :: FallsThrough(flagKey, [first, second], context)
  {
    var ws := [1, -3];
    assert WholePrefix(ws, 1) == 1 && WholePrefix(ws, 2) == -2;
    FallbackIsReachedExactlyWhen(flagKey, [first, second], ws);
    forall k | 0 <= k <= 2 ensures WholePrefix(ws, k) < 2 {
      assert k == 0 || k == 1 || k == 2;
    }
  }
}
