/** Feature flags: the polynomial hash behind A/B assignment and percentage rollouts,
    the choice of a variant by weight, and how many hashes each choice receives. */
module FeatureRollouts {
  import opened Common
  import opened IntegerArithmetic
  import opened RealArithmetic

  /** A UTF-16 code unit, as `charCodeAt` returns it. */
  type CodeUnit = c: int | 0 <= c < 0x1_0000

  type Text = seq<CodeUnit>

  const MODULUS: nat := 2_147_483_647

  /** The integers that a double holds exactly, with all their neighbours. A value of this
      type proves that no arithmetic on it ever left that range. */
  newtype SafeInteger = x: int | -0x20_0000_0000_0000 < x < 0x20_0000_0000_0000

  // ------------------------------------------------------------------
  // The hash
  // ------------------------------------------------------------------

  function Pow31(n: nat): nat {
    if n == 0 then 1 else 31 * Pow31(n - 1)
  }

  /** The sum of `s[i] * 31^(|s| - 1 - i)`. */
  function Polynomial(s: Text): nat {
    if s == [] then 0 else s[0] * Pow31(|s| - 1) + Polynomial(s[1..])
  }

  function Hash(s: Text): nat {
    Polynomial(s) % MODULUS
  }

  lemma {:induction false} Horner(s: Text, c: CodeUnit)
    ensures Polynomial(s + [c]) == 31 * Polynomial(s) + c
    decreases |s|
  {
    if s == [] {
      assert Polynomial([c]) == c * Pow31(0) + Polynomial([]);
    } else {
      assert (s + [c])[1..] == s[1..] + [c];
      Horner(s[1..], c);
      Shift(s[0], Pow31(|s| - 1));
    }
  }

  lemma Shift(a: nat, p: nat)
    ensures a * (31 * p) == 31 * (a * p)
  {
  }

  lemma RemainderStep(p: nat, c: nat)
    ensures (p % MODULUS * 31 + c) % MODULUS == (31 * p + c) % MODULUS
  {
    var q, r := p / MODULUS, p % MODULUS;
    assert p == q * MODULUS + r;
    assert 31 * p + c == (r * 31 + c) + (31 * q) * MODULUS;
    DropMultiple(r * 31 + c, 31 * q);
  }

  lemma DropMultiple(a: nat, k: nat)
    ensures (a + k * MODULUS) % MODULUS == a % MODULUS
  {
  }

  /** The hash loop. Whatever the length of the input, every intermediate value is a
      `SafeInteger`, and the result is the base-31 polynomial of the whole input. */
  method HashString(input: Text) returns (hash: SafeInteger)
    ensures hash as int == Hash(input) == Polynomial(input) % 2_147_483_647
    ensures 0 <= hash as int < MODULUS
  {
    hash := 0;
    for i := 0 to |input|
      invariant 0 <= hash as int < MODULUS
      invariant hash as int == Hash(input[..i])
    {
      var code: SafeInteger := input[i] as SafeInteger;
      Horner(input[..i], input[i]);
      RemainderStep(Polynomial(input[..i]), input[i]);
      assert input[..i + 1] == input[..i] + [input[i]];
      hash := (hash * 31 + code) % 2_147_483_647;
    }
    assert input[..|input|] == input;
  }

  // ------------------------------------------------------------------
  // Variants by weight
  // ------------------------------------------------------------------

  datatype Context = Context(userId: Option<Text>, tenantId: Option<Text>)

  datatype Variant = Variant(name: string, value: string, weight: real)

  datatype Assignment = Assignment(name: string, value: string)

  const COLON: Text := [58]
  const ANONYMOUS: Text := [97, 110, 111, 110, 121, 109, 111, 117, 115]
  const DEFAULT: Text := [100, 101, 102, 97, 117, 108, 116]

  /** The code units of a string of plain characters. */
  function Units(s: string): Text
    requires forall i :: 0 <= i < |s| ==> s[i] < 256 as char
  {
    seq(|s|, i requires 0 <= i < |s| => s[i] as int)
  }

  lemma ConstantsSpell()
    ensures COLON == Units(":") && ANONYMOUS == Units("anonymous") && DEFAULT == Units("default")
  {
  }

  /** `context?.userId ?? context?.tenantId ?? otherwise` */
  function ContextSeed(context: Option<Context>, otherwise: Text): Text {
    match context
    case None => otherwise
    case Some(c) => if c.userId.Some? then c.userId.value else c.tenantId.GetOr(otherwise)
  }

  /** The total weight of the first `n` variants. */
  function Prefix(variants: seq<Variant>, n: nat): real
    requires n <= |variants|
  {
    if n == 0 then 0.0 else Prefix(variants, n - 1) + variants[n - 1].weight
  }

  function TotalWeight(variants: seq<Variant>): real {
    Prefix(variants, |variants|)
  }

  /** The remainder `a % b` of doubles for `a` that is not negative: the sign of `b` does not matter. */
  function Remainder(a: real, b: real): real
    requires b != 0.0
  {
    var m := if b < 0.0 then -b else b;
    a - Times(m, (a / m).Floor as real)
  }

  lemma RemainderIsBounded(a: real, b: real)
    requires b > 0.0
    ensures 0.0 <= Remainder(a, b) < b
  {
    var q := a / b;
    assert a == q * b;
    FloorBelow(b, q, q.Floor as real);
  }

  lemma FloorBelow(b: real, q: real, f: real)
    requires b > 0.0 && f <= q < f + 1.0
    ensures Times(b, f) <= q * b < Times(b, f) + b
  {
    Between(b, q, f, f + 1.0);
  }

  lemma Between(b: real, q: real, f: real, g: real)
    requires b > 0.0 && f <= q < g && g == f + 1.0
    ensures Times(b, f) <= Times(q, b) < Times(b, f) + b
  {
    hide Times;
    OneMoreTimes(f, g, b);
    TimesOrderExactly(f, q, b);
    TimesOrderExactly(g, q, b);
  }

  lemma TimesOrderExactly(x: real, y: real, d: real)
    requires d > 0.0
    ensures x > y <==> Times(x, d) > Times(y, d)
  {
    ScaleOrder(x, y, d);
  }

  lemma OneMoreTimes(f: real, g: real, b: real)
    requires g == f + 1.0
    ensures Times(g, b) == Times(f, b) + b && Times(f, b) == Times(b, f)
  {
  }

  /** The first variant whose cumulative weight exceeds the bucket; `None` when none does. */
  function FirstAbove(variants: seq<Variant>, bucket: real, from: nat): (r: Option<nat>)
    requires from <= |variants|
    ensures r.Some? ==> from <= r.value < |variants|
    decreases |variants| - from
  {
    if from == |variants| then None
    else if bucket < Prefix(variants, from + 1) then Some(from)
    else FirstAbove(variants, bucket, from + 1)
  }

  function Chosen(variants: seq<Variant>, bucket: real): (i: nat)
    requires variants != []
    ensures i < |variants|
  {
    FirstAbove(variants, bucket, 0).GetOr(|variants| - 1)
  }

  /** `assignVariant`. */
  method AssignVariant(flagKey: Text, variants: seq<Variant>, context: Option<Context>)
    returns (chosen: Option<Assignment>)
    ensures chosen.None? <==> variants == [] || TotalWeight(variants) == 0.0
    ensures chosen.Some? ==>
      var seed := if context.Some? && context.value.userId.Some? then context.value.userId.value
                  else if context.Some? && context.value.tenantId.Some? then context.value.tenantId.value
                  else ANONYMOUS;
      var hash := Hash(flagKey + COLON + seed);
      var variant := variants[Chosen(variants, Remainder(hash as real, TotalWeight(variants)))];
      chosen == Some(Assignment(variant.name, variant.value))
  {
    if |variants| == 0 {
      return None;
    }
    var totalWeight := 0.0;
    for i := 0 to |variants|
      invariant totalWeight == Prefix(variants, i)
    {
      totalWeight := totalWeight + variants[i].weight;
    }
    if totalWeight == 0.0 {
      return None;
    }
    var hash := HashString(flagKey + COLON + ContextSeed(context, ANONYMOUS));
    var bucket := Remainder(hash as int as real, totalWeight);
    var cumulative := 0.0;
    for i := 0 to |variants|
      invariant cumulative == Prefix(variants, i)
      invariant FirstAbove(variants, bucket, 0) == FirstAbove(variants, bucket, i)
    {
      cumulative := cumulative + variants[i].weight;
      if bucket < cumulative {
        return Some(Assignment(variants[i].name, variants[i].value));
      }
    }
    var last := variants[|variants| - 1];
    return Some(Assignment(last.name, last.value));
  }

  lemma {:induction false} SomePrefixExceeds(variants: seq<Variant>, bucket: real, from: nat)
    requires from < |variants| && bucket < TotalWeight(variants)
    ensures FirstAbove(variants, bucket, from).Some?
    decreases |variants| - from
  {
    if from + 1 < |variants| {
      SomePrefixExceeds(variants, bucket, from + 1);
    }
  }

  /** With a positive total, whatever the signs of the weights, every hash finds a variant
      and the fallback to the last one is never taken. */
  lemma FallbackIsNeverTaken(variants: seq<Variant>, hash: nat)
    requires variants != [] && TotalWeight(variants) > 0.0
    ensures FirstAbove(variants, Remainder(hash as real, TotalWeight(variants)), 0).Some?
  {
    hide Remainder, FirstAbove, TotalWeight;
    RemainderIsBounded(hash as real, TotalWeight(variants));
    SomePrefixExceeds(variants, Remainder(hash as real, TotalWeight(variants)), 0);
  }

  ghost predicate NoNegativeWeight(variants: seq<Variant>) {
    forall i :: 0 <= i < |variants| ==> variants[i].weight >= 0.0
  }

  lemma {:induction false} PrefixesGrow(variants: seq<Variant>, i: nat, j: nat)
    requires NoNegativeWeight(variants) && i <= j <= |variants|
    ensures Prefix(variants, i) <= Prefix(variants, j)
    decreases j
  {
    if i < j {
      PrefixesGrow(variants, i, j - 1);
    }
  }

  /** Without negative weights each variant owns exactly the buckets of a half-open
      interval as long as its weight, and these intervals lie end to end. */
  lemma {:induction false} EachVariantOwnsAnInterval(variants: seq<Variant>, bucket: real, from: nat, i: nat)
    requires NoNegativeWeight(variants) && from <= i < |variants|
    requires Prefix(variants, from) <= bucket
    ensures FirstAbove(variants, bucket, from) == Some(i)
       <==> Prefix(variants, i) <= bucket < Prefix(variants, i) + variants[i].weight
    decreases |variants| - from
  {
    if bucket < Prefix(variants, from + 1) {
      if from < i {
        PrefixesGrow(variants, from + 1, i);
      }
    } else if from < i {
      EachVariantOwnsAnInterval(variants, bucket, from + 1, i);
    }
  }

  // ------------------------------------------------------------------
  // How many hashes choose each variant
  // ------------------------------------------------------------------

  /** The variants' weights are the whole numbers `ws`. */
  ghost predicate WholeWeights(variants: seq<Variant>, ws: seq<int>) {
    |ws| == |variants| && forall i :: 0 <= i < |ws| ==> variants[i].weight == ws[i] as real
  }

  function WholePrefix(ws: seq<int>, n: nat): int
    requires n <= |ws|
  {
    if n == 0 then 0 else WholePrefix(ws, n - 1) + ws[n - 1]
  }

  lemma {:induction false} PrefixIsWhole(variants: seq<Variant>, ws: seq<int>, n: nat)
    requires WholeWeights(variants, ws) && n <= |ws|
    ensures Prefix(variants, n) == WholePrefix(ws, n) as real
    decreases n
  {
    if n > 0 {
      PrefixIsWhole(variants, ws, n - 1);
    }
  }

  lemma {:induction false} WholePrefixesGrow(ws: seq<nat>, i: nat, j: nat)
    requires i <= j <= |ws|
    ensures WholePrefix(ws, i) <= WholePrefix(ws, j)
    decreases j
  {
    if i < j {
      WholePrefixesGrow(ws, i, j - 1);
    }
  }

  /** The cumulative weights when none is negative. */
  function Cumulative(ws: seq<nat>, n: nat): nat
    requires n <= |ws|
  {
    WholePrefixesGrow(ws, 0, n);
    WholePrefix(ws, n)
  }

  lemma RemainderOfWholeNumbers(a: nat, b: nat)
    requires b > 0
    ensures Remainder(a as real, b as real) == (a % b) as real
  {
    var x, y := a as real, b as real;
    var q := a / b;
    WholeQuotient(a, b);
    assert a == b * q + a % b;
    assert (b * q) as real == y * q as real;
  }

  lemma WholeQuotient(a: nat, b: nat)
    requires b > 0
    ensures (a as real / b as real).Floor == a / b
  {
    var y := b as real;
    var r := a as real / y;
    var q := a / b;
    assert r * y == a as real;
    assert b * q <= a < b * q + b;
    assert (b * q) as real == q as real * y;
    QuotientBetween(y, r, q as real, a as real);
  }

  lemma QuotientBetween(y: real, r: real, q: real, a: real)
    requires y > 0.0 && r * y == a && q * y <= a < q * y + y
    ensures q <= r < q + 1.0
  {
    QuotientBounds(y, r, q, q + 1.0);
  }

  lemma QuotientBounds(y: real, r: real, q: real, g: real)
    requires y > 0.0 && g == q + 1.0 && Times(q, y) <= Times(r, y) < Times(q, y) + y
    ensures q <= r < g
  {
    hide Times;
    TimesOrderExactly(q, r, y);
    TimesOrderExactly(g, r, y);
    OneMoreTimes(q, g, y);
  }

  /** The hash `h` is assigned variant `i`. */
  predicate Gets(variants: seq<Variant>, h: nat, i: nat)
    requires variants != [] && TotalWeight(variants) != 0.0
  {
    Chosen(variants, Remainder(h as real, TotalWeight(variants))) == i
  }

  lemma GetsByInterval(variants: seq<Variant>, ws: seq<nat>, h: nat, i: nat)
    requires WholeWeights(variants, ws) && Cumulative(ws, |ws|) > 0 && i < |ws|
    ensures TotalWeight(variants) == Cumulative(ws, |ws|) as real
    ensures Gets(variants, h, i) <==> Cumulative(ws, i) <= h % Cumulative(ws, |ws|) < Cumulative(ws, i) + ws[i]
  {
    var total := Cumulative(ws, |ws|);
    PrefixIsWhole(variants, ws, |ws|);
    PrefixIsWhole(variants, ws, i);
    RemainderOfWholeNumbers(h, total);
    var b := h % total;
    hide Remainder, Prefix, WholePrefix, Cumulative, FirstAbove;
    assert Prefix(variants, 0) == 0.0 by {
      PrefixIsWhole(variants, ws, 0);
      CumulativeOfNone(ws);
    }
    SomePrefixExceeds(variants, b as real, 0);
    EachVariantOwnsAnInterval(variants, b as real, 0, i);
  }

  lemma CumulativeOfNone(ws: seq<nat>)
    ensures Cumulative(ws, 0) == 0
  {
  }

  /** How many of the hashes `0..n` are assigned variant `i`. */
  function Hits(variants: seq<Variant>, i: nat, n: nat): nat
    requires variants != [] && TotalWeight(variants) != 0.0
  {
    if n == 0 then 0 else Hits(variants, i, n - 1) + if Gets(variants, n - 1, i) then 1 else 0
  }

  /** How many members of an interval of length `length` that starts at `start` lie below `b`. */
  function Covered(b: int, start: nat, length: nat): int {
    Max(0, Min(length, b - start))
  }

  lemma OneMoreHash(n: nat, total: nat, start: nat, weight: nat)
    requires n > 0 && total >= start + weight && total > 0
    ensures var p := n - 1;
            n / total * weight + Covered(n % total, start, weight)
            == p / total * weight + Covered(p % total, start, weight)
               + (if start <= p % total < start + weight then 1 else 0)
  {
    Cycle(n, total);
    var q := (n - 1) / total;
    assert (q + 1) * weight == q * weight + weight;
  }

  /** Among the hashes `0..n`, a variant gets its weight once for every full cycle of
      buckets, and the part of its interval that the last cycle has covered. */
  lemma {:induction false} HitsExactly(variants: seq<Variant>, ws: seq<nat>, i: nat, n: nat)
    requires WholeWeights(variants, ws) && Cumulative(ws, |ws|) > 0 && i < |ws|
    requires variants != [] && TotalWeight(variants) != 0.0
    ensures var total := Cumulative(ws, |ws|);
            Hits(variants, i, n) == n / total * ws[i] + Covered(n % total, Cumulative(ws, i), ws[i])
    decreases n
  {
    hide Gets, WholePrefix, Cumulative, Covered, TotalWeight, WholeWeights;
    var total := Cumulative(ws, |ws|);
    IntervalFits(ws, i);
    if n > 0 {
      HitsExactly(variants, ws, i, n - 1);
      GetsByInterval(variants, ws, n - 1, i);
      OneMoreHash(n, total, Cumulative(ws, i), ws[i]);
    } else {
      Quotient(0, total, 0, 0);
      NothingCovered(Cumulative(ws, i), ws[i]);
    }
  }

  lemma NothingCovered(start: nat, length: nat)
    ensures Covered(0, start, length) == 0
  {
  }

  lemma IntervalFits(ws: seq<nat>, i: nat)
    requires i < |ws|
    ensures Cumulative(ws, i) + ws[i] <= Cumulative(ws, |ws|)
  {
    WholePrefixesGrow(ws, i + 1, |ws|);
  }

  /** Over one full cycle of buckets every variant is chosen exactly as often as its weight
      says; over all the values of the hash, within one weight of its fair share. */
  lemma WeightsAreRespected(variants: seq<Variant>, ws: seq<nat>, i: nat)
    requires WholeWeights(variants, ws) && Cumulative(ws, |ws|) > 0 && i < |ws|
    requires variants != [] && TotalWeight(variants) != 0.0
    ensures var total := Cumulative(ws, |ws|);
            Hits(variants, i, total) == ws[i] &&
            MODULUS / total * ws[i] <= Hits(variants, i, MODULUS) <= (MODULUS / total + 1) * ws[i]
  {
    hide Gets, WholePrefix, Cumulative, TotalWeight, WholeWeights, Hits;
    var total := Cumulative(ws, |ws|);
    IntervalFits(ws, i);
    HitsExactly(variants, ws, i, total);
    Quotient(total, total, 1, 0);
    HitsExactly(variants, ws, i, MODULUS);
    var q := MODULUS / total;
    assert (q + 1) * ws[i] == q * ws[i] + ws[i];
  }

  // ------------------------------------------------------------------
  // Percentage rollouts
  // ------------------------------------------------------------------

  datatype RolloutRule = RolloutRule(percentage: real, seed: Option<Text>)

  function RolloutKey(rollout: RolloutRule, flagKey: Text, context: Option<Context>): Text {
    flagKey + COLON + rollout.seed.GetOr(ContextSeed(context, DEFAULT))
  }

  predicate HashIsIn(h: nat, percentage: real) {
    (h % 100) as real < percentage
  }

  /** `evaluateRollout`. */
  method EvaluateRollout(rollout: RolloutRule, flagKey: Text, context: Option<Context>) returns (included: bool)
    ensures included <==> HashIsIn(Hash(RolloutKey(rollout, flagKey, context)), rollout.percentage)
    ensures var seed := if rollout.seed.Some? then rollout.seed.value
                        else if context.Some? && context.value.userId.Some? then context.value.userId.value
                        else if context.Some? && context.value.tenantId.Some? then context.value.tenantId.value
                        else DEFAULT;
            included <==> (Hash(flagKey + COLON + seed) % 100) as real < rollout.percentage
  {
    var seed := if rollout.seed.Some? then rollout.seed.value else ContextSeed(context, DEFAULT);
    var hash := HashString(flagKey + COLON + seed);
    var bucket := hash % 100;
    assert bucket as int == hash as int % 100;
    return bucket as int as real < rollout.percentage;
  }

  function HashesIn(percentage: real, n: nat): nat {
    if n == 0 then 0 else HashesIn(percentage, n - 1) + if HashIsIn(n - 1, percentage) then 1 else 0
  }

  /** How many of a hundred buckets lie below the percentage. */
  function BucketsBelow(percentage: real): nat {
    Max(0, Min(100, -((-percentage).Floor)))
  }

  /** Exactly `percentage` of every hundred hashes are in: none at 0 or less, all at 100
      or more, and a fraction counts as the next whole number. */
  lemma {:induction false} HashesInExactly(percentage: real, n: nat)
    ensures HashesIn(percentage, n)
         == n / 100 * BucketsBelow(percentage) + Covered(n % 100, 0, BucketsBelow(percentage))
    decreases n
  {
    if n > 0 {
      HashesInExactly(percentage, n - 1);
      var b := (n - 1) % 100;
      assert HashIsIn(n - 1, percentage) <==> b < BucketsBelow(percentage);
      OneMoreHash(n, 100, 0, BucketsBelow(percentage));
    }
  }
}
