/** The z-score anomaly detector over the reals. `Math.sqrt` enters as the parameter
    `std`, required to be the square root of the population variance. */
module AnomalyDetectors {
  import opened Common
  import opened RealArithmetic

  type DataRecord = map<string, Value>

  function ExtractNumerics(records: seq<DataRecord>, field: string): seq<real> {
    if records == [] then []
    else
      var r := records[|records| - 1];
      ExtractNumerics(records[..|records| - 1], field) +
      (if field in r && r[field].Number? then [r[field].v] else [])
  }

  function SumOfSquares(values: seq<real>, mean: real): real {
    if values == [] then 0.0
    else SumOfSquares(values[..|values| - 1], mean) + Square(values[|values| - 1] - mean)
  }

  function Mean(values: seq<real>): real
    requires values != []
  {
    Sum(values) / |values| as real
  }

  function Variance(values: seq<real>): real
    requires values != []
  {
    SumOfSquares(values, Mean(values)) / |values| as real
  }

  predicate IsSqrt(s: real, v: real) {
    s >= 0.0 && Square(s) == v
  }

  predicate Exceeds(v: real, mean: real, std: real, threshold: real)
    requires std != 0.0
  {
    Abs((v - mean) / std) > threshold
  }

  function Anomalies(records: seq<DataRecord>, field: string, mean: real, std: real, threshold: real): seq<DataRecord>
    requires std != 0.0
  {
    if records == [] then []
    else
      var r := records[|records| - 1];
      Anomalies(records[..|records| - 1], field, mean, std, threshold) +
      (if field in r && r[field].Number? && Exceeds(r[field].v, mean, std, threshold) then [r] else [])
  }

  /** `detect`: the flagged records, in order. */
  function Detected(records: seq<DataRecord>, field: string, threshold: real, std: real): seq<DataRecord> {
    var values := ExtractNumerics(records, field);
    if |values| < 2 || std == 0.0 then [] else Anomalies(records, field, Mean(values), std, threshold)
  }

  ghost predicate Deviation(records: seq<DataRecord>, field: string, std: real) {
    var values := ExtractNumerics(records, field);
    |values| >= 2 ==> IsSqrt(std, Variance(values))
  }

  method Detect(records: seq<DataRecord>, field: string, threshold: real, std: real)
    returns (anomalies: seq<DataRecord>, totalChecked: nat)
    requires Deviation(records, field, std)
    ensures anomalies == Detected(records, field, threshold, std) && totalChecked == |records|
  {
    var values := ExtractNumerics(records, field);
    anomalies, totalChecked := [], |records|;
    if |values| < 2 || std == 0.0 {
      return;
    }
    var mean := Mean(values);
    for i := 0 to |records|
      invariant anomalies == Anomalies(records[..i], field, mean, std, threshold)
    {
      var r := records[i];
      assert records[..i + 1][..i] == records[..i];
      if field in r && r[field].Number? && Exceeds(r[field].v, mean, std, threshold) {
        anomalies := anomalies + [r];
      }
    }
    assert records[..|records|] == records;
  }

  // ------------------------------------------------------------------
  // A flag in terms of squares
  // ------------------------------------------------------------------

  function Exceeding(values: seq<real>, mean: real, bound: real): nat {
    if values == [] then 0
    else Exceeding(values[..|values| - 1], mean, bound) +
         if Square(values[|values| - 1] - mean) > bound then 1 else 0
  }

  lemma ExceedsInSquares(v: real, mean: real, std: real, threshold: real)
    requires std > 0.0 && threshold >= 0.0
    ensures Exceeds(v, mean, std, threshold) <==> Square(v - mean) > Times(Square(threshold), Square(std))
  {
    var q := (v - mean) / std;
    assert v - mean == q * std;
    SquareOfProduct(q, std);
    SquareSign(q);
    SquareSign(std);
    SquareOrder(Abs(q), threshold);
    hide Square;
    ScaleOrder(Square(q), Square(threshold), Square(std));
  }

  // ------------------------------------------------------------------
  // Which records are flagged
  // ------------------------------------------------------------------

  /** The record's value is further from the mean than the threshold allows, in terms of squares. */
  predicate FarOff(r: DataRecord, field: string, values: seq<real>, threshold: real)
    requires values != []
  {
    field in r && r[field].Number? &&
    (threshold < 0.0 ||
     Square(r[field].v - Mean(values)) > Times(Square(threshold), Variance(values)))
  }

  /** At least two values, which are not all the same, and the record is far off among them. */
  predicate ShouldBeFlagged(r: DataRecord, records: seq<DataRecord>, field: string, threshold: real) {
    var values := ExtractNumerics(records, field);
    |values| >= 2 && Variance(values) > 0.0 && FarOff(r, field, values, threshold)
  }

  /** The places are in the order of the records, and the list is what stands there. */
  ghost predicate Lists(list: seq<DataRecord>, records: seq<DataRecord>, places: seq<nat>) {
    |places| == |list| &&
    (forall i, j :: 0 <= i < j < |places| ==> places[i] < places[j]) &&
    forall i :: 0 <= i < |places| ==> places[i] < |records| && list[i] == records[places[i]]
  }

  lemma ExceedsIsFarOff(r: DataRecord, field: string, values: seq<real>, std: real, threshold: real)
    requires values != [] && IsSqrt(std, Variance(values)) && std != 0.0
    ensures FarOff(r, field, values, threshold) <==>
            field in r && r[field].Number? && Exceeds(r[field].v, Mean(values), std, threshold)
  {
    hide Mean, Variance, Square, Times;
    if field in r && r[field].Number? && threshold >= 0.0 {
      ExceedsInSquares(r[field].v, Mean(values), std, threshold);
    }
  }

  ghost predicate Marks(places: seq<nat>, records: seq<DataRecord>, field: string, values: seq<real>, threshold: real)
    requires values != []
  {
    forall k :: k in places <==> 0 <= k < |records| && FarOff(records[k], field, values, threshold)
  }

  lemma MarksMore(places: seq<nat>, records: seq<DataRecord>, field: string, values: seq<real>, threshold: real)
    requires values != [] && records != [] && Marks(places, records[..|records| - 1], field, values, threshold)
    ensures var last := |records| - 1;
            Marks(if FarOff(records[last], field, values, threshold) then places + [last] else places,
                  records, field, values, threshold)
  {
    hide FarOff;
    var last := |records| - 1;
    assert forall k :: k in places + [last] <==> k in places || k == last;
    assert forall k :: 0 <= k < last ==> records[..last][k] == records[k];
  }

  lemma {:induction false} AnomaliesStandAt(records: seq<DataRecord>, field: string, values: seq<real>, std: real,
                                            threshold: real) returns (places: seq<nat>)
    requires values != [] && IsSqrt(std, Variance(values)) && std != 0.0
    ensures Lists(Anomalies(records, field, Mean(values), std, threshold), records, places)
    ensures Marks(places, records, field, values, threshold)
    decreases |records|
  {
    hide FarOff, Exceeds, Mean, Variance, IsSqrt;
    if records == [] {
      places := [];
    } else {
      var init, last := records[..|records| - 1], |records| - 1;
      var list := Anomalies(init, field, Mean(values), std, threshold);
      ExceedsIsFarOff(records[last], field, values, std, threshold);
      assert Anomalies(records, field, Mean(values), std, threshold)
          == list + if FarOff(records[last], field, values, threshold) then [records[last]] else [];
      assert list + [] == list;
      hide Lists, Marks, Anomalies;
      places := AnomaliesStandAt(init, field, values, std, threshold);
      ListsMore(list, records, places);
      MarksMore(places, records, field, values, threshold);
      if FarOff(records[last], field, values, threshold) {
        places := places + [last];
      }
    }
  }

  lemma VarianceIsZeroExactlyWithTheDeviation(values: seq<real>, std: real)
    requires values != [] && IsSqrt(std, Variance(values))
    ensures Variance(values) > 0.0 <==> std != 0.0
  {
    hide Variance;
    SquareSign(std);
    if std == 0.0 {
      SquareOfZero(std);
    }
  }

  /** The detector lists exactly the records that should be flagged, in their order. */
  lemma DetectsExactlyTheFarOff(records: seq<DataRecord>, field: string, threshold: real, std: real)
    requires Deviation(records, field, std)
    ensures exists places: seq<nat> ::
      Lists(Detected(records, field, threshold, std), records, places) &&
      forall k :: k in places <==> 0 <= k < |records| && ShouldBeFlagged(records[k], records, field, threshold)
  {
    hide Variance, Mean, FarOff, Exceeds, Lists;
    var values := ExtractNumerics(records, field);
    var places: seq<nat> := [];
    NothingListed(records);
    if |values| >= 2 {
      VarianceIsZeroExactlyWithTheDeviation(values, std);
      if std != 0.0 {
        places := AnomaliesStandAt(records, field, values, std, threshold);
      }
    }
    assert Lists(Detected(records, field, threshold, std), records, places);
    assert forall k :: k in places <==>
      0 <= k < |records| && ShouldBeFlagged(records[k], records, field, threshold);
  }

  lemma ListsMore(list: seq<DataRecord>, records: seq<DataRecord>, places: seq<nat>)
    requires records != [] && Lists(list, records[..|records| - 1], places)
    ensures Lists(list, records, places)
    ensures Lists(list + [records[|records| - 1]], records, places + [|records| - 1])
  {
  }

  lemma NothingListed(records: seq<DataRecord>)
    ensures Lists([], records, [])
  {
  }

  lemma {:induction false} AnomaliesOccur(records: seq<DataRecord>, field: string, values: seq<real>, std: real,
                                          threshold: real, r: DataRecord)
    requires values != [] && IsSqrt(std, Variance(values)) && std != 0.0
    ensures multiset(Anomalies(records, field, Mean(values), std, threshold))[r]
         == if FarOff(r, field, values, threshold) then multiset(records)[r] else 0
    decreases |records|
  {
    hide FarOff, Exceeds, Mean, Variance;
    if records != [] {
      var init, last := records[..|records| - 1], records[|records| - 1];
      AnomaliesOccur(init, field, values, std, threshold, r);
      ExceedsIsFarOff(last, field, values, std, threshold);
      assert records == init + [last];
    }
  }

  /** A record is reported exactly as often as it occurs, or not at all. */
  lemma ReportedAsOftenAsItOccurs(records: seq<DataRecord>, field: string, threshold: real, std: real, r: DataRecord)
    requires Deviation(records, field, std)
    ensures multiset(Detected(records, field, threshold, std))[r]
         == if ShouldBeFlagged(r, records, field, threshold) then multiset(records)[r] else 0
  {
    hide Variance, Mean, FarOff, Exceeds, Anomalies;
    var values := ExtractNumerics(records, field);
    if |values| >= 2 {
      VarianceIsZeroExactlyWithTheDeviation(values, std);
      if std != 0.0 {
        AnomaliesOccur(records, field, values, std, threshold, r);
      }
    }
  }

  // ------------------------------------------------------------------
  // How many are flagged
  // ------------------------------------------------------------------

  lemma {:induction false} AnomaliesAreCounted(records: seq<DataRecord>, field: string, mean: real, std: real,
                                                 threshold: real)
    requires std > 0.0 && threshold >= 0.0
    ensures |Anomalies(records, field, mean, std, threshold)|
         == Exceeding(ExtractNumerics(records, field), mean, Times(Square(threshold), Square(std)))
    decreases |records|
  {
    hide Exceeds, Square, Abs, Times;
    if records != [] {
      var r := records[|records| - 1];
      AnomaliesAreCounted(records[..|records| - 1], field, mean, std, threshold);
      var values := ExtractNumerics(records, field);
      if field in r && r[field].Number? {
        ExceedsInSquares(r[field].v, mean, std, threshold);
        assert values[..|values| - 1] == ExtractNumerics(records[..|records| - 1], field);
      } else {
        assert values == ExtractNumerics(records[..|records| - 1], field);
      }
    }
  }

  // ------------------------------------------------------------------
  // Chebyshev: how many values can be flagged
  // ------------------------------------------------------------------

  lemma {:induction false} ExceedingIsPaidFor(values: seq<real>, mean: real, bound: real)
    requires bound >= 0.0
    ensures SumOfSquares(values, mean) >= Times(Exceeding(values, mean, bound) as real, bound)
    ensures Exceeding(values, mean, bound) > 0 ==>
              SumOfSquares(values, mean) > Times(Exceeding(values, mean, bound) as real, bound)
    decreases |values|
  {
    if values == [] {
      assert Times(0.0, bound) == 0.0;
    } else {
      var init, last := values[..|values| - 1], values[|values| - 1];
      ExceedingIsPaidFor(init, mean, bound);
      SquareSign(last - mean);
      hide Square, Times;
      OneMore(Exceeding(init, mean, bound), bound);
    }
  }

  lemma OneMore(k: nat, b: real)
    ensures Times((k + 1) as real, b) == Times(k as real, b) + b
  {
  }

  lemma SumIsMeanTimesCount(values: seq<real>)
    requires values != []
    ensures Times(|values| as real, Mean(values)) == Sum(values)
    ensures Times(|values| as real, Variance(values)) == SumOfSquares(values, Mean(values))
  {
    hide Times, Sum, SumOfSquares;
    QuotientTimes(|values| as real, Sum(values));
    QuotientTimes(|values| as real, SumOfSquares(values, Mean(values)));
  }

  lemma QuotientTimes(n: real, total: real)
    requires n != 0.0
    ensures Times(n, total / n) == total
  {
  }

  /** No more than n / t^2 of n numeric values are flagged, and fewer when any is. */
  lemma FlaggedAtMost(records: seq<DataRecord>, field: string, threshold: real, std: real)
    requires threshold > 0.0 && Deviation(records, field, std)
    ensures var k, n := |Detected(records, field, threshold, std)|, |ExtractNumerics(records, field)|;
            Times(k as real, Square(threshold)) <= n as real &&
            (k > 0 ==> Times(k as real, Square(threshold)) < n as real)
  {
    var values := ExtractNumerics(records, field);
    if |values| >= 2 && std != 0.0 {
      SquareSign(std);
      SquareSign(threshold);
      SumIsMeanTimesCount(values);
      ProductPositive(Square(threshold), Square(std));
      assert Times(Square(threshold), Square(std)) > 0.0;
      hide Square, Mean, Variance, Times, Exceeds;
      AnomaliesAreCounted(records, field, Mean(values), std, threshold);
      ExceedingIsPaidFor(values, Mean(values), Times(Square(threshold), Square(std)));
      CancelFactor(|Detected(records, field, threshold, std)| as real, Square(threshold), |values| as real,
                   Square(std));
    }
  }

  lemma CancelFactor(k: real, t: real, n: real, v: real)
    requires v > 0.0 && Times(k, Times(t, v)) <= Times(n, v)
    ensures Times(k, t) <= n
    ensures Times(k, Times(t, v)) < Times(n, v) ==> Times(k, t) < n
  {
    assert k * (t * v) == (k * t) * v;
    ScaleOrder(k * t, n, v);
    ScaleOrder(n, k * t, v);
  }

  // ------------------------------------------------------------------
  // Samuelson: how far one value can be from the mean
  // ------------------------------------------------------------------

  function SumOfDeviations(values: seq<real>, mean: real): real {
    if values == [] then 0.0 else SumOfDeviations(values[..|values| - 1], mean) + (values[|values| - 1] - mean)
  }

  lemma {:induction false} DeviationsSum(values: seq<real>, mean: real)
    ensures SumOfDeviations(values, mean) == Sum(values) - Times(|values| as real, mean)
    decreases |values|
  {
    if values == [] {
      assert Times(0.0, mean) == 0.0;
    } else {
      DeviationsSum(values[..|values| - 1], mean);
      OneMore(|values| - 1, mean);
      hide Times;
    }
  }

  lemma {:induction false} SumsOfParts(first: seq<real>, second: seq<real>, mean: real)
    ensures SumOfDeviations(first + second, mean) == SumOfDeviations(first, mean) + SumOfDeviations(second, mean)
    ensures SumOfSquares(first + second, mean) == SumOfSquares(first, mean) + SumOfSquares(second, mean)
    decreases |second|
  {
    if second == [] {
      assert first + second == first;
    } else {
      SumsOfParts(first, second[..|second| - 1], mean);
      assert (first + second)[..|first + second| - 1] == first + second[..|second| - 1];
    }
  }

  function Gap(s: real, q: real, k: real, e: real): real {
    q + k * Square(e) - 2.0 * (s * e)
  }

  lemma CauchyStep(s: real, q: real, k: nat, e: real)
    requires k >= 1 && Square(s) <= Times(k as real, q)
    ensures Square(s + e) <= Times((k + 1) as real, q + Square(e))
  {
    hide Square, Gap, Times;
    var r := k as real;
    CauchyGap(s, q, r, e);
    CauchyExpansion(s, q, r, e);
    SquareSign(s - Times(r, e));
    TimesFactorNotNegative(r, Gap(s, q, r, e));
  }

  lemma TimesFactorNotNegative(k: real, x: real)
    requires k > 0.0 && Times(k, x) >= 0.0
    ensures x >= 0.0
  {
    FactorNotNegative(k, x);
  }

  lemma CauchyGap(s: real, q: real, k: real, e: real)
    ensures Times(k, Gap(s, q, k, e)) == (Times(k, q) - Square(s)) + Square(s - Times(k, e))
  {
    var m := k * e;
    assert k * (k * (e * e)) == m * m;
    assert k * (2.0 * (s * e)) == 2.0 * (s * m);
    assert (s - m) * (s - m) == s * s - 2.0 * (s * m) + m * m;
  }

  lemma CauchyExpansion(s: real, q: real, k: real, e: real)
    ensures Times(k + 1.0, q + Square(e)) - Square(s + e) == (Times(k, q) - Square(s)) + Gap(s, q, k, e)
  {
    assert (s + e) * (s + e) == s * s + 2.0 * (s * e) + e * e;
    var f := e * e;
    assert (k + 1.0) * (q + f) == k * q + k * f + q + f;
  }

  lemma {:induction false} CauchySchwarz(values: seq<real>, mean: real)
    ensures Square(SumOfDeviations(values, mean)) <= Times(|values| as real, SumOfSquares(values, mean))
    decreases |values|
  {
    if |values| >= 2 {
      var init, last := values[..|values| - 1], values[|values| - 1];
      CauchySchwarz(init, mean);
      hide Square, Times;
      CauchyStep(SumOfDeviations(init, mean), SumOfSquares(init, mean), |init|, last - mean);
    } else if |values| == 1 {
      assert values[..0] == [];
    }
  }

  /** Splitting the i-th value off the sums. */
  lemma SumsWithout(values: seq<real>, i: nat, mean: real)
    requires i < |values|
    ensures var others := values[..i] + values[i + 1..];
            SumOfDeviations(values, mean) == SumOfDeviations(others, mean) + (values[i] - mean) &&
            SumOfSquares(values, mean) == SumOfSquares(others, mean) + Square(values[i] - mean)
  {
    hide Square;
    var before, here, after := values[..i], [values[i]], values[i + 1..];
    assert values == before + (here + after);
    SumsOfParts(before, here + after, mean);
    SumsOfParts(here, after, mean);
    SumsOfParts(before, after, mean);
    assert here[..0] == [];
  }

  /** The distance of any value from the mean is at most sqrt(n - 1) deviations. */
  lemma SamuelsonBound(values: seq<real>, i: nat)
    requires i < |values|
    ensures Square(values[i] - Mean(values)) <= Times((|values| - 1) as real, Variance(values))
  {
    SumIsMeanTimesCount(values);
    hide Square, Mean, Variance, Times;
    var mean := Mean(values);
    var others := values[..i] + values[i + 1..];
    var d := values[i] - mean;
    SumsWithout(values, i, mean);
    DeviationsSum(values, mean);
    assert SumOfDeviations(others, mean) == -d;
    CauchySchwarz(others, mean);
    SamuelsonArithmetic(|values|, Variance(values), SumOfSquares(others, mean), d);
  }

  lemma SamuelsonArithmetic(n: nat, v: real, q: real, d: real)
    requires n >= 1 && Times(n as real, v) == q + Square(d) && Square(-d) <= Times((n - 1) as real, q)
    ensures Square(d) <= Times((n - 1) as real, v)
  {
    SquareSign(d);
    hide Square;
    var e, r, m := Square(d), n as real, (n - 1) as real;
    assert r * (m * v) == m * (r * v);
    assert m * (q + e) == m * q + m * e;
    assert r * (m * v - e) == m * q - e;
    FactorNotNegative(r, m * v - e);
  }

  lemma {:induction false} NoneExceeding(values: seq<real>, mean: real, bound: real)
    requires forall i :: 0 <= i < |values| ==> Square(values[i] - mean) <= bound
    ensures Exceeding(values, mean, bound) == 0
    decreases |values|
  {
    if values != [] {
      NoneExceeding(values[..|values| - 1], mean, bound);
    }
  }

  lemma {:induction false} SomeExceeding(values: seq<real>, mean: real, bound: real, i: nat)
    requires i < |values| && Square(values[i] - mean) > bound
    ensures Exceeding(values, mean, bound) > 0
    decreases |values|
  {
    if i < |values| - 1 {
      SomeExceeding(values[..|values| - 1], mean, bound, i);
    }
  }

  lemma TimesMonotone(a: real, b: real, c: real)
    requires c >= 0.0 && a <= b
    ensures Times(a, c) <= Times(b, c)
  {
    ProductOrder(c, a, b);
  }

  /** With n - 1 <= t^2 nothing is flagged, whatever the values. */
  lemma SmallSetsAreNeverFlagged(records: seq<DataRecord>, field: string, threshold: real, std: real)
    requires threshold > 0.0 && Deviation(records, field, std)
    requires |ExtractNumerics(records, field)| as real - 1.0 <= Square(threshold)
    ensures Detected(records, field, threshold, std) == []
  {
    hide Square, Mean, Variance, Times;
    var values := ExtractNumerics(records, field);
    if |values| >= 2 && std != 0.0 {
      var mean, bound := Mean(values), Times(Square(threshold), Square(std));
      SquareSign(std);
      AnomaliesAreCounted(records, field, mean, std, threshold);
      TimesMonotone((|values| - 1) as real, Square(threshold), Square(std));
      forall i | 0 <= i < |values| ensures Square(values[i] - mean) <= bound {
        SamuelsonBound(values, i);
      }
      NoneExceeding(values, mean, bound);
      assert |Detected(records, field, threshold, std)| == 0;
    }
  }

  /** The default threshold 3.0 cannot flag anything among ten or fewer numeric values. */
  lemma DefaultThresholdNeedsElevenValues(records: seq<DataRecord>, field: string, std: real)
    requires Deviation(records, field, std) && |ExtractNumerics(records, field)| <= 10
    ensures Detected(records, field, 3.0, std) == []
  {
    SmallSetsAreNeverFlagged(records, field, 3.0, std);
  }

  // ------------------------------------------------------------------
  // The bound is exact
  // ------------------------------------------------------------------

  function Zeros(field: string, k: nat): seq<DataRecord> {
    if k == 0 then [] else Zeros(field, k - 1) + [map[field := Number(0.0)]]
  }

  /** n - 1 zeros and one value n. */
  function Spike(field: string, n: nat): seq<DataRecord>
    requires n > 0
  {
    Zeros(field, n - 1) + [map[field := Number(n as real)]]
  }

  lemma ExtractSnoc(records: seq<DataRecord>, field: string, v: real)
    ensures ExtractNumerics(records + [map[field := Number(v)]], field) == ExtractNumerics(records, field) + [v]
  {
    assert (records + [map[field := Number(v)]])[..|records|] == records;
  }

  lemma SumsSnoc(values: seq<real>, v: real, mean: real)
    ensures Sum(values + [v]) == Sum(values) + v
    ensures SumOfSquares(values + [v], mean) == SumOfSquares(values, mean) + Square(v - mean)
  {
    hide Square;
    assert (values + [v])[..|values|] == values;
  }

  function ZeroValues(k: nat): seq<real> {
    if k == 0 then [] else ZeroValues(k - 1) + [0.0]
  }

  lemma {:induction false} ExtractZeros(field: string, k: nat)
    ensures ExtractNumerics(Zeros(field, k), field) == ZeroValues(k)
  {
    if k > 0 {
      ExtractZeros(field, k - 1);
      ExtractSnoc(Zeros(field, k - 1), field, 0.0);
    }
  }

  lemma {:induction false} ZeroSums(k: nat)
    ensures |ZeroValues(k)| == k && Sum(ZeroValues(k)) == 0.0 && SumOfSquares(ZeroValues(k), 1.0) == k as real
  {
    if k > 0 {
      ZeroSums(k - 1);
      SumsSnoc(ZeroValues(k - 1), 0.0, 1.0);
      MinusOneSquared();
      hide Square, Sum, SumOfSquares;
    }
  }

  lemma SpikeShape(field: string, n: nat)
    requires n >= 2
    ensures var values := ExtractNumerics(Spike(field, n), field);
            |values| == n && values[n - 1] == n as real && Mean(values) == 1.0 && Variance(values) == (n - 1) as real
  {
    hide Square;
    ExtractZeros(field, n - 1);
    ZeroSums(n - 1);
    var r := n as real;
    var zeros := ZeroValues(n - 1);
    var values := ExtractNumerics(Spike(field, n), field);
    ExtractSnoc(Zeros(field, n - 1), field, r);
    SumsSnoc(zeros, r, 1.0);
    assert values == zeros + [r];
    hide ExtractNumerics, Spike, Zeros, ZeroValues, Sum, SumOfSquares;
    assert Sum(values) == r;
    assert SumOfSquares(values, 1.0) == (r - 1.0) + Square(r - 1.0);
    SpikeArithmetic(r);
  }

  lemma MinusOneSquared()
    ensures Square(0.0 - 1.0) == 1.0
  {
  }

  lemma QuotientOfProduct(y: real, r: real, x: real)
    requires r > 0.0 && x == y * r
    ensures x / r == y
  {
  }

  lemma SpikeArithmetic(r: real)
    requires r > 0.0
    ensures r / r == 1.0 && ((r - 1.0) + Square(r - 1.0)) / r == r - 1.0
  {
    QuotientOfProduct(1.0, r, r);
    var y := r - 1.0;
    assert y + y * y == y * r;
    QuotientOfProduct(y, r, y + Square(y));
  }

  /** As soon as n - 1 > t^2, n values exist that make the detector flag one: a set of n
      numeric values can hold an anomaly exactly when n - 1 > t^2. */
  lemma LargerSetsCanBeFlagged(field: string, n: nat, threshold: real, std: real)
    requires n >= 2 && threshold > 0.0 && Deviation(Spike(field, n), field, std)
    ensures |ExtractNumerics(Spike(field, n), field)| == n
    ensures Detected(Spike(field, n), field, threshold, std) != [] <==> (n - 1) as real > Square(threshold)
  {
    SpikeShape(field, n);
    SquareSign(std);
    var values := ExtractNumerics(Spike(field, n), field);
    if (n - 1) as real > Square(threshold) {
      SpikeExceeds(n, Square(threshold));
      hide Mean, Variance, Spike, Square, Times, Exceeds;
      var v := (n - 1) as real;
      assert std != 0.0;
      AnomaliesAreCounted(Spike(field, n), field, 1.0, std, threshold);
      SomeExceeding(values, 1.0, Times(Square(threshold), v), n - 1);
    } else {
      hide Mean, Variance, Spike, Square, Exceeds;
      SmallSetsAreNeverFlagged(Spike(field, n), field, threshold, std);
    }
  }

  lemma SpikeExceeds(n: nat, t: real)
    requires n >= 2 && (n - 1) as real > t
    ensures Square(n as real - 1.0) > Times(t, (n - 1) as real)
  {
    ScaleOrder((n - 1) as real, t, (n - 1) as real);
  }
}
