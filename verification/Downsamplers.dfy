/** Time-series downsampling, in exact arithmetic: the mean of each bucket, or the
    point of each bucket that spans the largest triangle (LTTB). */
module Downsamplers {
  import opened Common
  import opened RealArithmetic

  datatype DataPoint = DataPoint(timestamp: real, measurement: string, fields: map<string, Value>)

  function FieldValue(p: DataPoint, field: string): real {
    if field in p.fields && p.fields[field].Number? then p.fields[field].v else 0.0
  }

  // ------------------------------------------------------------------
  // Cutting m items into k buckets
  // ------------------------------------------------------------------

  /** `Math.floor(i * bucketSize)` where `bucketSize` is m / k. */
  function Cut(i: nat, m: nat, k: nat): int
    requires k > 0
  {
    (i as real * (m as real / k as real)).Floor
  }

  lemma QuotientTimes(i: real, m: real, k: real)
    requires k > 0.0
    ensures (i * (m / k)) * k == i * m
  {
    var q := m / k;
    assert q * k == m;
    assert (i * q) * k == i * (q * k);
  }

  lemma FloorBetween(x: real, q: int, k: real, p: real)
    requires k > 0.0 && x * k == p && q as real * k <= p < (q as real + 1.0) * k
    ensures x.Floor == q
  {
    ScaleOrder(q as real, x, k);
    ScaleOrder(q as real + 1.0, x, k);
  }

  lemma RealOfProduct(a: int, b: int)
    ensures (a * b) as real == a as real * b as real
  {
  }

  /** The floor of the product is the integer quotient i * m / k. */
  lemma CutIsQuotient(i: nat, m: nat, k: nat)
    requires k > 0
    ensures Cut(i, m, k) == i * m / k
  {
    var q := i * m / k;
    assert q * k <= i * m < (q + 1) * k;
    QuotientTimes(i as real, m as real, k as real);
    RealOfProduct(i, m);
    RealOfProduct(q, k);
    RealOfProduct(q + 1, k);
    FloorBetween(i as real * (m as real / k as real), q, k as real, (i * m) as real);
  }

  lemma NextQuotient(a: nat, m: nat, k: nat)
    requires k > 0
    ensures a / k <= (a + m) / k
    ensures m >= k ==> a / k < (a + m) / k
  {
    var q := a / k;
    assert q * k <= a;
    if m >= k {
      assert (q + 1) * k <= a + m;
      QuotientAtLeast(a + m, k, q + 1);
    } else {
      QuotientAtLeast(a + m, k, q);
    }
  }

  lemma MultipleOrder(a: int, b: int, k: nat)
    ensures a <= b ==> a * k <= b * k
  {
  }

  lemma QuotientAtLeast(a: nat, k: nat, q: nat)
    requires k > 0 && q * k <= a
    ensures q <= a / k
  {
    assert a < (a / k + 1) * k;
    MultipleOrder(a / k + 1, q, k);
  }

  /** The cuts go from 0 to m, never back, and strictly forward when there are at
      least as many items as buckets. */
  lemma CutsAdvance(i: nat, m: nat, k: nat)
    requires k > 0
    ensures Cut(0, m, k) == 0 && Cut(k, m, k) == m
    ensures 0 <= Cut(i, m, k) <= Cut(i + 1, m, k)
    ensures m >= k ==> Cut(i, m, k) < Cut(i + 1, m, k)
  {
    CutIsQuotient(0, m, k);
    CutIsQuotient(k, m, k);
    CutIsQuotient(i, m, k);
    CutIsQuotient(i + 1, m, k);
    assert (i + 1) * m == i * m + m;
    NextQuotient(i * m, m, k);
    assert k * m / k == m by { MultipleQuotient(m, k); }
  }

  lemma MultipleQuotient(m: nat, k: nat)
    requires k > 0
    ensures k * m / k == m
  {
    QuotientAtLeast(k * m, k, m);
    var q := k * m / k;
    assert q * k <= k * m;
    MultipleOrder(m + 1, q, k);
  }

  lemma {:induction false} CutsInOrder(i: nat, j: nat, m: nat, k: nat)
    requires k > 0 && i <= j
    ensures 0 <= Cut(i, m, k) <= Cut(j, m, k)
    decreases j - i
  {
    CutsAdvance(i, m, k);
    if i < j {
      CutsInOrder(i + 1, j, m, k);
    }
  }

  predicate InBucket(x: nat, b: nat, m: nat, k: nat)
    requires k > 0
  {
    b < k && Cut(b, m, k) <= x < Cut(b + 1, m, k)
  }

  /** Every item falls into exactly one bucket. */
  lemma EveryItemHasOneBucket(x: nat, m: nat, k: nat)
    requires k > 0 && x < m
    ensures exists b: nat :: InBucket(x, b, m, k)
    ensures forall b: nat, c: nat :: InBucket(x, b, m, k) && InBucket(x, c, m, k) ==> b == c
  {
    hide Cut;
    CutsAdvance(0, m, k);
    var b := FindBucket(x, 0, m, k);
    assert InBucket(x, b, m, k);
    forall b: nat, c: nat | InBucket(x, b, m, k) && InBucket(x, c, m, k) ensures b == c {
      if b < c {
        CutsInOrder(b + 1, c, m, k);
      } else if c < b {
        CutsInOrder(c + 1, b, m, k);
      }
    }
  }

  lemma {:induction false} FindBucket(x: nat, from: nat, m: nat, k: nat) returns (b: nat)
    requires k > 0 && from < k && Cut(from, m, k) <= x < m
    ensures from <= b && InBucket(x, b, m, k)
    decreases k - from
  {
    hide Cut;
    CutsAdvance(from, m, k);
    if x < Cut(from + 1, m, k) {
      b := from;
    } else {
      b := FindBucket(x, from + 1, m, k);
    }
  }

  // ------------------------------------------------------------------
  // Largest triangle, three buckets
  // ------------------------------------------------------------------

  function Timestamps(points: seq<DataPoint>): seq<real> {
    seq(|points|, i requires 0 <= i < |points| => points[i].timestamp)
  }

  function FieldValues(points: seq<DataPoint>, field: string): seq<real> {
    seq(|points|, i requires 0 <= i < |points| => FieldValue(points[i], field))
  }

  function TriangleArea(x1: real, y1: real, x2: real, y2: real, x3: real, y3: real): real {
    Abs((x1 * (y2 - y3) + x2 * (y3 - y1) + x3 * (y1 - y2)) / 2.0)
  }

  /** Half the product of the base and the height, however the triangle lies. */
  lemma AreaIsHalfTheParallelogram(x1: real, y1: real, x2: real, y2: real, x3: real, y3: real)
    ensures TriangleArea(x1, y1, x2, y2, x3, y3)
         == Abs((x2 - x1) * (y3 - y1) - (x3 - x1) * (y2 - y1)) / 2.0
  {
    var a, b, c := y2 - y3, y3 - y1, y1 - y2;
    assert x1 * a + x2 * b + x3 * c == (x2 - x1) * b + (x3 - x1) * c by {
      assert x1 * a == -(x1 * b) - x1 * c by { assert a == -b - c; }
    }
  }

  datatype Average = Average(ts: real, val: real)

  /** The triangle of the previous pick, a candidate and the next bucket's average. */
  function Area(prev: DataPoint, p: DataPoint, next: Average, field: string): real {
    TriangleArea(prev.timestamp, FieldValue(prev, field), p.timestamp, FieldValue(p, field), next.ts, next.val)
  }

  /** The place of the point that `maxAreaPoint` keeps. */
  function BestIn(bucket: seq<DataPoint>, prev: DataPoint, next: Average, field: string): (b: nat)
    requires bucket != []
    ensures b < |bucket|
  {
    if |bucket| == 1 then 0
    else
      var b := BestIn(bucket[..|bucket| - 1], prev, next, field);
      if Area(prev, bucket[|bucket| - 1], next, field) > Area(prev, bucket[b], next, field)
      then |bucket| - 1 else b
  }

  /** It is the first point of the bucket that spans the largest triangle. */
  lemma {:induction false} BestIsFirstMaximum(bucket: seq<DataPoint>, prev: DataPoint, next: Average, field: string)
    requires bucket != []
    ensures var b := BestIn(bucket, prev, next, field);
            (forall j :: 0 <= j < |bucket| ==>
               Area(prev, bucket[j], next, field) <= Area(prev, bucket[b], next, field)) &&
            (forall j :: 0 <= j < b ==> Area(prev, bucket[j], next, field) < Area(prev, bucket[b], next, field))
    decreases |bucket|
  {
    hide Area;
    if |bucket| > 1 {
      BestIsFirstMaximum(bucket[..|bucket| - 1], prev, next, field);
    }
  }

  method MaxAreaPoint(bucket: seq<DataPoint>, prev: DataPoint, next: Average, field: string)
    returns (best: Option<DataPoint>)
    ensures bucket == [] ==> best == None
    ensures bucket != [] ==> best == Some(bucket[BestIn(bucket, prev, next, field)])
  {
    hide Area;
    var maxArea := -1.0;
    best := None;
    for i := 0 to |bucket|
      invariant i == 0 ==> best == None && maxArea == -1.0
      invariant i > 0 ==>
        var b := BestIn(bucket[..i], prev, next, field);
        best == Some(bucket[b]) && maxArea == Area(prev, bucket[b], next, field)
    {
      var area := Area(prev, bucket[i], next, field);
      AreaNotNegative(prev, bucket[i], next, field);
      assert bucket[..i + 1][..i] == bucket[..i];
      if area > maxArea {
        maxArea := area;
        best := Some(bucket[i]);
      }
    }
    assert bucket[..|bucket|] == bucket;
  }

  lemma AreaNotNegative(prev: DataPoint, p: DataPoint, next: Average, field: string)
    ensures Area(prev, p, next, field) >= 0.0
  {
  }

  lemma CutRange(b: nat, m: nat, k: nat)
    requires b < k
    ensures 0 <= Cut(b, m, k) <= Cut(b + 1, m, k) <= m
    ensures m >= k ==> Cut(b, m, k) < Cut(b + 1, m, k)
  {
    CutsAdvance(b, m, k);
    CutsInOrder(b + 1, k, m, k);
  }

  /** The points of bucket `b` when the interior points are cut into `k` buckets. */
  function Bucket(points: seq<DataPoint>, b: nat, k: nat): seq<DataPoint>
    requires |points| >= 2 && b < k
  {
    CutRange(b, |points| - 2, k);
    points[Cut(b, |points| - 2, k) + 1..Cut(b + 1, |points| - 2, k) + 1]
  }

  /** The average of bucket `b`, or the last point after the last bucket. */
  function BucketAverage(points: seq<DataPoint>, b: nat, k: nat, field: string): Average
    requires |points| >= 2
  {
    if b >= k then Average(points[|points| - 1].timestamp, FieldValue(points[|points| - 1], field))
    else
      var bucket := Bucket(points, b, k);
      var n := Max(|bucket|, 1) as real;
      Average(Sum(Timestamps(bucket)) / n, Sum(FieldValues(bucket, field)) / n)
  }

  /** The point's value in the field, and zero when it has no number there. */
  lemma FieldValueIsTheNumber(p: DataPoint, field: string)
    ensures if field in p.fields && p.fields[field].Number? then FieldValue(p, field) == p.fields[field].v
            else FieldValue(p, field) == 0.0
  {
  }

  /** What the next pick is compared with: the means over the bucket, with a point without a
      number counting as zero; after the last bucket, the last point itself. */
  lemma AverageIsTheMean(points: seq<DataPoint>, b: nat, k: nat, field: string)
    requires |points| - 2 >= k
    ensures var avg := BucketAverage(points, b, k, field);
            if b >= k then
              avg.ts == points[|points| - 1].timestamp && avg.val == FieldValue(points[|points| - 1], field)
            else
              var from, upTo := Cut(b, |points| - 2, k) + 1, Cut(b + 1, |points| - 2, k) + 1;
              0 < from < upTo < |points| &&
              Times((upTo - from) as real, avg.ts) == Sum(Timestamps(points[from..upTo])) &&
              Times((upTo - from) as real, avg.val) == Sum(FieldValues(points[from..upTo], field))
  {
    if b < k {
      hide Cut;
      CutRange(b, |points| - 2, k);
      var bucket := Bucket(points, b, k);
      MeanTimesCount(|bucket| as real, Sum(Timestamps(bucket)));
      MeanTimesCount(|bucket| as real, Sum(FieldValues(bucket, field)));
    }
  }

  lemma MeanTimesCount(n: real, total: real)
    requires n > 0.0
    ensures Times(n, total / n) == total
  {
  }

  /** The first point's place and the picks of the first `i` of `k` buckets. */
  function Picks(points: seq<DataPoint>, field: string, k: nat, i: nat): (picks: seq<nat>)
    requires |points| >= 2 && i <= k
    ensures picks != [] && forall j :: 0 <= j < |picks| ==> picks[j] < |points|
  {
    if i == 0 then [0]
    else
      var before := Picks(points, field, k, i - 1);
      var bucket := Bucket(points, i - 1, k);
      if bucket == [] then before
      else
        CutRange(i - 1, |points| - 2, k);
        before + [Cut(i - 1, |points| - 2, k) + 1 +
                  BestIn(bucket, points[before[|before| - 1]], BucketAverage(points, i, k, field), field)]
  }

  function LttbIndices(points: seq<DataPoint>, field: string, target: int): (indices: seq<nat>)
    requires points != []
    ensures forall j :: 0 <= j < |indices| ==> indices[j] < |points|
  {
    if target < 3 || |points| < 2 then [0, |points| - 1]
    else Picks(points, field, target - 2, target - 2) + [|points| - 1]
  }

  function At(points: seq<DataPoint>, indices: seq<nat>): seq<DataPoint>
    requires forall j :: 0 <= j < |indices| ==> indices[j] < |points|
  {
    seq(|indices|, j requires 0 <= j < |indices| => points[indices[j]])
  }

  method LttbDownsample(points: seq<DataPoint>, field: string, target: int) returns (result: seq<DataPoint>)
    requires |points| > target
    ensures result == if points == [] then [] else At(points, LttbIndices(points, field, target))
  {
    if points == [] {
      return [];
    }
    LttbPoints(points, field, target);
    hide *;
    var first, last := points[0], points[|points| - 1];
    result := [first];
    var bucketCount := target - 2;
    if bucketCount > 0 {
      result := PickFromBuckets(points, field, bucketCount);
    }
    result := result + [last];
  }

  lemma LttbPoints(points: seq<DataPoint>, field: string, target: int)
    requires points != [] && |points| > target
    ensures At(points, LttbIndices(points, field, target)) ==
            (if target < 3 then [points[0]] else At(points, Picks(points, field, target - 2, target - 2)))
            + [points[|points| - 1]]
  {
    hide Picks;
  }

  /** The loop over the buckets. */
  method PickFromBuckets(points: seq<DataPoint>, field: string, bucketCount: nat) returns (result: seq<DataPoint>)
    requires |points| >= 2
    ensures result == At(points, Picks(points, field, bucketCount, bucketCount))
  {
    result := [points[0]];
    for i := 0 to bucketCount
      invariant result == At(points, Picks(points, field, bucketCount, i))
    {
      PickedPoint(points, field, bucketCount, i, result);
      hide Cut, BestIn, BucketAverage, Picks, Bucket, At;
      var bucket := Bucket(points, i, bucketCount);
      var nextAvg := BucketAverage(points, i + 1, bucketCount, field);
      var best := MaxAreaPoint(bucket, result[|result| - 1], nextAvg, field);
      if best.Some? {
        result := result + [best.value];
      }
    }
  }

  lemma PickedPoint(points: seq<DataPoint>, field: string, k: nat, i: nat, result: seq<DataPoint>)
    requires |points| >= 2 && i < k && result == At(points, Picks(points, field, k, i))
    ensures result != []
    ensures var bucket := Bucket(points, i, k);
            var prev := result[|result| - 1];
            At(points, Picks(points, field, k, i + 1)) ==
            if bucket == [] then result
            else result + [bucket[BestIn(bucket, prev, BucketAverage(points, i + 1, k, field), field)]]
  {
    hide Cut, BestIn, BucketAverage;
    CutRange(i, |points| - 2, k);
  }

  // ------------------------------------------------------------------
  // What LTTB keeps
  // ------------------------------------------------------------------

  /** Pick b + 1 lies in bucket b of the interior points. */
  ghost predicate PickedFrom(picks: seq<nat>, b: nat, m: int, k: nat)
  {
    0 <= m && 0 < k && b + 1 < |picks| && picks[b + 1] > 0 && InBucket(picks[b + 1] - 1, b, m, k)
  }

  ghost predicate AllPicked(picks: seq<nat>, i: nat, m: int, k: nat)
  {
    forall b :: 0 <= b < i ==> PickedFrom(picks, b, m, k)
  }

  lemma {:induction false} PicksLieInTheirBuckets(points: seq<DataPoint>, field: string, k: nat, i: nat)
    requires |points| - 2 >= k > 0 && i <= k
    ensures var picks := Picks(points, field, k, i);
            |picks| == i + 1 && picks[0] == 0 &&
            AllPicked(picks, i, |points| - 2, k)
  {
    hide Cut, BestIn, BucketAverage;
    if i > 0 {
      var m := |points| - 2;
      PicksLieInTheirBuckets(points, field, k, i - 1);
      CutRange(i - 1, m, k);
      AllPickedMonotone(Picks(points, field, k, i - 1), Picks(points, field, k, i), i - 1, m, k);
      assert PickedFrom(Picks(points, field, k, i), i - 1, m, k);
    }
  }

  /** `p` is the first point of its bucket with the largest triangle. */
  ghost predicate SpansLargest(points: seq<DataPoint>, field: string, k: nat, b: nat, prev: nat, p: nat)
    requires |points| >= 2 && b < k && prev < |points| && p < |points|
  {
    var next := BucketAverage(points, b + 1, k, field);
    forall j :: 0 < j < |points| && InBucket(j - 1, b, |points| - 2, k) ==>
      Area(points[prev], points[j], next, field) <= Area(points[prev], points[p], next, field) &&
      (j < p ==> Area(points[prev], points[j], next, field) < Area(points[prev], points[p], next, field))
  }

  ghost predicate AllSpanLargest(points: seq<DataPoint>, field: string, picks: seq<nat>, k: nat)
    requires |picks| >= k + 1 && |points| >= 2
    requires forall j :: 0 <= j < |picks| ==> picks[j] < |points|
  {
    forall b, c :: 0 <= b < k && c == b + 1 ==> SpansLargest(points, field, k, b, picks[b], picks[c])
  }

  lemma BestSpansLargest(points: seq<DataPoint>, field: string, k: nat, b: nat, prev: nat)
    requires |points| - 2 >= k && b < k && prev < |points| && Bucket(points, b, k) != []
    ensures var best := BestIn(Bucket(points, b, k), points[prev], BucketAverage(points, b + 1, k, field), field);
            0 <= Cut(b, |points| - 2, k) + 1 + best < |points| &&
            SpansLargest(points, field, k, b, prev, Cut(b, |points| - 2, k) + 1 + best)
  {
    hide Cut, BestIn, BucketAverage, Area;
    var m := |points| - 2;
    CutRange(b, m, k);
    var next := BucketAverage(points, b + 1, k, field);
    var bucket := Bucket(points, b, k);
    BestIsFirstMaximum(bucket, points[prev], next, field);
    var start := Cut(b, m, k) + 1;
    forall j | 0 < j < |points| && InBucket(j - 1, b, m, k) ensures bucket[j - start] == points[j] {
    }
  }

  lemma {:induction false} PicksSpanLargest(points: seq<DataPoint>, field: string, k: nat, i: nat, b: nat)
    requires |points| - 2 >= k && b < i <= k
    ensures var picks := Picks(points, field, k, i);
            |picks| == i + 1 && SpansLargest(points, field, k, b, picks[b], picks[b + 1])
  {
    hide Cut, BestIn, BucketAverage, SpansLargest, InBucket;
    PicksLieInTheirBuckets(points, field, k, i);
    PicksLieInTheirBuckets(points, field, k, i - 1);
    CutRange(i - 1, |points| - 2, k);
    var before := Picks(points, field, k, i - 1);
    if b < i - 1 {
      PicksSpanLargest(points, field, k, i - 1, b);
    } else {
      BestSpansLargest(points, field, k, b, before[b]);
    }
  }

  /** For 3 <= target < n, LTTB keeps exactly `target` points of the input: the first,
      the last and, in strictly increasing order, one of each interior bucket, each the
      first to span the largest triangle with the previous pick and the next average. */
  lemma LttbKeepsOnePerBucket(points: seq<DataPoint>, field: string, target: nat)
    requires 3 <= target < |points|
    ensures var picks := LttbIndices(points, field, target);
            |picks| == target && picks[0] == 0 && picks[target - 1] == |points| - 1 &&
            AllPicked(picks, target - 2, |points| - 2, target - 2) &&
            AllSpanLargest(points, field, picks, target - 2) &&
            (forall i, j :: 0 <= i < j < target ==> picks[i] < picks[j])
  {
    hide Cut, BestIn, BucketAverage, SpansLargest, Picks, InBucket;
    var k := target - 2;
    var picks := LttbIndices(points, field, target);
    PicksLieInTheirBuckets(points, field, k, k);
    AllPickedMonotone(Picks(points, field, k, k), picks, k, |points| - 2, k);
    forall b, c | 0 <= b < k && c == b + 1 ensures SpansLargest(points, field, k, b, picks[b], picks[c]) {
      PicksSpanLargest(points, field, k, k, b);
    }
    forall i, j | 0 <= i < j < target ensures picks[i] < picks[j] {
      PicksIncrease(picks, |points| - 2, k, i, j);
    }
  }

  lemma AllPickedMonotone(picks: seq<nat>, longer: seq<nat>, i: nat, m: int, k: nat)
    requires AllPicked(picks, i, m, k) && picks <= longer
    ensures AllPicked(longer, i, m, k)
  {
    hide Cut;
    forall b | 0 <= b < i ensures PickedFrom(longer, b, m, k) {
      assert PickedFrom(picks, b, m, k);
    }
  }

  lemma PicksIncrease(picks: seq<nat>, m: nat, k: nat, i: nat, j: nat)
    requires i < j < |picks| == k + 2 && k > 0
    requires picks[0] == 0 && picks[k + 1] == m + 1
    requires AllPicked(picks, k, m, k)
    ensures picks[i] < picks[j]
  {
    hide Cut;
    if j <= k {
      assert PickedFrom(picks, j - 1, m, k);
      if i > 0 {
        assert PickedFrom(picks, i - 1, m, k);
        CutsInOrder(i, j - 1, m, k);
      }
    } else if i > 0 {
      assert PickedFrom(picks, i - 1, m, k);
      CutsInOrder(i, k, m, k);
      CutsAdvance(0, m, k);
    }
  }

  // ------------------------------------------------------------------
  // Bucket means
  // ------------------------------------------------------------------

  function NumericValues(points: seq<DataPoint>, field: string): seq<real> {
    if points == [] then []
    else
      var p := points[|points| - 1];
      NumericValues(points[..|points| - 1], field) +
      (if field in p.fields && p.fields[field].Number? then [p.fields[field].v] else [])
  }

  /** `Math.round`. */
  function Round(x: real): real {
    (x + 0.5).Floor as real
  }

  function MeanValue(bucket: seq<DataPoint>, field: string): real {
    var values := NumericValues(bucket, field);
    if values == [] then 0.0 else Sum(values) / |values| as real
  }

  function MeanPoint(bucket: seq<DataPoint>, field: string): DataPoint
    requires bucket != []
  {
    DataPoint(Round(Sum(Timestamps(bucket)) / |bucket| as real), bucket[0].measurement,
              map[field := Number(MeanValue(bucket, field))])
  }

  /** The point that stands for a bucket: its time is the mean of the times, rounded to a whole
      number and up from the middle, and its one field the mean of the numbers there are. */
  lemma MeanPointStandsForTheBucket(bucket: seq<DataPoint>, field: string)
    requires bucket != []
    ensures var p := MeanPoint(bucket, field);
            var mean := Sum(Timestamps(bucket)) / |bucket| as real;
            p.timestamp == p.timestamp.Floor as real && p.timestamp - 0.5 <= mean < p.timestamp + 0.5 &&
            p.measurement == bucket[0].measurement && p.fields.Keys == {field} && p.fields[field].Number? &&
            Times(|NumericValues(bucket, field)| as real, p.fields[field].v) == Sum(NumericValues(bucket, field)) &&
            (NumericValues(bucket, field) == [] ==> p.fields[field].v == 0.0)
  {
    BucketSumIsMeanTimesCount(bucket, field);
    hide Sum, NumericValues, Times;
  }

  lemma NumericValueOfOne(p: DataPoint, field: string)
    ensures NumericValues([p], field)
         == if field in p.fields && p.fields[field].Number? then [p.fields[field].v] else []
  {
    assert [p][..0] == [];
  }

  /** With at least as many points as buckets, the outputs are those of the buckets in turn. */
  lemma {:induction false} EachMeanIsOfItsBucket(points: seq<DataPoint>, field: string, k: nat, i: nat, b: nat)
    requires |points| >= k && b < i <= k
    ensures var from, upTo := Cut(b, |points|, k), Cut(b + 1, |points|, k);
            0 <= from < upTo <= |points| && |MeanPoints(points, field, k, i)| == i &&
            MeanPoints(points, field, k, i)[b] == MeanPoint(points[from..upTo], field)
    decreases i
  {
    hide Cut, MeanPoint;
    CutRange(b, |points|, k);
    CutRange(i - 1, |points|, k);
    OneMeanPerBucket(points, field, k, i);
    OneMeanPerBucket(points, field, k, i - 1);
    if b < i - 1 {
      EachMeanIsOfItsBucket(points, field, k, i - 1, b);
    }
  }

  /** The points of bucket `b` when all points are cut into `k` buckets. */
  function MeanBucket(points: seq<DataPoint>, b: nat, k: nat): seq<DataPoint>
    requires b < k
  {
    CutRange(b, |points|, k);
    points[Cut(b, |points|, k)..Min(Cut(b + 1, |points|, k), |points|)]
  }

  function MeanPoints(points: seq<DataPoint>, field: string, k: nat, i: nat): seq<DataPoint>
    requires i <= k
  {
    if i == 0 then []
    else
      var bucket := MeanBucket(points, i - 1, k);
      MeanPoints(points, field, k, i - 1) + (if bucket == [] then [] else [MeanPoint(bucket, field)])
  }

  method MeanDownsample(points: seq<DataPoint>, field: string, target: int) returns (result: seq<DataPoint>)
    requires |points| > target
    ensures result == if target <= 0 then [] else MeanPoints(points, field, target, target)
  {
    if target <= 0 {
      return [];
    }
    result := MeanOfBuckets(points, field, target);
  }

  /** The loop over the buckets; the means exist because no bucket is empty when pushed. */
  method MeanOfBuckets(points: seq<DataPoint>, field: string, target: nat) returns (result: seq<DataPoint>)
    ensures result == MeanPoints(points, field, target, target)
  {
    result := [];
    for i := 0 to target
      invariant result == MeanPoints(points, field, target, i)
    {
      NextMean(points, field, target, i);
      hide *;
      var bucket := MeanBucket(points, i, target);
      if bucket != [] {
        result := result + [MeanPoint(bucket, field)];
      }
    }
  }

  lemma NextMean(points: seq<DataPoint>, field: string, k: nat, i: nat)
    requires i < k
    ensures var bucket := MeanBucket(points, i, k);
            MeanPoints(points, field, k, i + 1) ==
            MeanPoints(points, field, k, i) + (if bucket == [] then [] else [MeanPoint(bucket, field)])
  {
    hide MeanBucket, MeanPoint;
  }

  lemma {:induction false} SumConcat(first: seq<real>, second: seq<real>)
    ensures Sum(first + second) == Sum(first) + Sum(second)
    decreases |second|
  {
    if second == [] {
      assert first + second == first;
    } else {
      SumConcat(first, second[..|second| - 1]);
      assert (first + second)[..|first + second| - 1] == first + second[..|second| - 1];
    }
  }

  lemma {:induction false} NumericValuesConcat(first: seq<DataPoint>, second: seq<DataPoint>, field: string)
    ensures NumericValues(first + second, field) == NumericValues(first, field) + NumericValues(second, field)
    decreases |second|
  {
    if second == [] {
      assert first + second == first;
    } else {
      NumericValuesConcat(first, second[..|second| - 1], field);
      assert (first + second)[..|first + second| - 1] == first + second[..|second| - 1];
    }
  }

  lemma BucketSumIsMeanTimesCount(bucket: seq<DataPoint>, field: string)
    ensures Times(|NumericValues(bucket, field)| as real, MeanValue(bucket, field)) == Sum(NumericValues(bucket, field))
  {
    var values := NumericValues(bucket, field);
    if values != [] {
      assert Sum(values) / |values| as real * |values| as real == Sum(values);
    }
  }

  /** The value of each output point, weighted by the numeric values it stands for. */
  function WeightedTotal(points: seq<DataPoint>, field: string, k: nat, i: nat): real
    requires i <= k
  {
    if i == 0 then 0.0
    else
      var bucket := MeanBucket(points, i - 1, k);
      WeightedTotal(points, field, k, i - 1) +
      (if bucket == [] then 0.0
       else Times(|NumericValues(bucket, field)| as real, FieldValue(MeanPoint(bucket, field), field)))
  }

  lemma {:induction false} WeightedTotalOfPrefix(points: seq<DataPoint>, field: string, k: nat, i: nat)
    requires k > 0 && i <= k
    ensures 0 <= Cut(i, |points|, k) <= |points|
    ensures WeightedTotal(points, field, k, i) == Sum(NumericValues(points[..Cut(i, |points|, k)], field))
  {
    hide Cut, Times, MeanValue;
    CutsAdvance(0, |points|, k);
    CutsInOrder(i, k, |points|, k);
    if i > 0 {
      WeightedTotalOfPrefix(points, field, k, i - 1);
      CutRange(i - 1, |points|, k);
      BucketJoins(points, field, k, i - 1);
      BucketSumIsMeanTimesCount(MeanBucket(points, i - 1, k), field);
      hide NumericValues, Sum, MeanBucket;
    }
  }

  lemma BucketJoins(points: seq<DataPoint>, field: string, k: nat, b: nat)
    requires b < k && 0 <= Cut(b, |points|, k) <= Cut(b + 1, |points|, k) <= |points|
    ensures Sum(NumericValues(points[..Cut(b + 1, |points|, k)], field))
         == Sum(NumericValues(points[..Cut(b, |points|, k)], field)) +
            Sum(NumericValues(MeanBucket(points, b, k), field))
    ensures MeanBucket(points, b, k) == [] ==> Sum(NumericValues(MeanBucket(points, b, k), field)) == 0.0
  {
    hide Cut;
    var before, bucket := points[..Cut(b, |points|, k)], MeanBucket(points, b, k);
    assert points[..Cut(b + 1, |points|, k)] == before + bucket;
    NumericValuesConcat(before, bucket, field);
    SumConcat(NumericValues(before, field), NumericValues(bucket, field));
  }

  /** Averaging loses nothing: the outputs, weighted by what they stand for, add up to
      the sum of all numeric values of the input. */
  lemma MeansConserveTheTotal(points: seq<DataPoint>, field: string, target: nat)
    requires target > 0
    ensures WeightedTotal(points, field, target, target) == Sum(NumericValues(points, field))
  {
    CutsAdvance(0, |points|, target);
    WeightedTotalOfPrefix(points, field, target, target);
    assert points[..|points|] == points;
  }

  lemma {:induction false} OneMeanPerBucket(points: seq<DataPoint>, field: string, k: nat, i: nat)
    requires |points| >= k > 0 && i <= k
    ensures |MeanPoints(points, field, k, i)| == i
  {
    hide Cut, MeanPoint;
    if i > 0 {
      OneMeanPerBucket(points, field, k, i - 1);
      CutRange(i - 1, |points|, k);
    }
  }

  // ------------------------------------------------------------------
  // downsample
  // ------------------------------------------------------------------

  datatype Algorithm = MeanOf | Lttb

  method Downsample(points: seq<DataPoint>, field: string, target: int, algorithm: Algorithm)
    returns (result: seq<DataPoint>)
    ensures result == Downsampled(points, field, target, algorithm)
  {
    if |points| <= target {
      return points;
    }
    match algorithm {
      case MeanOf => result := MeanDownsample(points, field, target);
      case Lttb => result := LttbDownsample(points, field, target);
    }
  }

  function Downsampled(points: seq<DataPoint>, field: string, target: int, algorithm: Algorithm): seq<DataPoint> {
    if |points| <= target then points
    else
      match algorithm
      case MeanOf => if target <= 0 then [] else MeanPoints(points, field, target, target)
      case Lttb => if points == [] then [] else At(points, LttbIndices(points, field, target))
  }

  /** How many points come out, for every target. The documented "at most the target"
      holds of the mean for every target that is not negative, and of LTTB exactly when
      the input is no longer than the target or the target is at least two. */
  lemma OutputSize(points: seq<DataPoint>, field: string, target: int)
    ensures |Downsampled(points, field, target, MeanOf)| == Min(|points|, Max(target, 0))
    ensures |Downsampled(points, field, target, Lttb)| <= target <==> |points| <= target || target >= 2
    ensures target >= 2 ==> |Downsampled(points, field, target, Lttb)| == Min(|points|, target)
  {
    hide MeanPoints, Picks;
    if 0 < target < |points| {
      OneMeanPerBucket(points, field, target, target);
    }
    if 3 <= target < |points| {
      LttbSize(points, field, target);
    }
  }

  lemma LttbSize(points: seq<DataPoint>, field: string, target: nat)
    requires 3 <= target < |points|
    ensures |LttbIndices(points, field, target)| == target
  {
    PicksLieInTheirBuckets(points, field, target - 2, target - 2);
  }
}
