/** Ray casting on GeoJSON rings, over the real plane: x is the longitude, y the latitude. */
module Geofences {
  import opened Common
  import opened RealArithmetic

  datatype Point = Point(lat: real, lng: real)

  datatype Coord = Coord(x: real, y: real)

  datatype BoundingBox = BoundingBox(minLat: real, maxLat: real, minLng: real, maxLng: real)

  /** A GeoJSON polygon: the exterior ring first, then holes. */
  datatype Polygon = Polygon(coordinates: seq<seq<Coord>>)

  predicate IsInsideBoundingBox(box: BoundingBox, p: Point) {
    p.lat >= box.minLat && p.lat <= box.maxLat && p.lng >= box.minLng && p.lng <= box.maxLng
  }

  predicate Above(a: Coord, p: Point) {
    a.y > p.lat
  }

  predicate Straddles(a: Coord, b: Coord, p: Point) {
    Above(a, p) != Above(b, p)
  }

  /** Where the line through `a` and `b` meets the point's latitude. */
  function MeetsAt(a: Coord, b: Coord, p: Point): real
    requires Straddles(a, b, p)
  {
    (b.x - a.x) * (p.lat - a.y) / (b.y - a.y) + a.x
  }

  /** The test `intersects` of the loop, for the edge from vertex `b` to vertex `a`. */
  predicate Crosses(a: Coord, b: Coord, p: Point) {
    Straddles(a, b, p) && p.lng < MeetsAt(a, b, p)
  }

  /** The parity of the crossings along an open path. */
  function PathParity(path: seq<Coord>, p: Point): bool {
    if |path| < 2 then false
    else PathParity(path[..|path| - 1], p) != Crosses(path[|path| - 1], path[|path| - 2], p)
  }

  /** The parity of the crossings around a ring, whose last vertex is joined to the first. */
  function RingParity(ring: seq<Coord>, p: Point): bool {
    if ring == [] then false else PathParity(ring, p) != Crosses(ring[0], ring[|ring| - 1], p)
  }

  // ------------------------------------------------------------------
  // The code
  // ------------------------------------------------------------------

  method RayCast(ring: seq<Coord>, lat: real, lng: real) returns (inside: bool)
    ensures inside == RingParity(ring, Point(lat, lng))
  {
    hide Crosses;
    inside := false;
    var n := |ring|;
    ghost var p := Point(lat, lng);
    var i, j := 0, n - 1;
    while i < n
      invariant 0 <= i <= n
      invariant j == if i == 0 then n - 1 else i - 1
      invariant inside == if i == 0 then false
                          else PathParity(ring[..i], p) != Crosses(ring[0], ring[n - 1], p)
    {
      var a, b := ring[i], ring[j];
      var intersects := Crosses(a, b, Point(lat, lng));
      if intersects {
        inside := !inside;
      }
      var path := ring[..i + 1];
      assert path[..i] == ring[..i];
      assert i > 0 ==> PathParity(path, p) == (PathParity(path[..i], p) != Crosses(path[i], path[i - 1], p));
      j := i;
      i := i + 1;
    }
    assert ring[..n] == ring;
  }

  method IsInsidePolygon(polygon: Polygon, p: Point) returns (inside: bool)
    ensures inside == InPolygon(polygon, p)
    ensures inside <==> polygon.coordinates != [] && |polygon.coordinates[0]| >= 3 &&
                        RingParity(polygon.coordinates[0], p)
  {
    if polygon.coordinates == [] || |polygon.coordinates[0]| < 3 {
      return false;
    }
    inside := RayCast(polygon.coordinates[0], p.lat, p.lng);
  }

  predicate InPolygon(polygon: Polygon, p: Point) {
    polygon.coordinates != [] && |polygon.coordinates[0]| >= 3 && RingParity(polygon.coordinates[0], p)
  }

  function Coords(points: seq<Point>): seq<Coord> {
    seq(|points|, i requires 0 <= i < |points| => Coord(points[i].lng, points[i].lat))
  }

  function Closed(coords: seq<Coord>): seq<Coord> {
    if coords == [] || coords[0] == coords[|coords| - 1] then coords else coords + [coords[0]]
  }

  method ToPolygon(ring: seq<Point>) returns (polygon: Polygon)
    ensures polygon == Polygon([Closed(Coords(ring))])
  {
    var coords := Coords(ring);
    if |coords| == 0 {
      return Polygon([[]]);
    }
    var first, last := coords[0], coords[|coords| - 1];
    var isClosed := first.x == last.x && first.y == last.y;
    if !isClosed {
      coords := coords + [first];
    }
    return Polygon([coords]);
  }

  function FromPolygon(polygon: Polygon): seq<Point> {
    if polygon.coordinates == [] then []
    else var ring := polygon.coordinates[0];
         seq(|ring|, i requires 0 <= i < |ring| => Point(ring[i].y, ring[i].x))
  }

  /** Section 3.1.6 of RFC 7946: the ring of the polygon starts and ends with the same
      position. Reading it back gives the points, with the first repeated at the end
      when the ring was open; closing again changes nothing. */
  lemma PolygonRoundTrip(ring: seq<Point>)
    ensures var back := FromPolygon(Polygon([Closed(Coords(ring))]));
            back == (if ring == [] || ring[0] == ring[|ring| - 1] then ring else ring + [ring[0]]) &&
            (back != [] ==> back[0] == back[|back| - 1]) &&
            Closed(Coords(back)) == Closed(Coords(ring))
  {
    var closed := Closed(Coords(ring));
    var back := FromPolygon(Polygon([closed]));
    assert forall i :: 0 <= i < |ring| ==> back[i] == ring[i];
    assert Coords(back) == closed;
  }

  // ------------------------------------------------------------------
  // One edge
  // ------------------------------------------------------------------

  lemma EdgeHasNoDirection(a: Coord, b: Coord, p: Point)
    ensures Crosses(a, b, p) == Crosses(b, a, p)
  {
    if Straddles(a, b, p) {
      var d := b.y - a.y;
      var m := (b.x - a.x) / d;
      assert m * d == b.x - a.x;
      calc {
        MeetsAt(a, b, p);
        { ScaledDivision(b.x - a.x, p.lat - a.y, d); }
        m * (p.lat - a.y) + a.x;
        m * (p.lat - b.y) + m * d + a.x;
        m * (p.lat - b.y) + b.x;
        { ScaledDivision(a.x - b.x, p.lat - b.y, -d); assert (a.x - b.x) / -d == m; }
        MeetsAt(b, a, p);
      }
    }
  }

  lemma ScaledDivision(u: real, v: real, d: real)
    requires d != 0.0
    ensures u * v / d == (u / d) * v
  {
    var q := u / d;
    assert u == q * d;
    assert u * v == (q * v) * d;
  }

  /** A straddling edge meets the latitude between its two ends. */
  lemma MeetsBetweenTheEnds(a: Coord, b: Coord, p: Point, low: real, high: real)
    requires Straddles(a, b, p) && low <= a.x <= high && low <= b.x <= high
    ensures low <= MeetsAt(a, b, p) <= high
  {
    var d := b.y - a.y;
    var t := (p.lat - a.y) / d;
    ProperFraction(p.lat - a.y, d);
    assert (b.x - a.x) * (p.lat - a.y) == (p.lat - a.y) * (b.x - a.x);
    ScaledDivision(p.lat - a.y, b.x - a.x, d);
    assert MeetsAt(a, b, p) == t * (b.x - a.x) + a.x == (1.0 - t) * a.x + t * b.x;
    WeightedMean(t, a.x, b.x, low, high);
  }

  lemma ProperFraction(n: real, d: real)
    requires 0.0 <= n <= d || d <= n <= 0.0
    requires d != 0.0
    ensures 0.0 <= n / d <= 1.0
  {
    var q := n / d;
    assert q * d == n;
    assert (1.0 - q) * d == d - n;
    SignOfProduct(q, d);
    SignOfProduct(1.0 - q, d);
  }

  lemma SignOfProduct(q: real, d: real)
    requires d != 0.0
    ensures q < 0.0 ==> if d > 0.0 then q * d < 0.0 else q * d > 0.0
  {
  }

  lemma WeightedMean(t: real, u: real, v: real, low: real, high: real)
    requires 0.0 <= t <= 1.0 && low <= u <= high && low <= v <= high
    ensures low <= (1.0 - t) * u + t * v <= high
  {
    var w := 1.0 - t;
    ProductNotNegative(w, u - low);
    ProductNotNegative(t, v - low);
    ProductNotNegative(w, high - u);
    ProductNotNegative(t, high - v);
    assert w * u + t * v - low == w * (u - low) + t * (v - low);
    assert high - (w * u + t * v) == w * (high - u) + t * (high - v);
  }

  // ------------------------------------------------------------------
  // Rotating, reversing, closing, cutting
  // ------------------------------------------------------------------

  lemma {:induction false} PathJoin(first: seq<Coord>, second: seq<Coord>, p: Point)
    requires first != [] && second != []
    ensures PathParity(first + second, p)
         == (PathParity(first, p) != (Crosses(second[0], first[|first| - 1], p) != PathParity(second, p)))
    decreases |second|
  {
    var all := first + second;
    var init := second[..|second| - 1];
    assert all[..|all| - 1] == first + init;
    if init == [] {
      assert first + init == first;
    } else {
      PathJoin(first, init, p);
    }
  }

  /** The answer does not depend on the vertex the ring starts with. */
  lemma RotationKeepsParity(first: seq<Coord>, second: seq<Coord>, p: Point)
    ensures RingParity(first + second, p) == RingParity(second + first, p)
  {
    if first == [] {
      assert first + second == second == second + first;
    } else if second == [] {
      assert first + second == first == second + first;
    } else {
      PathJoin(first, second, p);
      PathJoin(second, first, p);
    }
  }

  lemma {:induction false} ReversedPathParity(path: seq<Coord>, p: Point)
    ensures PathParity(Reversed(path), p) == PathParity(path, p)
    decreases |path|
  {
    if |path| >= 2 {
      var init, last := path[..|path| - 1], path[|path| - 1];
      ReversedPathParity(init, p);
      PathJoin([last], Reversed(init), p);
      EdgeHasNoDirection(last, init[|init| - 1], p);
    } else {
    }
  }

  /** The answer does not depend on the ring's orientation. */
  lemma ReversalKeepsParity(ring: seq<Coord>, p: Point)
    ensures RingParity(Reversed(ring), p) == RingParity(ring, p)
  {
    if ring != [] {
      ReversedPathParity(ring, p);
      EdgeHasNoDirection(ring[0], ring[|ring| - 1], p);
    }
  }

  /** Closing a ring does not change the ray cast. */
  lemma ClosingKeepsParity(coords: seq<Coord>, p: Point)
    ensures RingParity(Closed(coords), p) == RingParity(coords, p)
  {
    if Closed(coords) != coords {
      PathJoin(coords, [coords[0]], p);
    }
  }

  lemma TwoVerticesEncloseNothing(coords: seq<Coord>, p: Point)
    requires |coords| == 2
    ensures !RingParity(coords, p)
  {
    EdgeHasNoDirection(coords[0], coords[1], p);
    assert PathParity(coords[..1], p) == false;
    hide Crosses;
    assert PathParity(coords, p) == Crosses(coords[1], coords[0], p);
  }

  /** `toPolygon` gives every ring, short ones included, the answer of the ring itself. */
  lemma ClosingKeepsTheAnswer(coords: seq<Coord>, p: Point)
    ensures InPolygon(Polygon([Closed(coords)]), p) == InPolygon(Polygon([coords]), p)
  {
    ClosingKeepsParity(coords, p);
    if |coords| == 2 {
      TwoVerticesEncloseNothing(coords, p);
    }
  }

  /** Cutting a polygon along a chord: a point is inside the whole exactly when it is
      inside one of the two parts and not the other, so non-overlapping parts share
      no point and leave none out, boundaries included. */
  lemma ChordSplitsParity(ring: seq<Coord>, k: nat, p: Point)
    requires 0 < k < |ring|
    ensures RingParity(ring, p) == (RingParity(ring[..k + 1], p) != RingParity(ring[k..] + [ring[0]], p))
  {
    var left, right := ring[..k + 1], ring[k..];
    var tail := ring[k + 1..];
    assert ring == ring[..k] + right;
    PathJoin(ring[..k], right, p);
    assert left[..k] == ring[..k];
    PathJoin(right, [ring[0]], p);
    EdgeHasNoDirection(ring[0], ring[k], p);
  }

  // ------------------------------------------------------------------
  // Outside the bounding box
  // ------------------------------------------------------------------

  ghost predicate Encloses(box: BoundingBox, ring: seq<Coord>) {
    forall i :: 0 <= i < |ring| ==> IsInsideBoundingBox(box, Point(ring[i].y, ring[i].x))
  }

  /** When every straddling edge is crossed, the crossings telescope: their parity is
      whether the two ends lie on different sides. */
  lemma {:induction false} StraddlesTelescope(path: seq<Coord>, p: Point)
    requires path != []
    requires forall i, j :: 0 <= i < |path| && 0 <= j < |path| ==>
               Crosses(path[i], path[j], p) == Straddles(path[i], path[j], p)
    ensures PathParity(path, p) == Straddles(path[0], path[|path| - 1], p)
    decreases |path|
  {
    if |path| >= 2 {
      StraddlesTelescope(path[..|path| - 1], p);
    }
  }

  lemma {:induction false} NoCrossingsNoParity(path: seq<Coord>, p: Point)
    requires forall i, j :: 0 <= i < |path| && 0 <= j < |path| ==> !Crosses(path[i], path[j], p)
    ensures !PathParity(path, p)
    decreases |path|
  {
    if |path| >= 2 {
      NoCrossingsNoParity(path[..|path| - 1], p);
    }
  }

  /** West of every vertex the ray crosses each straddling edge; north, south and east
      of them it crosses none. */
  lemma EdgeSeenFromOutside(box: BoundingBox, a: Coord, b: Coord, p: Point)
    requires IsInsideBoundingBox(box, Point(a.y, a.x)) && IsInsideBoundingBox(box, Point(b.y, b.x))
    requires !IsInsideBoundingBox(box, p)
    ensures if box.minLat <= p.lat <= box.maxLat && p.lng < box.minLng
            then Crosses(a, b, p) == Straddles(a, b, p) else !Crosses(a, b, p)
  {
    if Straddles(a, b, p) {
      MeetsBetweenTheEnds(a, b, p, box.minLng, box.maxLng);
    }
  }

  /** A point outside a box that holds every vertex is never inside the ring. */
  lemma OutsideTheBoxIsOutside(box: BoundingBox, ring: seq<Coord>, p: Point)
    requires Encloses(box, ring) && !IsInsideBoundingBox(box, p)
    ensures !RingParity(ring, p)
  {
    forall i, j | 0 <= i < |ring| && 0 <= j < |ring|
      ensures if box.minLat <= p.lat <= box.maxLat && p.lng < box.minLng
              then Crosses(ring[i], ring[j], p) == Straddles(ring[i], ring[j], p) else !Crosses(ring[i], ring[j], p)
    {
      EdgeSeenFromOutside(box, ring[i], ring[j], p);
    }
    hide Crosses;
    if ring == [] {
    } else if box.minLat <= p.lat <= box.maxLat && p.lng < box.minLng {
      StraddlesTelescope(ring, p);
    } else {
      NoCrossingsNoParity(ring, p);
    }
  }

  function Rectangle(box: BoundingBox): seq<Coord> {
    [Coord(box.minLng, box.minLat), Coord(box.maxLng, box.minLat),
     Coord(box.maxLng, box.maxLat), Coord(box.minLng, box.maxLat)]
  }

  /** On a rectangle the ray cast answers exactly the half-open box: its west and south
      sides are inside, its east and north sides are not. So it agrees with the
      bounding-box test everywhere but on those two sides. */
  lemma RectangleIsHalfOpen(box: BoundingBox, p: Point)
    requires box.minLat <= box.maxLat && box.minLng <= box.maxLng
    ensures RingParity(Rectangle(box), p)
        <==> box.minLat <= p.lat < box.maxLat && box.minLng <= p.lng < box.maxLng
    ensures RingParity(Rectangle(box), p)
        <==> IsInsideBoundingBox(box, p) && p.lat != box.maxLat && p.lng != box.maxLng
  {
    var r := Rectangle(box);
    FourEdges(r, p);
    if Straddles(r[2], r[1], p) {
      VerticalEdge(r[2], r[1], p);
      VerticalEdge(r[0], r[3], p);
    }
  }

  lemma FourEdges(r: seq<Coord>, p: Point)
    requires |r| == 4
    ensures RingParity(r, p)
         == (((Crosses(r[1], r[0], p) != Crosses(r[2], r[1], p)) != Crosses(r[3], r[2], p)) != Crosses(r[0], r[3], p))
  {
    hide Crosses;
    assert PathParity(r[..1], p) == false;
    assert r[..2][..1] == r[..1];
    assert PathParity(r[..2], p) == Crosses(r[1], r[0], p);
    assert r[..3][..2] == r[..2];
    assert PathParity(r[..3], p) == (PathParity(r[..2], p) != Crosses(r[2], r[1], p));
  }

  lemma VerticalEdge(a: Coord, b: Coord, p: Point)
    requires Straddles(a, b, p) && a.x == b.x
    ensures MeetsAt(a, b, p) == a.x
  {
  }

  function Clamp(x: real, low: real, high: real): real {
    if x < low then low else if x > high then high else x
  }

  /** The box holds its sides: a point is inside exactly when it is its own nearest point of
      the box. */
  lemma BoxHoldsItsSides(box: BoundingBox, p: Point)
    requires box.minLat <= box.maxLat && box.minLng <= box.maxLng
    ensures IsInsideBoundingBox(box, p)
       <==> p == Point(Clamp(p.lat, box.minLat, box.maxLat), Clamp(p.lng, box.minLng, box.maxLng))
  {
  }

  // ------------------------------------------------------------------
  // Triangles, and what any ring encloses
  // ------------------------------------------------------------------

  function Det(x1: real, y1: real, x2: real, y2: real): real {
    x1 * y2 - x2 * y1
  }

  /** Positive when the point lies to the left of the line from `a` to `b`, negative when it
      lies to the right. */
  function Side(a: Coord, b: Coord, p: Point): real {
    Det(a.x - p.lng, a.y - p.lat, b.x - p.lng, b.y - p.lat)
  }

  /** The half-plane test: on the same side of all three edges. */
  predicate InTriangle(a: Coord, b: Coord, c: Coord, p: Point) {
    OneSign(Side(a, b, p), Side(b, c, p), Side(c, a, p))
  }

  predicate OneSign(a: real, b: real, c: real) {
    (a > 0.0 && b > 0.0 && c > 0.0) || (a < 0.0 && b < 0.0 && c < 0.0)
  }

  predicate Between(x: real, u: real, v: real) {
    u <= x <= v || v <= x <= u
  }

  predicate OnEdge(a: Coord, b: Coord, p: Point) {
    Side(a, b, p) == 0.0 && Between(p.lng, a.x, b.x) && Between(p.lat, a.y, b.y)
  }

  predicate OnTriangle(a: Coord, b: Coord, c: Coord, p: Point) {
    OnEdge(a, b, p) || OnEdge(b, c, p) || OnEdge(c, a, p)
  }

  lemma ScaledOffset(n: real, d: real, x: real)
    requires d != 0.0
    ensures (n / d + x) * d == n + x * d
  {
    var q := n / d;
    assert q * d == n;
  }

  lemma SameSign(q: real, d: real)
    requires d != 0.0
    ensures q > 0.0 <==> if d > 0.0 then q * d > 0.0 else q * d < 0.0
    ensures q == 0.0 <==> q * d == 0.0
  {
    SignOfProduct(q, d);
    SignOfProduct(-q, d);
    assert -q * d == -(q * d);
  }

  lemma DetOfMeeting(x1: real, y1: real, x2: real, y2: real)
    ensures (x2 - x1) * -y1 + x1 * (y2 - y1) == Det(x1, y1, x2, y2)
  {
  }

  /** A straddling edge is crossed exactly when the point lies to the left of its upward
      direction; it meets the edge's line exactly where it is on the edge. */
  lemma CrossesToTheLeft(a: Coord, b: Coord, p: Point)
    requires Straddles(a, b, p)
    ensures Crosses(a, b, p) <==> if Above(b, p) then Side(a, b, p) > 0.0 else Side(a, b, p) < 0.0
    ensures Side(a, b, p) == 0.0 ==> OnEdge(a, b, p)
  {
    var x1, y1, x2, y2 := a.x - p.lng, a.y - p.lat, b.x - p.lng, b.y - p.lat;
    var d, n := y2 - y1, (x2 - x1) * -y1;
    assert d == b.y - a.y && n == (b.x - a.x) * (p.lat - a.y);
    assert MeetsAt(a, b, p) - p.lng == n / d + x1;
    ScaledOffset(n, d, x1);
    DetOfMeeting(x1, y1, x2, y2);
    SameSign(n / d + x1, d);
    hide Det;
    MeetsBetweenTheEnds(a, b, p, if a.x < b.x then a.x else b.x, if a.x < b.x then b.x else a.x);
  }

  /** The sides, weighted y2 the heights of the opposite vertices, cancel. */
  lemma SidesCancel(x1: real, y1: real, x2: real, y2: real, x3: real, y3: real)
    ensures Det(x2, y2, x3, y3) * y1 + Det(x3, y3, x1, y1) * y2 + Det(x1, y1, x2, y2) * y3 == 0.0
  {
  }

  lemma OppositeSign(a: real, b: real, c: real, u: real, v: real, w: real)
    requires a > 0.0 && c > 0.0 && u >= 0.0 && w >= 0.0 && u + w > 0.0 && v <= 0.0
    requires a * u + b * v + c * w == 0.0
    ensures b > 0.0
  {
    ProductNotNegative(a, u);
    ProductNotNegative(c, w);
    if u > 0.0 {
      ProductPositive(a, u);
    } else {
      ProductPositive(c, w);
    }
    NotPositiveProduct(b, v);
  }

  lemma NotPositiveProduct(b: real, v: real)
    requires v <= 0.0
    ensures b <= 0.0 ==> b * v >= 0.0
  {
    if b <= 0.0 {
      ProductNotNegative(-b, -v);
      assert -b * -v == b * v;
    }
  }

  lemma Negated(a: real, b: real, c: real, u: real, v: real, w: real)
    requires a * u + b * v + c * w == 0.0
    ensures -a * u + -b * v + -c * w == 0.0
    ensures a * -u + b * -v + c * -w == 0.0
    ensures -a * -u + -b * -v + -c * -w == 0.0
  {
  }

  /** Two sides of one sign next to the vertex that is alone above or below settle the third,
      unless both other vertices lie at the point's own latitude. */
  lemma ThirdSide(a: real, b: real, c: real, u: real, v: real, w: real)
    requires a * u + b * v + c * w == 0.0
    requires (v > 0.0 && u <= 0.0 && w <= 0.0 && u + w < 0.0) || (v <= 0.0 && u > 0.0 && w > 0.0)
    requires (a > 0.0 && c > 0.0) || (a < 0.0 && c < 0.0)
    ensures OneSign(a, b, c)
  {
    Negated(a, b, c, u, v, w);
    if a > 0.0 {
      if v > 0.0 {
        OppositeSign(a, b, c, -u, -v, -w);
      } else {
        OppositeSign(a, b, c, u, v, w);
      }
    } else {
      if v > 0.0 {
        OppositeSign(-a, -b, -c, -u, -v, -w);
      } else {
        OppositeSign(-a, -b, -c, u, v, w);
      }
    }
  }

  lemma BaseAtTheLatitude(ux: real, vx: real, vy: real, wx: real)
    requires vy > 0.0
    ensures Det(ux, 0.0, vx, vy) > 0.0 && Det(vx, vy, wx, 0.0) > 0.0 ==> ux > 0.0 && wx < 0.0
    ensures Det(ux, 0.0, vx, vy) < 0.0 && Det(vx, vy, wx, 0.0) < 0.0 ==> ux < 0.0 && wx > 0.0
    ensures Det(wx, 0.0, ux, 0.0) == 0.0
  {
    SameSign(ux, vy);
    SameSign(wx, vy);
    SameSign(-ux, vy);
    SameSign(-wx, vy);
    assert -ux * vy == -(ux * vy) && -wx * vy == -(wx * vy);
    assert Det(ux, 0.0, vx, vy) == ux * vy && Det(vx, vy, wx, 0.0) == -(wx * vy);
  }

  /** The vertex `v` alone lies above the point's latitude, or alone does not. */
  lemma ApexSides(u: Coord, v: Coord, w: Coord, p: Point)
    requires Straddles(u, v, p) && Straddles(v, w, p) && !OnTriangle(u, v, w, p)
    ensures (Crosses(v, u, p) != Crosses(w, v, p)) <==> InTriangle(u, v, w, p)
  {
    CrossesToTheLeft(u, v, p);
    CrossesToTheLeft(v, w, p);
    EdgeHasNoDirection(u, v, p);
    EdgeHasNoDirection(v, w, p);
    var ux, uy, vx, vy := u.x - p.lng, u.y - p.lat, v.x - p.lng, v.y - p.lat;
    var wx, wy := w.x - p.lng, w.y - p.lat;
    var a, b, c := Side(v, w, p), Side(w, u, p), Side(u, v, p);
    SidesCancel(ux, uy, vx, vy, wx, wy);
    hide Crosses;
    if (a > 0.0 && c > 0.0) || (a < 0.0 && c < 0.0) {
      if uy == 0.0 && wy == 0.0 {
        BaseAtTheLatitude(ux, vx, vy, wx);
        assert false;
      } else {
        hide Det;
        ThirdSide(a, b, c, uy, vy, wy);
      }
    }
  }

  lemma FlatTriangle(u: Coord, v: Coord, w: Coord, p: Point)
    requires !Straddles(u, v, p) && !Straddles(v, w, p)
    ensures !InTriangle(u, v, w, p)
  {
    var uy, vy, wy := u.y - p.lat, v.y - p.lat, w.y - p.lat;
    SidesCancel(u.x - p.lng, uy, v.x - p.lng, vy, w.x - p.lng, wy);
    var a, b, c := Side(v, w, p), Side(w, u, p), Side(u, v, p);
    Negated(a, b, c, uy, vy, wy);
    if uy == 0.0 && vy == 0.0 {
      assert c == 0.0;
    } else {
      hide Det;
      if InTriangle(u, v, w, p) {
        OneSidedSum(if a > 0.0 then a else -a, if a > 0.0 then b else -b, if a > 0.0 then c else -c,
                    if Above(u, p) then uy else -uy, if Above(u, p) then vy else -vy, if Above(u, p) then wy else -wy);
      }
    }
  }

  lemma OneSidedSum(a: real, b: real, c: real, u: real, v: real, w: real)
    requires a > 0.0 && b > 0.0 && c > 0.0 && u >= 0.0 && v >= 0.0 && w >= 0.0 && u + v > 0.0
    ensures a * u + b * v + c * w > 0.0
  {
    ProductNotNegative(a, u);
    ProductNotNegative(b, v);
    ProductNotNegative(c, w);
    if u > 0.0 {
      ProductPositive(a, u);
    } else {
      ProductPositive(b, v);
    }
  }

  lemma ThreeEdges(a: Coord, b: Coord, c: Coord, p: Point)
    ensures RingParity([a, b, c], p) == ((Crosses(b, a, p) != Crosses(c, b, p)) != Crosses(a, c, p))
  {
    hide Crosses;
    var r := [a, b, c];
    assert r[..2] == [a, b] && [a, b][..1] == [a];
    assert PathParity([a], p) == false;
    assert PathParity([a, b], p) == Crosses(b, a, p);
    assert PathParity(r, p) == (PathParity([a, b], p) != Crosses(c, b, p));
  }

  /** For any triangle, flat ones included, and any point off its boundary, the ray cast is
      the half-plane test. */
  lemma TriangleIsInterior(a: Coord, b: Coord, c: Coord, p: Point)
    requires !OnTriangle(a, b, c, p)
    ensures RingParity([a, b, c], p) <==> InTriangle(a, b, c, p)
  {
    ThreeEdges(a, b, c, p);
    hide OnEdge, Side, MeetsAt, RingParity;
    if Straddles(a, b, p) && Straddles(b, c, p) {
      ApexSides(a, b, c, p);
    } else if Straddles(b, c, p) && Straddles(c, a, p) {
      ApexSides(b, c, a, p);
    } else if Straddles(c, a, p) && Straddles(a, b, p) {
      ApexSides(c, a, b, p);
    } else {
      FlatTriangle(a, b, c, p);
    }
  }

  /** How many triangles of the fan from the first vertex hold the point. */
  function FanCount(ring: seq<Coord>, p: Point): nat {
    if |ring| < 3 then 0
    else
      FanCount(ring[..|ring| - 1], p) +
      if InTriangle(ring[0], ring[|ring| - 2], ring[|ring| - 1], p) then 1 else 0
  }

  ghost predicate OnTheFan(ring: seq<Coord>, p: Point) {
    exists k :: 1 < k < |ring| && OnTriangle(ring[0], ring[k - 1], ring[k], p)
  }

  lemma RingOfTwo(ring: seq<Coord>, p: Point)
    requires |ring| < 3
    ensures !RingParity(ring, p)
  {
    if |ring| == 2 {
      TwoVerticesEncloseNothing(ring, p);
    }
  }

  /** For every ring, convex or not, crossing itself or not, and every point off the edges of
      its fan, the ray cast is the even-odd rule: inside exactly when an odd number of the
      fan's triangles hold the point. */
  lemma {:induction false} RayCastIsEvenOdd(ring: seq<Coord>, p: Point)
    requires !OnTheFan(ring, p)
    ensures RingParity(ring, p) <==> FanCount(ring, p) % 2 == 1
    decreases |ring|
  {
    if |ring| < 3 {
      RingOfTwo(ring, p);
    } else {
      var n := |ring|;
      var a, b, c := ring[0], ring[n - 2], ring[n - 1];
      assert !OnTriangle(ring[0], ring[n - 1 - 1], ring[n - 1], p);
      assert !OnTheFan(ring[..n - 1], p);
      RayCastIsEvenOdd(ring[..n - 1], p);
      hide RingParity, OnTriangle, InTriangle, OnTheFan, PathParity, Crosses;
      ChordSplitsParity(ring, n - 2, p);
      assert ring[n - 2..] + [a] == [b, c] + [a] && [a] + [b, c] == [a, b, c];
      RotationKeepsParity([a], [b, c], p);
      TriangleIsInterior(a, b, c, p);
    }
  }

  // ------------------------------------------------------------------
  // The answer for polygons
  // ------------------------------------------------------------------

  /** What is answered for a polygon, whatever its holes: with fewer than three positions in its
      exterior ring nothing is inside; otherwise, off the edges of the fan, a point is inside
      exactly when an odd number of the fan's triangles hold it. */
  lemma InsideIsEvenOdd(polygon: Polygon, p: Point)
    ensures polygon.coordinates == [] || |polygon.coordinates[0]| < 3 ==> !InPolygon(polygon, p)
    ensures polygon.coordinates != [] && !OnTheFan(polygon.coordinates[0], p) ==>
              (InPolygon(polygon, p) <==>
                |polygon.coordinates[0]| >= 3 && FanCount(polygon.coordinates[0], p) % 2 == 1)
  {
    if polygon.coordinates != [] && !OnTheFan(polygon.coordinates[0], p) {
      RayCastIsEvenOdd(polygon.coordinates[0], p);
      hide OnTheFan;
    }
  }

  /** The holes are not looked at. */
  lemma HolesDoNotMatter(exterior: seq<Coord>, holes: seq<seq<Coord>>, p: Point)
    ensures InPolygon(Polygon([exterior] + holes), p) == InPolygon(Polygon([exterior]), p)
  {
  }

  lemma NothingIsInsideOutsideTheBox(box: BoundingBox, polygon: Polygon, p: Point)
    requires polygon.coordinates != [] ==> Encloses(box, polygon.coordinates[0])
    requires !IsInsideBoundingBox(box, p)
    ensures !InPolygon(polygon, p)
  {
    if polygon.coordinates != [] {
      OutsideTheBoxIsOutside(box, polygon.coordinates[0], p);
    }
  }

  function Corners(box: BoundingBox): seq<Point> {
    [Point(box.minLat, box.minLng), Point(box.minLat, box.maxLng),
     Point(box.maxLat, box.maxLng), Point(box.maxLat, box.minLng)]
  }

  lemma CornersAreTheRectangle(box: BoundingBox)
    ensures Coords(Corners(box)) == Rectangle(box)
  {
  }

  /** The polygon that `toPolygon` builds from the corners of a box holds exactly the points of
      the box off its north and east sides. */
  lemma RectangleFromPoints(box: BoundingBox, p: Point)
    requires box.minLat <= box.maxLat && box.minLng <= box.maxLng
    ensures InPolygon(Polygon([Closed(Coords(Corners(box)))]), p)
       <==> box.minLat <= p.lat < box.maxLat && box.minLng <= p.lng < box.maxLng
  {
    CornersAreTheRectangle(box);
    RectangleIsHalfOpen(box, p);
    hide RingParity, Closed;
    ClosingKeepsTheAnswer(Rectangle(box), p);
  }

  /** The point lies to the left of the way from `a` to `b`, in latitude and longitude. */
  function LeftOf(a: Point, b: Point, p: Point): real {
    (a.lng - p.lng) * (b.lat - p.lat) - (b.lng - p.lng) * (a.lat - p.lat)
  }

  function AsCoord(a: Point): Coord {
    Coord(a.lng, a.lat)
  }

  /** The polygon that `toPolygon` builds from three points holds exactly the points on one side
      of its three edges, off those edges. */
  lemma TriangleFromPoints(a: Point, b: Point, c: Point, p: Point)
    requires !OnTriangle(AsCoord(a), AsCoord(b), AsCoord(c), p)
    ensures InPolygon(Polygon([Closed(Coords([a, b, c]))]), p)
       <==> OneSign(LeftOf(a, b, p), LeftOf(b, c, p), LeftOf(c, a, p))
  {
    var ring := Coords([a, b, c]);
    assert ring == [AsCoord(a), AsCoord(b), AsCoord(c)];
    SideIsLeftOf(a, b, p);
    SideIsLeftOf(b, c, p);
    SideIsLeftOf(c, a, p);
    hide RingParity, Closed, Side, LeftOf, OnTriangle;
    TriangleIsInterior(ring[0], ring[1], ring[2], p);
    ClosingKeepsTheAnswer(ring, p);
  }

  lemma SideIsLeftOf(a: Point, b: Point, p: Point)
    ensures Side(AsCoord(a), AsCoord(b), p) == LeftOf(a, b, p)
  {
  }
}
