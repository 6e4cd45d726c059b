/**
 Matching route segments to mapped ways (enrichment/geometry.py) over the reals. Distances are kept
 squared, which orders them the same way. Metres per degree of longitude are a parameter: a positive
 function that does not grow with the distance from the equator, as the clamped cosine is.
 */
module WayMatching {
  import opened Common

  const METERS_PER_DEGREE_LAT: real := 111320.0
  const EPSILON: real := 0.000000001

  datatype Coordinate = Coordinate(lon: real, lat: real)

  datatype Way<T> = Way(id: int, tags: T, points: seq<Coordinate>)

  function Abs(x: real): real {
    if x < 0.0 then -x else x
  }

  type Globe = real -> real

  /** What is used of the metres per degree of longitude at a latitude. */
  ghost predicate Shrinking(perLon: Globe) {
    && (forall lat :: perLon(lat) > 0.0)
    && (forall near, far :: Abs(near) <= Abs(far) <= 180.0 ==> perLon(far) <= perLon(near))
  }

  // ---------------------------------------------------------------- distances

  datatype Vector = Vector(x: real, y: real)
  {
    function Minus(v: Vector): Vector {
      Vector(x - v.x, y - v.y)
    }

    function Plus(t: real, v: Vector): Vector {
      Vector(x + t * v.x, y + t * v.y)
    }

    function Dot(v: Vector): real {
      x * v.x + y * v.y
    }

    function Squared(): real {
      Dot(this)
    }
  }

  function ToPlane(perLon: Globe, p: Coordinate, lat: real): Vector {
    Vector(p.lon * perLon(lat), p.lat * METERS_PER_DEGREE_LAT)
  }

  function DistanceSquared(perLon: Globe, a: Coordinate, b: Coordinate): real {
    var lat := (a.lat + b.lat) / 2.0;
    ToPlane(perLon, b, lat).Minus(ToPlane(perLon, a, lat)).Squared()
  }

  /** The share of the segment from `a` along `d` at which it is nearest to `p`, kept within the segment. */
  function Projection(p: Vector, a: Vector, d: Vector): (t: real)
    ensures 0.0 <= t <= 1.0
  {
    if d.Squared() <= EPSILON then 0.0
    else Max(0.0, Min(1.0, p.Minus(a).Dot(d) / d.Squared()))
  }

  function Latitude(p: Coordinate, a: Coordinate, b: Coordinate): real {
    (p.lat + a.lat + b.lat) / 3.0
  }

  /** The squared distance in the plane at `lat` from `p` to the point a share `t` along `a`-`b`. */
  function AlongSquared(perLon: Globe, p: Coordinate, a: Coordinate, b: Coordinate, t: real): real {
    var lat := Latitude(p, a, b);
    var a', b' := ToPlane(perLon, a, lat), ToPlane(perLon, b, lat);
    ToPlane(perLon, p, lat).Minus(a'.Plus(t, b'.Minus(a'))).Squared()
  }

  predicate Degenerate(perLon: Globe, p: Coordinate, a: Coordinate, b: Coordinate) {
    var lat := Latitude(p, a, b);
    ToPlane(perLon, b, lat).Minus(ToPlane(perLon, a, lat)).Squared() <= 0.000000001
  }

  function SegmentSquared(perLon: Globe, p: Coordinate, a: Coordinate, b: Coordinate): real {
    var lat := Latitude(p, a, b);
    var p', a', b' := ToPlane(perLon, p, lat), ToPlane(perLon, a, lat), ToPlane(perLon, b, lat);
    var d := b'.Minus(a');
    if d.Squared() <= EPSILON then p'.Minus(a').Squared()
    else p'.Minus(a'.Plus(Projection(p', a', d), d)).Squared()
  }

  /** The least distance to the segments of a line of two or more points. */
  function LineSquared(perLon: Globe, p: Coordinate, points: seq<Coordinate>): real
    requires |points| >= 2
  {
    var first := SegmentSquared(perLon, p, points[0], points[1]);
    if |points| == 2 then first else Min(first, LineSquared(perLon, p, points[1..]))
  }

  /** None stands for infinity: a way without points is nowhere. */
  function WaySquared<T>(perLon: Globe, p: Coordinate, way: Way<T>): Option<real> {
    if way.points == [] then None
    else if |way.points| == 1 then Some(DistanceSquared(perLon, p, way.points[0]))
    else Some(LineSquared(perLon, p, way.points))
  }

  /** A degree of latitude is 111320 m, a degree of longitude what it is at the latitude between the two. */
  lemma DegreesAreMeters(perLon: Globe, a: Coordinate, b: Coordinate)
    ensures var north, east := 111320.0 * (b.lat - a.lat), perLon((a.lat + b.lat) / 2.0) * (b.lon - a.lon);
            DistanceSquared(perLon, a, b) == north * north + east * east
  {
    var meters := perLon((a.lat + b.lat) / 2.0);
    var east := meters * (b.lon - a.lon);
    assert b.lon * meters - a.lon * meters == east;
  }

  // ---------------------------------------------------------------- the projection is the minimum

  function Gap(p: Vector, a: Vector, d: Vector, t: real): real {
    p.Minus(a.Plus(t, d)).Squared()
  }

  lemma SquareOfDifference(x: real, t: real, y: real)
    ensures (x - t * y) * (x - t * y) == x * x - 2.0 * t * (x * y) + t * t * (y * y)
  {
  }

  lemma GapExpanded(p: Vector, a: Vector, d: Vector, t: real)
    ensures var w := p.Minus(a); Gap(p, a, d, t) == w.Squared() - 2.0 * t * w.Dot(d) + t * t * d.Squared()
  {
    var w := p.Minus(a);
    SquareOfDifference(w.x, t, d.x);
    SquareOfDifference(w.y, t, d.y);
    assert p.x - (a.x + t * d.x) == w.x - t * d.x && p.y - (a.y + t * d.y) == w.y - t * d.y;
    Distribute(2.0 * t, w.x * d.x, w.y * d.y);
    Distribute(t * t, d.x * d.x, d.y * d.y);
  }

  lemma Distribute(x: real, y: real, z: real)
    ensures x * (y + z) == x * y + x * z
  {
  }

  lemma Factors(n: real, t0: real, s: real, t: real)
    ensures (s * s * n - 2.0 * s * (t0 * n)) - (t * t * n - 2.0 * t * (t0 * n)) == (s - t) * (s + t - 2.0 * t0) * n
  {
    var k := s * s - 2.0 * s * t0 - t * t + 2.0 * t * t0;
    assert k == (s - t) * (s + t - 2.0 * t0);
    assert s * s * n - 2.0 * s * (t0 * n) - t * t * n + 2.0 * t * (t0 * n) == k * n;
  }

  /** A parabola that opens upward is least at its vertex, or at the end of the interval nearer to it. */
  lemma ParabolaIsLeast(c: real, n: real, t0: real, t: real, s: real)
    requires n > 0.0 && 0.0 <= s <= 1.0 && t == Max(0.0, Min(1.0, t0))
    ensures c - 2.0 * t * (t0 * n) + t * t * n <= c - 2.0 * s * (t0 * n) + s * s * n
  {
    Factors(n, t0, s, t);
    SameSign(s - t, s + t - 2.0 * t0);
    NonNegative((s - t) * (s + t - 2.0 * t0), n);
  }

  /** No share of the segment is nearer than the clamped projection. */
  lemma ProjectionIsLeast(p: Vector, a: Vector, d: Vector, s: real)
    requires d.Squared() > EPSILON && 0.0 <= s <= 1.0
    ensures Gap(p, a, d, Projection(p, a, d)) <= Gap(p, a, d, s)
  {
    hide Gap, Vector.Squared, Vector.Dot, Vector.Minus, Max, Min;
    var w, n, t := p.Minus(a), d.Squared(), Projection(p, a, d);
    var q := w.Dot(d);
    var t0 := q / n;
    assert t0 * n == q;
    GapExpanded(p, a, d, s);
    GapExpanded(p, a, d, t);
    ParabolaIsLeast(w.Squared(), n, t0, t, s);
  }

  lemma SameSign(u: real, v: real)
    requires (u >= 0.0 && v >= 0.0) || (u <= 0.0 && v <= 0.0)
    ensures u * v >= 0.0
  {
  }

  lemma NonNegative(u: real, v: real)
    requires u >= 0.0 && v >= 0.0
    ensures u * v >= 0.0
  {
  }

  /** The distance to a proper segment is the least over all of its points. */
  lemma SegmentIsLeast(perLon: Globe, p: Coordinate, a: Coordinate, b: Coordinate, s: real)
    requires !Degenerate(perLon, p, a, b) && 0.0 <= s <= 1.0
    ensures SegmentSquared(perLon, p, a, b) <= AlongSquared(perLon, p, a, b, s)
  {
    var lat := Latitude(p, a, b);
    var p', a', b' := ToPlane(perLon, p, lat), ToPlane(perLon, a, lat), ToPlane(perLon, b, lat);
    ProjectionIsLeast(p', a', b'.Minus(a'), s);
  }

  /** The distance to a line is no more than to any point of any of its proper segments. */
  lemma {:induction false} LineIsLeast(perLon: Globe, p: Coordinate, points: seq<Coordinate>, i: nat, s: real)
    requires i + 1 < |points| && 0.0 <= s <= 1.0 && !Degenerate(perLon, p, points[i], points[i + 1])
    ensures LineSquared(perLon, p, points) <= AlongSquared(perLon, p, points[i], points[i + 1], s)
  {
    hide SegmentSquared, AlongSquared, Degenerate;
    if i == 0 {
      SegmentIsLeast(perLon, p, points[0], points[1], s);
    } else {
      LineIsLeast(perLon, p, points[1..], i - 1, s);
    }
  }

  /** The distance to a line is that to some point of it. */
  lemma {:induction false} LineIsReached(perLon: Globe, p: Coordinate, points: seq<Coordinate>) returns (i: nat, t: real)
    requires |points| >= 2
    ensures i + 1 < |points| && 0.0 <= t <= 1.0
    ensures LineSquared(perLon, p, points) == AlongSquared(perLon, p, points[i], points[i + 1], t)
  {
    t := SegmentIsReached(perLon, p, points[0], points[1]);
    i := 0;
    hide SegmentSquared, AlongSquared;
    if |points| > 2 && LineSquared(perLon, p, points[1..]) < SegmentSquared(perLon, p, points[0], points[1]) {
      i, t := LineIsReached(perLon, p, points[1..]);
      i := i + 1;
    }
  }

  lemma SegmentIsReached(perLon: Globe, p: Coordinate, a: Coordinate, b: Coordinate) returns (t: real)
    ensures 0.0 <= t <= 1.0 && SegmentSquared(perLon, p, a, b) == AlongSquared(perLon, p, a, b, t)
  {
    var lat := Latitude(p, a, b);
    var p', a', b' := ToPlane(perLon, p, lat), ToPlane(perLon, a, lat), ToPlane(perLon, b, lat);
    t := Projection(p', a', b'.Minus(a'));
  }

  // ---------------------------------------------------------------- the bounding box

  datatype Box = Box(minLon: real, maxLon: real, minLat: real, maxLat: real)
  {
    predicate Contains(p: Coordinate) {
      minLon <= p.lon <= maxLon && minLat <= p.lat <= maxLat
    }

    function LatMargin(tolerance: real): real {
      tolerance / METERS_PER_DEGREE_LAT
    }

    /** The latitude farthest from the equator that the grown box reaches. */
    function Farthest(tolerance: real): real {
      Max(Abs(minLat - LatMargin(tolerance)), Abs(maxLat + LatMargin(tolerance)))
    }

    function LonMargin(perLon: Globe, tolerance: real): real
      requires Shrinking(perLon)
    {
      tolerance / perLon(Farthest(tolerance))
    }

    function Grown(perLon: Globe, tolerance: real): Box
      requires Shrinking(perLon)
    {
      var latMargin, lonMargin := LatMargin(tolerance), LonMargin(perLon, tolerance);
      Box(minLon - lonMargin, maxLon + lonMargin, minLat - latMargin, maxLat + latMargin)
    }
  }

  function BoxOf(points: seq<Coordinate>): (box: Box)
    requires points != []
    ensures forall p <- points :: box.Contains(p)
  {
    var p := points[0];
    if |points| == 1 then Box(p.lon, p.lon, p.lat, p.lat)
    else
      var rest := BoxOf(points[1..]);
      assert forall q <- points :: q == p || q in points[1..];
      Box(Min(p.lon, rest.minLon), Max(p.lon, rest.maxLon), Min(p.lat, rest.minLat), Max(p.lat, rest.maxLat))
  }

  /** Both legs of a right angle are no longer than what bounds its hypotenuse. */
  lemma LegsAreBounded(x: real, y: real, bound: real)
    requires x * x + y * y <= bound * bound && bound >= 0.0
    ensures -bound <= x <= bound && -bound <= y <= bound
  {
    SquareGrows(x, bound);
    SquareGrows(y, bound);
  }

  lemma SquareGrows(x: real, bound: real)
    requires bound >= 0.0
    ensures x * x <= bound * bound ==> -bound <= x <= bound
  {
    if x > bound {
      LargerSquare(x, bound);
    } else if x < -bound {
      LargerSquare(-x, bound);
      assert -x * -x == x * x;
    }
  }

  lemma LargerSquare(size: real, bound: real)
    requires size > bound >= 0.0
    ensures size * size > bound * bound
  {
    ProductGrows(size, bound, size, bound);
  }

  lemma ProductGrows(a: real, b: real, c: real, d: real)
    requires a > b >= 0.0 && c > d >= 0.0
    ensures a * c > b * d
  {
    MoreScaled(a, c, b);
    NoLessScaled(c, b, d);
  }

  lemma MoreScaled(a: real, scale: real, b: real)
    requires a > b && scale > 0.0
    ensures a * scale > b * scale
  {
    Positive(a - b, scale);
    calc {
      a * scale - b * scale;
      (a - b) * scale;
    }
  }

  lemma NoLessScaled(a: real, scale: real, b: real)
    requires a >= b && scale >= 0.0
    ensures scale * a >= scale * b
  {
    NonNegative(a - b, scale);
    calc {
      scale * a - scale * b;
      (a - b) * scale;
    }
  }

  lemma Positive(u: real, v: real)
    requires u > 0.0 && v > 0.0
    ensures u * v > 0.0
  {
  }

  lemma AtMostQuotient(x: real, least: real, bound: real)
    requires least > 0.0 && x * least <= bound
    ensures x <= bound / least
  {
    var q := bound / least;
    assert q * least == bound;
    if x > q {
      assert (x - q) * least > 0.0;
    }
  }

  lemma Unscaled(x: real, scale: real, least: real, bound: real)
    requires scale >= least > 0.0 && -bound <= x * scale <= bound
    ensures -(bound / least) <= x <= bound / least
  {
    var size := Abs(x);
    NonNegative(size, scale - least);
    assert size * least <= size * scale <= bound;
    AtMostQuotient(size, least, bound);
  }

  /** Where the box's largest latitude is at most this far off the equator, the tolerance may be this large. */
  const WIDEST: real := 90.0 * METERS_PER_DEGREE_LAT

  ghost predicate OnEarth(points: seq<Coordinate>) {
    forall p <- points :: -90.0 <= p.lat <= 90.0
  }

  /** A point within the tolerance of a point of the box, measured at a latitude the grown box reaches, is in the grown box. */
  lemma GrownBoxHolds(perLon: Globe, box: Box, p: Coordinate, q: Coordinate, lat: real, tolerance: real)
    requires Shrinking(perLon) && box.Contains(q) && 0.0 <= tolerance <= WIDEST
    requires -90.0 <= box.minLat && box.maxLat <= 90.0
    requires Near(perLon, p, q, lat, tolerance)
    requires var m := box.LatMargin(tolerance);
             box.minLat - m <= p.lat <= box.maxLat + m ==> box.minLat - m <= lat <= box.maxLat + m
    ensures box.Grown(perLon, tolerance).Contains(p)
  {
    hide Shrinking, Near, Box.LonMargin, Box.Farthest;
    LatInRange(perLon, box, p, q, lat, tolerance);
    LonInRange(perLon, box, p, q, lat, tolerance);
  }

  /** Both legs from `q` to `p`, measured at a latitude, are within the tolerance. */
  ghost predicate Near(perLon: Globe, p: Coordinate, q: Coordinate, lat: real, tolerance: real) {
    && -tolerance <= (p.lon - q.lon) * perLon(lat) <= tolerance
    && -tolerance <= (p.lat - q.lat) * METERS_PER_DEGREE_LAT <= tolerance
  }

  lemma LatInRange(perLon: Globe, box: Box, p: Coordinate, q: Coordinate, lat: real, tolerance: real)
    requires box.Contains(q) && Near(perLon, p, q, lat, tolerance)
    ensures box.minLat - box.LatMargin(tolerance) <= p.lat <= box.maxLat + box.LatMargin(tolerance)
  {
  }

  lemma LonInRange(perLon: Globe, box: Box, p: Coordinate, q: Coordinate, lat: real, tolerance: real)
    requires Shrinking(perLon) && box.Contains(q) && Near(perLon, p, q, lat, tolerance) && 0.0 <= tolerance <= WIDEST
    requires -90.0 <= box.minLat && box.maxLat <= 90.0
    requires box.minLat - box.LatMargin(tolerance) <= lat <= box.maxLat + box.LatMargin(tolerance)
    ensures box.minLon - box.LonMargin(perLon, tolerance) <= p.lon <= box.maxLon + box.LonMargin(perLon, tolerance)
  {
    hide Shrinking, Box.Farthest;
    var farthest := box.Farthest(tolerance);
    ReachIsOnGlobe(box, lat, tolerance);
    ScaleShrinks(perLon, lat, farthest);
    Unscaled(p.lon - q.lon, perLon(lat), perLon(farthest), tolerance);
  }

  lemma ReachIsOnGlobe(box: Box, lat: real, tolerance: real)
    requires -90.0 <= box.minLat <= box.maxLat <= 90.0 && 0.0 <= tolerance <= WIDEST
    requires box.minLat - box.LatMargin(tolerance) <= lat <= box.maxLat + box.LatMargin(tolerance)
    ensures Abs(lat) <= Abs(box.Farthest(tolerance)) <= 180.0
  {
    assert 0.0 <= box.LatMargin(tolerance) <= 90.0;
  }

  lemma ScaleShrinks(perLon: Globe, near: real, far: real)
    requires Shrinking(perLon) && Abs(near) <= Abs(far) <= 180.0
    ensures perLon(near) >= perLon(far) > 0.0
  {
  }

  lemma Between(a: real, b: real, t: real, lo: real, hi: real)
    requires 0.0 <= t <= 1.0 && lo <= a <= hi && lo <= b <= hi
    ensures lo <= a + t * (b - a) <= hi
  {
    if b >= a {
      NonNegative(t, b - a);
      NonNegative(1.0 - t, b - a);
    } else {
      NonNegative(t, a - b);
      NonNegative(1.0 - t, a - b);
    }
  }

  lemma Scaled(p: real, a: real, b: real, t: real, scale: real)
    ensures p * scale - (a * scale + t * (b * scale - a * scale)) == (p - (a + t * (b - a))) * scale
  {
    var d := b - a;
    assert t * (b * scale - a * scale) == t * d * scale;
    assert (p - (a + t * d)) * scale == p * scale - a * scale - t * d * scale;
  }

  /** The prefilter is safe: a point within the tolerance of a way lies in the way's grown box. */
  lemma WithinToleranceIsInBox<T>(perLon: Globe, way: Way<T>, p: Coordinate, tolerance: real)
    requires Shrinking(perLon) && way.points != [] && OnEarth(way.points) && 0.0 <= tolerance <= WIDEST
    requires WaySquared(perLon, p, way).value <= tolerance * tolerance
    ensures BoxOf(way.points).Grown(perLon, tolerance).Contains(p)
  {
    hide Box.Grown, DistanceSquared, LineSquared, AlongSquared;
    var box := BoxOf(way.points);
    BoxOnEarth(way.points);
    if |way.points| == 1 {
      var q := way.points[0];
      var lat := (p.lat + q.lat) / 2.0;
      SinglePoint(perLon, p, q);
      LegsAreBounded((p.lon - q.lon) * perLon(lat), (p.lat - q.lat) * METERS_PER_DEGREE_LAT, tolerance);
      assert Near(perLon, p, q, lat, tolerance);
      GrownBoxHolds(perLon, box, p, q, lat, tolerance);
    } else {
      var i, t := LineIsReached(perLon, p, way.points);
      NearSegmentIsInBox(perLon, box, p, way.points[i], way.points[i + 1], t, tolerance);
    }
  }

  lemma NearSegmentIsInBox(perLon: Globe, box: Box, p: Coordinate, a: Coordinate, b: Coordinate, t: real, tolerance: real)
    requires Shrinking(perLon) && box.Contains(a) && box.Contains(b) && 0.0 <= t <= 1.0
    requires -90.0 <= box.minLat && box.maxLat <= 90.0 && 0.0 <= tolerance <= WIDEST
    requires AlongSquared(perLon, p, a, b, t) <= tolerance * tolerance
    ensures box.Grown(perLon, tolerance).Contains(p)
  {
    hide Box.Grown, AlongSquared, Shrinking;
    var lat := Latitude(p, a, b);
    var q := Coordinate(a.lon + t * (b.lon - a.lon), a.lat + t * (b.lat - a.lat));
    Between(a.lon, b.lon, t, box.minLon, box.maxLon);
    Between(a.lat, b.lat, t, box.minLat, box.maxLat);
    AlongSquaredIs(perLon, p, a, b, t, q);
    LegsAreBounded((p.lon - q.lon) * perLon(lat), (p.lat - q.lat) * METERS_PER_DEGREE_LAT, tolerance);
    assert Near(perLon, p, q, lat, tolerance);
    GrownBoxHolds(perLon, box, p, q, lat, tolerance);
  }

  lemma AlongSquaredIs(perLon: Globe, p: Coordinate, a: Coordinate, b: Coordinate, t: real, q: Coordinate)
    requires q == Coordinate(a.lon + t * (b.lon - a.lon), a.lat + t * (b.lat - a.lat))
    ensures var x, y := (p.lon - q.lon) * perLon(Latitude(p, a, b)), (p.lat - q.lat) * METERS_PER_DEGREE_LAT;
            AlongSquared(perLon, p, a, b, t) == x * x + y * y
  {
    Scaled(p.lon, a.lon, b.lon, t, perLon(Latitude(p, a, b)));
    Scaled(p.lat, a.lat, b.lat, t, METERS_PER_DEGREE_LAT);
  }

  lemma SinglePoint(perLon: Globe, p: Coordinate, q: Coordinate)
    ensures var lat := (p.lat + q.lat) / 2.0;
            var x, y := (p.lon - q.lon) * perLon(lat), (p.lat - q.lat) * METERS_PER_DEGREE_LAT;
            DistanceSquared(perLon, p, q) == x * x + y * y
  {
    var lat := (p.lat + q.lat) / 2.0;
    Scaled(p.lon, q.lon, q.lon, 0.0, perLon(lat));
    var x, x' := (p.lon - q.lon) * perLon(lat), q.lon * perLon(lat) - p.lon * perLon(lat);
    assert x' == -x;
    assert x' * x' == x * x;
    var y, y' := (p.lat - q.lat) * METERS_PER_DEGREE_LAT, q.lat * METERS_PER_DEGREE_LAT - p.lat * METERS_PER_DEGREE_LAT;
    assert y' == -y;
  }

  lemma {:induction false} BoxOnEarth(points: seq<Coordinate>)
    requires points != [] && OnEarth(points)
    ensures -90.0 <= BoxOf(points).minLat && BoxOf(points).maxLat <= 90.0
  {
    if |points| > 1 {
      assert forall q <- points[1..] :: q in points;
      BoxOnEarth(points[1..]);
    }
  }

  // ---------------------------------------------------------------- matching

  ghost predicate Within<T>(perLon: Globe, p: Coordinate, way: Way<T>, tolerance: real) {
    tolerance >= 0.0 && way.points != [] && WaySquared(perLon, p, way).value <= tolerance * tolerance
  }

  ghost predicate Mapped<T>(ways: seq<Way<T>>) {
    forall i :: 0 <= i < |ways| ==> ways[i].points != [] && OnEarth(ways[i].points)
  }

  function FromWay<T>(perLon: Globe, p: Coordinate, ways: seq<Way<T>>, i: nat): real
    requires i < |ways| && ways[i].points != []
  {
    WaySquared(perLon, p, ways[i]).value
  }

  /** Way `i` is within the tolerance, none is nearer, and no later one is as near. */
  ghost predicate Nearest<T>(perLon: Globe, p: Coordinate, ways: seq<Way<T>>, tolerance: real, i: nat)
    requires Mapped(ways)
  {
    && i < |ways| && Within(perLon, p, ways[i], tolerance)
    && (forall j :: 0 <= j < |ways| ==> FromWay(perLon, p, ways, i) <= FromWay(perLon, p, ways, j))
    && (forall j :: i < j < |ways| ==> FromWay(perLon, p, ways, i) < FromWay(perLon, p, ways, j))
  }

  /** The exhaustive answer: the nearest way, or none when all are out of reach. */
  ghost predicate RightMatch<T>(perLon: Globe, p: Coordinate, ways: seq<Way<T>>, tolerance: real, found: Option<nat>)
    requires Mapped(ways)
  {
    match found
    case Some(i) => Nearest(perLon, p, ways, tolerance, i)
    case None => forall j :: 0 <= j < |ways| ==> !Within(perLon, p, ways[j], tolerance)
  }

  lemma RightMatchIsUnique<T>(perLon: Globe, p: Coordinate, ways: seq<Way<T>>, tolerance: real, a: Option<nat>, b: Option<nat>)
    requires Mapped(ways) && RightMatch(perLon, p, ways, tolerance, a) && RightMatch(perLon, p, ways, tolerance, b)
    ensures a == b
  {
    if a.Some? && b.Some? {
      assert FromWay(perLon, p, ways, a.value) == FromWay(perLon, p, ways, b.value);
    }
  }

  lemma {:induction false} LineIsNotNegative(perLon: Globe, p: Coordinate, points: seq<Coordinate>)
    requires |points| >= 2
    ensures LineSquared(perLon, p, points) >= 0.0
  {
    var i, t := LineIsReached(perLon, p, points);
  }

  lemma WayIsNotNegative<T>(perLon: Globe, p: Coordinate, way: Way<T>)
    requires way.points != []
    ensures WaySquared(perLon, p, way).value >= 0.0
  {
    hide LineSquared;
    if |way.points| >= 2 {
      LineIsNotNegative(perLon, p, way.points);
    }
  }

  /** What a squared distance is compared with at first: no distance is within a negative tolerance. */
  function Limit(tolerance: real): real {
    if tolerance < 0.0 then -1.0 else tolerance * tolerance
  }

  lemma LimitIsTolerance<T>(perLon: Globe, p: Coordinate, way: Way<T>, tolerance: real)
    requires way.points != []
    ensures Within(perLon, p, way, tolerance) <==> WaySquared(perLon, p, way).value <= Limit(tolerance)
  {
    hide WaySquared;
    WayIsNotNegative(perLon, p, way);
  }

  /** The inner loop: the ways whose grown box misses the point are skipped. */
  method BestWay<T>(perLon: Globe, p: Coordinate, ways: seq<Way<T>>, boxes: seq<Box>, tolerance: real) returns (best: Option<nat>)
    requires Shrinking(perLon) && Mapped(ways) && tolerance <= WIDEST
    requires |boxes| == |ways| && forall i :: 0 <= i < |ways| ==> boxes[i] == BoxOf(ways[i].points).Grown(perLon, tolerance)
    ensures RightMatch(perLon, p, ways, tolerance, best)
  {
    hide WaySquared, Box.Grown, BoxOf, Shrinking, Limit, Within;
    best := None;
    var limit := Limit(tolerance);
    for n := 0 to |ways|
      invariant best.None? ==> limit == Limit(tolerance)
      invariant best.None? ==> forall j :: 0 <= j < n ==> limit < FromWay(perLon, p, ways, j)
      invariant best.Some? ==> best.value < n && limit == FromWay(perLon, p, ways, best.value)
      invariant best.Some? ==> Within(perLon, p, ways[best.value], tolerance) && limit <= Limit(tolerance)
      invariant best.Some? ==> forall j :: 0 <= j < n ==> limit <= FromWay(perLon, p, ways, j)
      invariant best.Some? ==> forall j :: best.value < j < n ==> limit < FromWay(perLon, p, ways, j)
    {
      LimitIsTolerance(perLon, p, ways[n], tolerance);
      if boxes[n].Contains(p) {
        var distance := FromWay(perLon, p, ways, n);
        if distance <= limit {
          limit := distance;
          best := Some(n);
        }
      } else {
        OutsideIsTooFar(perLon, ways[n], p, tolerance);
      }
    }
    forall j | 0 <= j < |ways|
      ensures best.None? ==> !Within(perLon, p, ways[j], tolerance)
    {
      LimitIsTolerance(perLon, p, ways[j], tolerance);
      assert best.None? ==> limit < FromWay(perLon, p, ways, j);
    }
  }

  lemma OutsideIsTooFar<T>(perLon: Globe, way: Way<T>, p: Coordinate, tolerance: real)
    requires Shrinking(perLon) && way.points != [] && OnEarth(way.points) && tolerance <= WIDEST
    requires !BoxOf(way.points).Grown(perLon, tolerance).Contains(p)
    ensures !Within(perLon, p, way, tolerance)
  {
    hide WaySquared, Box.Grown, BoxOf;
    if Within(perLon, p, way, tolerance) {
      WithinToleranceIsInBox(perLon, way, p, tolerance);
    }
  }

  /**
   For every segment, by its midpoint, the way (its position in the list) an exhaustive search would
   find. None: a way without points has no bounding box, and the search fails.
   */
  method MatchSegments<T>(perLon: Globe, midpoints: seq<Coordinate>, ways: seq<Way<T>>, tolerance: real)
    returns (r: Option<seq<Option<nat>>>)
    requires Shrinking(perLon) && tolerance <= WIDEST
    requires forall i :: 0 <= i < |ways| ==> OnEarth(ways[i].points)
    ensures r.None? <==> exists i :: 0 <= i < |ways| && ways[i].points == []
    ensures r.Some? ==> Mapped(ways) && |r.value| == |midpoints|
    ensures r.Some? ==> forall s :: 0 <= s < |midpoints| ==> RightMatch(perLon, midpoints[s], ways, tolerance, r.value[s])
  {
    hide RightMatch, BoxOf, Box.Grown, Shrinking;
    var boxes := [];
    for n := 0 to |ways|
      invariant |boxes| == n
      invariant forall i :: 0 <= i < n ==> ways[i].points != [] && boxes[i] == BoxOf(ways[i].points).Grown(perLon, tolerance)
    {
      if ways[n].points == [] {
        return None;
      }
      boxes := boxes + [BoxOf(ways[n].points).Grown(perLon, tolerance)];
    }
    assert Mapped(ways);
    var matches: seq<Option<nat>> := [];
    for n := 0 to |midpoints|
      invariant |matches| == n
      invariant forall s :: 0 <= s < n ==> RightMatch(perLon, midpoints[s], ways, tolerance, matches[s])
    {
      var best := BestWay(perLon, midpoints[n], ways, boxes, tolerance);
      matches := matches + [best];
    }
    r := Some(matches);
  }
}
