/**
 What the positions of Waypoints mean on the map: where the found point of a route lies, how far along the
 line a vertex of it is, which positions the menu offers, and what adding a stop does to the places
 (frontend/waypoints.js, frontend/pois.js).
 */
module StopPlaces {
  import opened Common
  import opened WayMatching
  import opened Waypoints

  // ------------------------------------------------------------------ the point found on the route

  /** A map that shows degrees evenly: a scale and an offset for each axis. */
  datatype EvenMap = EvenMap(perLon: real, lonShift: real, perLat: real, latShift: real)
  {
    function Shows(c: Coordinate): Vector {
      Vector(perLon * c.lon + lonShift, perLat * c.lat + latShift)
    }
  }

  predicate InBox(c: Coordinate, a: Coordinate, b: Coordinate) {
    && Min(a.lon, b.lon) <= c.lon <= Max(a.lon, b.lon)
    && Min(a.lat, b.lat) <= c.lat <= Max(a.lat, b.lat)
  }

  lemma ShareBetween(a: real, b: real, t: real)
    requires 0.0 <= t <= 1.0
    ensures Min(a, b) <= a + t * (b - a) <= Max(a, b)
  {
    ShareOfDifference(a, b, t);
    Within(a, b, t * (b - a));
  }

  lemma ShareOfDifference(a: real, b: real, t: real)
    requires 0.0 <= t <= 1.0
    ensures if a <= b then 0.0 <= t * (b - a) <= b - a else b - a <= t * (b - a) <= 0.0
  {
    var step := b - a;
    if a <= b {
      Rising(t, step, t * step);
    } else {
      Falling(t, step, t * step);
    }
  }

  lemma Rising(t: real, step: real, x: real)
    requires x == t * step && 0.0 <= t <= 1.0 && step >= 0.0
    ensures 0.0 <= x <= step
  {
    ShareOf(t, step);
  }

  lemma Falling(t: real, step: real, x: real)
    requires x == t * step && 0.0 <= t <= 1.0 && step <= 0.0
    ensures step <= x <= 0.0
  {
    var back := -step;
    Rising(t, back, -x);
  }

  lemma Within(a: real, b: real, x: real)
    requires if a <= b then 0.0 <= x <= b - a else b - a <= x <= 0.0
    ensures Min(a, b) <= a + x <= Max(a, b)
  {
  }

  /** Whatever the map, the point that is found lies in the box of its segment. */
  lemma FoundIsInTheBox(project: Projected, route: seq<Coordinate>, target: Vector, i: nat, t: real, found: Nearest)
    requires i + 1 < |route| && LiesOn(project, route, target, i, t, found)
    ensures InBox(found.point, route[i], route[i + 1])
  {
    hide PointGap, Min, Max;
    ShareBetween(route[i].lon, route[i + 1].lon, t);
    ShareBetween(route[i].lat, route[i + 1].lat, t);
  }

  lemma EvenAxis(scale: real, shift: real, a: real, b: real, t: real, fromA: real, fromB: real, fromC: real)
    requires fromA == scale * a + shift && fromB == scale * b + shift && fromC == scale * (a + t * (b - a)) + shift
    ensures fromC == fromA + t * (fromB - fromA)
  {
    var step := b - a;
    var part, whole := t * step, scale * step;
    ScaledSum(scale, a, step, b);
    ScaledSum(scale, a, part, a + part);
    ScaledPart(scale, t, step, part, whole);
    assert fromB - fromA == whole;
  }

  lemma ScaledSum(scale: real, a: real, b: real, sum: real)
    requires sum == a + b
    ensures scale * sum == scale * a + scale * b
  {
  }

  lemma ScaledPart(scale: real, t: real, step: real, part: real, whole: real)
    requires part == t * step && whole == scale * step
    ensures scale * part == t * whole
  {
  }

  lemma EvenlyBetween(chart: EvenMap, a: Coordinate, b: Coordinate, t: real)
    ensures chart.Shows(Waypoints.Between(a, b, t)) == chart.Shows(a).Plus(t, chart.Shows(b).Minus(chart.Shows(a)))
  {
    var fromA, fromB, fromC := chart.Shows(a), chart.Shows(b), chart.Shows(Waypoints.Between(a, b, t));
    EvenAxis(chart.perLon, chart.lonShift, a.lon, b.lon, t, fromA.x, fromB.x, fromC.x);
    EvenAxis(chart.perLat, chart.latShift, a.lat, b.lat, t, fromA.y, fromB.y, fromC.y);
  }

  /** On an even map the distance that is reported is the one from the target to the point that is reported. */
  lemma FoundIsWhereItSays(chart: EvenMap, route: seq<Coordinate>, target: Vector, i: nat, t: real, found: Nearest)
    requires i + 1 < |route| && LiesOn(c => chart.Shows(c), route, target, i, t, found)
    ensures found.squared == target.Minus(chart.Shows(found.point)).Squared()
  {
    EvenlyBetween(chart, route[i], route[i + 1], t);
    hide EvenMap.Shows, Waypoints.Between, Vector.Plus, Vector.Minus, Vector.Squared;
  }

  // ------------------------------------------------------------------ a vertex of the line

  /** How near an edge comes. */
  function Best(perLon: Globe, place: Coordinate, coords: seq<Coordinate>, j: nat): real
    requires j + 1 < |coords|
  {
    EdgeGap(perLon, place, coords, j, EdgeShare(perLon, place, coords, j))
  }

  /** The first m edges do not touch the place. */
  ghost predicate NoneTouches(perLon: Globe, place: Coordinate, coords: seq<Coordinate>, m: nat)
    requires m < |coords|
  {
    forall j: nat :: j < m ==> Best(perLon, place, coords, j) > 0.0
  }

  lemma GapIsPositive(p: Vector, a: Vector, d: Vector, t: real)
    ensures Gap(p, a, d, t) >= 0.0
  {
    var v := p.Minus(a.Plus(t, d));
    SquareIsPositive(v.x);
    SquareIsPositive(v.y);
  }

  lemma {:induction false} FirstTouching(perLon: Globe, place: Coordinate, coords: seq<Coordinate>, n: nat, m: nat)
    requires m < n < |coords| && Best(perLon, place, coords, m) == 0.0
    requires NoneTouches(perLon, place, coords, m)
    ensures NearestEdge(perLon, place, coords, n) == m
  {
    hide Gap, EdgeShare;
    GapIsPositive(ORIGIN, Relative(perLon, place, coords[n - 1]), Edge(perLon, place, coords, n - 1),
                  EdgeShare(perLon, place, coords, n - 1));
    if m < n - 1 {
      FirstTouching(perLon, place, coords, n - 1, m);
    } else if m > 0 {
      assert Best(perLon, place, coords, NearestEdge(perLon, place, coords, n - 1)) > 0.0;
    }
  }

  lemma RelativeToItself(perLon: Globe, place: Coordinate)
    ensures Relative(perLon, place, place) == ORIGIN
  {
  }

  lemma EdgeParts(perLon: Globe, place: Coordinate, coords: seq<Coordinate>, i: nat)
    requires i + 1 < |coords|
    ensures var a, d := Relative(perLon, place, coords[i]), Edge(perLon, place, coords, i);
            && d == Relative(perLon, place, coords[i + 1]).Minus(a)
            && EdgeShare(perLon, place, coords, i) == Clamped(ORIGIN, a, d)
            && Best(perLon, place, coords, i) == Gap(ORIGIN, a, d, Clamped(ORIGIN, a, d))
  {
    hide Relative, Clamped, Gap, Vector.Minus;
  }

  /** An edge that starts at the place touches it there. */
  lemma StartTouches(perLon: Globe, coords: seq<Coordinate>, i: nat)
    requires i + 1 < |coords|
    ensures EdgeShare(perLon, coords[i], coords, i) == 0.0 && Best(perLon, coords[i], coords, i) == 0.0
  {
    hide *;
    RelativeToItself(perLon, coords[i]);
    EdgeParts(perLon, coords[i], coords, i);
    FromOrigin(Edge(perLon, coords[i], coords, i));
  }

  lemma FromOrigin(d: Vector)
    ensures Clamped(ORIGIN, ORIGIN, d) == 0.0 && Gap(ORIGIN, ORIGIN, d, 0.0) == 0.0
  {
    assert ORIGIN.Minus(ORIGIN).Dot(d) == 0.0;
    assert d.Squared() != 0.0 ==> 0.0 / d.Squared() == 0.0;
  }

  /** An edge that ends at the place touches it there, all of its length along. */
  lemma EndTouches(hypot: Hypot, perLon: Globe, coords: seq<Coordinate>, i: nat)
    requires IsHypot(hypot) && i + 1 < |coords|
    ensures var place, edge := coords[i + 1], Edge(perLon, coords[i + 1], coords, i);
            && Best(perLon, place, coords, i) == 0.0
            && EdgeShare(perLon, place, coords, i) * hypot(edge) == hypot(edge)
  {
    hide *;
    var place := coords[i + 1];
    var a, d := Relative(perLon, place, coords[i]), Edge(perLon, place, coords, i);
    RelativeToItself(perLon, place);
    EdgeParts(perLon, place, coords, i);
    TowardsOrigin(a, d);
    NoHypot(hypot, d);
    NoLength(d);
    WholeOf(EdgeShare(perLon, place, coords, i), hypot(d));
  }

  lemma WholeOf(t: real, length: real)
    requires t == 1.0 || length == 0.0
    ensures t * length == length
  {
  }

  lemma TowardsOrigin(a: Vector, d: Vector)
    requires d == ORIGIN.Minus(a)
    ensures Gap(ORIGIN, a, d, Clamped(ORIGIN, a, d)) == 0.0
    ensures d.Squared() > 0.0 ==> Clamped(ORIGIN, a, d) == 1.0
  {
    hide *;
    WholeWay(a, d);
    AllTheWay(a, d);
    ClampedIsLeast(ORIGIN, a, d, 1.0);
    GapIsPositive(ORIGIN, a, d, Clamped(ORIGIN, a, d));
  }

  lemma WholeWay(a: Vector, d: Vector)
    requires d == ORIGIN.Minus(a)
    ensures Gap(ORIGIN, a, d, 1.0) == 0.0
  {
    assert a.Plus(1.0, d) == ORIGIN;
    hide Vector.Plus;
    assert ORIGIN.Minus(ORIGIN) == ORIGIN;
  }

  lemma AllTheWay(a: Vector, d: Vector)
    requires d == ORIGIN.Minus(a)
    ensures d.Squared() > 0.0 ==> Clamped(ORIGIN, a, d) == 1.0
  {
    hide Vector.Dot, Vector.Minus;
    if d.Squared() > 0.0 {
      OverItself(d.Squared());
    }
  }

  lemma OverItself(n: real)
    requires n > 0.0
    ensures n / n == 1.0
  {
  }

  lemma NoHypot(hypot: Hypot, d: Vector)
    requires IsHypot(hypot)
    ensures d == Vector(0.0, 0.0) ==> hypot(d) == 0.0
  {
    hide *;
    HypotAt(hypot, d);
    if d == Vector(0.0, 0.0) {
      NoSquare();
      NoRoot(hypot(d), d.Squared());
    }
  }

  lemma NoSquare()
    ensures Vector(0.0, 0.0).Squared() == 0.0
  {
  }

  lemma HypotAt(hypot: Hypot, d: Vector)
    requires IsHypot(hypot)
    ensures hypot(d) >= 0.0 && hypot(d) * hypot(d) == d.Squared()
  {
    hide Vector.Squared;
  }

  lemma NoRoot(h: real, n: real)
    requires h * h == n && n == 0.0 && h >= 0.0
    ensures h == 0.0
  {
    if h > 0.0 {
      ProductIsPositive(h, h, n);
    }
  }

  lemma ProductIsPositive(x: real, y: real, n: real)
    requires n == x * y && x > 0.0 && y > 0.0
    ensures n > 0.0
  {
  }

  /**
   Main result: a vertex that no edge touches before the one that leads to it lies the summed length of the
   edges up to it along the line.
   */
  lemma VertexLiesItsMetersAlong(hypot: Hypot, perLon: Globe, coords: seq<Coordinate>, i: nat)
    requires IsHypot(hypot) && |coords| >= 2 && i < |coords|
    requires i > 0 ==> NoneTouches(perLon, coords[i], coords, i - 1)
    ensures Along(hypot, perLon, coords, coords[i]) == MetersTo(hypot, perLon, coords[i], coords, i)
  {
    hide *;
    AlongIs(hypot, perLon, coords, coords[i]);
    if i == 0 {
      StartTouches(perLon, coords, 0);
      NothingBefore(perLon, coords[0], coords);
      FirstTouching(perLon, coords[0], coords, |coords| - 1, 0);
      StartIsReached(hypot, perLon, coords);
    } else {
      EndTouches(hypot, perLon, coords, i - 1);
      FirstTouching(perLon, coords[i], coords, |coords| - 1, i - 1);
      MetersStep(hypot, perLon, coords[i], coords, i - 1);
    }
  }

  lemma NothingBefore(perLon: Globe, place: Coordinate, coords: seq<Coordinate>)
    requires coords != []
    ensures NoneTouches(perLon, place, coords, 0)
  {
  }

  lemma StartIsReached(hypot: Hypot, perLon: Globe, coords: seq<Coordinate>)
    requires |coords| >= 2 && EdgeShare(perLon, coords[0], coords, 0) == 0.0
    ensures MetersTo(hypot, perLon, coords[0], coords, 0)
            + EdgeShare(perLon, coords[0], coords, 0) * hypot(Edge(perLon, coords[0], coords, 0))
            == MetersTo(hypot, perLon, coords[0], coords, 0)
  {
    hide MetersTo, EdgeShare, Edge;
  }

  lemma AlongIs(hypot: Hypot, perLon: Globe, coords: seq<Coordinate>, place: Coordinate)
    requires |coords| >= 2
    ensures var k := NearestEdge(perLon, place, coords, |coords| - 1);
            Along(hypot, perLon, coords, place)
            == MetersTo(hypot, perLon, place, coords, k) + EdgeShare(perLon, place, coords, k) * hypot(Edge(perLon, place, coords, k))
  {
    hide Edge, EdgeShare, NearestEdge, MetersTo;
  }

  // ------------------------------------------------------------------ the menu and the places

  /** The menu in the order of travel: the start, every position of a new stop while there are fewer than ten, the end. */
  lemma MenuIsInOrder(n: nat)
    ensures var menu := Slots(n);
            && |menu| == (if n < 10 then n + 3 else 2)
            && menu[0] == Start && menu[|menu| - 1] == Finish
            && forall k: nat :: n < 10 && k <= n ==> menu[1 + k] == Via(k)
  {
  }

  /** The line to measure along is the route drawn, of two points or more, or else the places joined up. */
  lemma LineIsRouteOrPlaces(trip: Trip)
    ensures var line := LineOf(trip);
            if exists route :: trip.route == Some(route) && |route| > 1 then line == trip.route
            else if trip.origin.None? || trip.destination.None? || None in trip.vias then line.None?
            else
              && line.Some? && |line.value| == |trip.vias| + 2
              && line.value[0] == trip.origin.value && line.value[|line.value| - 1] == trip.destination.value
              && forall k :: 0 <= k < |trip.vias| ==> line.value[k + 1] == trip.vias[k].value
  {
    assert Located(trip.vias) <==> None !in trip.vias by {
      if None !in trip.vias {
        forall i | 0 <= i < |trip.vias| ensures trip.vias[i].Some? {
          assert trip.vias[i] in trip.vias;
        }
      }
    }
    if trip.route.Some? && |trip.route.value| > 1 {
      assert trip.route == Some(trip.route.value);
    }
  }

  /** The stops without the one at an index. */
  function Without<T>(items: seq<T>, index: nat): seq<T>
    requires index < |items|
  {
    items[..index] + items[index + 1..]
  }

  /**
   Main result: a place is changed only where the key says; a stop is refused exactly when there are ten, and
   otherwise the new one is the only difference.
   */
  lemma OnlyTheKeyChanges(places: Places, key: Key, text: string)
    ensures var after := Place(places, key, text);
            && (after.None? <==> key.Via? && |places.vias| >= 10)
            && (key.Start? ==> after == Some(Places(text, places.destination, places.vias)))
            && (key.Finish? ==> after == Some(Places(places.origin, text, places.vias)))
            && (key.Via? && after.Some? ==>
                var index := if key.index > |places.vias| then |places.vias| else key.index;
                && after.value.origin == places.origin && after.value.destination == places.destination
                && |after.value.vias| == |places.vias| + 1
                && after.value.vias[index] == text && Without(after.value.vias, index) == places.vias)
  {
    if key.Via? && |places.vias| < 10 {
      var index := if key.index > |places.vias| then |places.vias| else key.index;
      assert Without(Inserted(places.vias, index, text), index) == places.vias;
    }
  }
}
