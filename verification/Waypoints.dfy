/**
 * Adding a stop to the trip: where it goes along the route (frontend/pois.js), what the menu suggests
 * and what the places are afterwards, and the point of the route nearest to a press
 * (frontend/waypoints.js). Distances are compared squared; the length of a vector and the metres per
 * degree of longitude are parameters.
 */
module Waypoints {
  import opened Common
  import opened WayMatching

  const MAX_VIA := 10
  const ORIGIN := Vector(0.0, 0.0)

  type Hypot = Vector -> real

  /** The square root of the sum of the squares. */
  ghost predicate IsHypot(hypot: Hypot) {
    forall v :: hypot(v) >= 0.0 && hypot(v) * hypot(v) == v.Squared()
  }

  // ------------------------------------------------------------------ the nearest point of a segment

  /** The share of the segment nearest to `p`; a segment of no length is its first end. */
  function Clamped(p: Vector, a: Vector, d: Vector): (t: real)
    ensures 0.0 <= t <= 1.0
  {
    if d.Squared() == 0.0 then 0.0 else Max(0.0, Min(1.0, p.Minus(a).Dot(d) / d.Squared()))
  }

  lemma SquareOfPositive(x: real)
    requires x > 0.0
    ensures x * x > 0.0
  {
  }

  lemma SquareOfNegative(x: real)
    requires x < 0.0
    ensures x * x > 0.0
  {
  }

  lemma SquareIsPositive(x: real)
    ensures x * x >= 0.0
    ensures x != 0.0 ==> x * x > 0.0
  {
    if x > 0.0 {
      SquareOfPositive(x);
    } else if x < 0.0 {
      SquareOfNegative(x);
    }
  }

  lemma SumOfSquares(x: real, y: real)
    requires x != 0.0 || y != 0.0
    ensures x * x + y * y > 0.0
  {
    SquareIsPositive(x);
    SquareIsPositive(y);
  }

  lemma NoLength(d: Vector)
    ensures d == Vector(0.0, 0.0) || d.Squared() > 0.0
  {
    if d != Vector(0.0, 0.0) {
      calc {
        d.Squared();
      ==
        d.x * d.x + d.y * d.y;
      > { SumOfSquares(d.x, d.y); }
        0.0;
      }
    }
  }

  lemma ClampedZero(p: Vector, a: Vector)
    ensures Clamped(p, a, Vector(0.0, 0.0)) == 0.0
  {
  }

  lemma ZeroGap(p: Vector, a: Vector, s: real)
    ensures Gap(p, a, Vector(0.0, 0.0), s) == Gap(p, a, Vector(0.0, 0.0), 0.0)
  {
    assert s * 0.0 == 0.0;
  }

  lemma LongClampedIsLeast(p: Vector, a: Vector, d: Vector, s: real)
    requires d.Squared() > 0.0 && 0.0 <= s <= 1.0
    ensures Gap(p, a, d, Clamped(p, a, d)) <= Gap(p, a, d, s)
  {
    hide Gap, Vector.Squared, Vector.Dot, Vector.Minus, Max, Min;
    var w, n, t := p.Minus(a), d.Squared(), Clamped(p, a, d);
    var q := w.Dot(d);
    var t0 := q / n;
    Quotient(q, n);
    GapExpanded(p, a, d, s);
    GapExpanded(p, a, d, t);
    ParabolaIsLeast(w.Squared(), n, t0, t, s);
  }

  lemma Quotient(q: real, n: real)
    requires n > 0.0
    ensures (q / n) * n == q
  {
  }

  /** No point of the segment, of any length, is nearer than the clamped one. */
  lemma ClampedIsLeast(p: Vector, a: Vector, d: Vector, s: real)
    requires 0.0 <= s <= 1.0
    ensures Gap(p, a, d, Clamped(p, a, d)) <= Gap(p, a, d, s)
  {
    NoLength(d);
    hide Gap, Vector.Squared, Max, Min;
    if d == Vector(0.0, 0.0) {
      ClampedZero(p, a);
      ZeroGap(p, a, s);
    } else {
      LongClampedIsLeast(p, a, d, s);
    }
  }

  // ------------------------------------------------------------------ the nearest point of the route

  type Projected = Coordinate -> Vector

  function PointGap(project: Projected, route: seq<Coordinate>, target: Vector, i: nat, s: real): real
    requires i + 1 < |route|
  {
    Gap(target, project(route[i]), project(route[i + 1]).Minus(project(route[i])), s)
  }

  function Between(a: Coordinate, b: Coordinate, t: real): Coordinate {
    Coordinate(a.lon + t * (b.lon - a.lon), a.lat + t * (b.lat - a.lat))
  }

  datatype Nearest = Nearest(point: Coordinate, squared: real)

  /** No point of the first n segments is nearer. */
  ghost predicate NoneNearer(project: Projected, route: seq<Coordinate>, target: Vector, n: nat, squared: real)
    requires n < |route| || n == 0
  {
    forall i: nat, s: real :: i < n && 0.0 <= s <= 1.0 ==> squared <= PointGap(project, route, target, i, s)
  }

  /** The point and its distance belong to a share of segment i. */
  ghost predicate LiesOn(project: Projected, route: seq<Coordinate>, target: Vector, i: nat, t: real, nearest: Nearest)
    requires i + 1 < |route|
  {
    && 0.0 <= t <= 1.0
    && nearest.point == Between(route[i], route[i + 1], t)
    && nearest.squared == PointGap(project, route, target, i, t)
  }

  lemma SegmentNoneNearer(project: Projected, route: seq<Coordinate>, target: Vector, i: nat)
    requires i + 1 < |route|
    ensures var a := project(route[i]);
            var t := Clamped(target, a, project(route[i + 1]).Minus(a));
            forall s: real :: 0.0 <= s <= 1.0 ==>
              PointGap(project, route, target, i, t) <= PointGap(project, route, target, i, s)
  {
    var a := project(route[i]);
    var d := project(route[i + 1]).Minus(a);
    forall s: real | 0.0 <= s <= 1.0
      ensures PointGap(project, route, target, i, Clamped(target, a, d)) <= PointGap(project, route, target, i, s)
    {
      ClampedIsLeast(target, a, d, s);
    }
  }

  /**
   * `nearestOnRoute`: a point of the route no farther from the target than any point of any segment,
   * and within reach; None exactly when every point is out of reach.
   */
  method NearestOnRoute(route: seq<Coordinate>, target: Vector, project: Projected, reach: real)
    returns (found: Option<Nearest>)
    ensures |route| < 2 || reach < 0.0 ==> found.None?
    ensures found.Some? ==>
              && |route| >= 2
              && NoneNearer(project, route, target, |route| - 1, found.value.squared)
              && found.value.squared <= reach * reach
              && exists i: nat, t: real :: i + 1 < |route| && LiesOn(project, route, target, i, t, found.value)
    ensures found.None? && |route| >= 2 && reach >= 0.0 ==>
              forall i: nat, s: real :: i + 1 < |route| && 0.0 <= s <= 1.0 ==>
                PointGap(project, route, target, i, s) > reach * reach
  {
    if |route| < 2 {
      return None;
    }
    var best: Option<Nearest> := None;
    ghost var at: nat, share := 0, 0.0;
    var a := project(route[0]);
    for i := 1 to |route|
      invariant a == project(route[i - 1])
      invariant best.None? <==> i == 1
      invariant best.Some? ==> at + 1 < i && LiesOn(project, route, target, at, share, best.value)
      invariant best.Some? ==> NoneNearer(project, route, target, i - 1, best.value.squared)
    {
      hide Gap, Clamped, PointGap, Between, Vector.Minus;
      var b := project(route[i]);
      var t := Clamped(target, a, b.Minus(a));
      SegmentNoneNearer(project, route, target, i - 1);
      var squared := Gap(target, a, b.Minus(a), t);
      PointGapIs(project, route, target, i - 1, t);
      if best.None? || squared < best.value.squared {
        best := Some(Nearest(Between(route[i - 1], route[i], t), squared));
        at, share := i - 1, t;
      }
      a := b;
    }
    if reach >= 0.0 && best.value.squared <= reach * reach {
      found := best;
    } else {
      found := None;
    }
  }

  lemma PointGapIs(project: Projected, route: seq<Coordinate>, target: Vector, i: nat, t: real)
    requires i + 1 < |route|
    ensures PointGap(project, route, target, i, t) ==
            Gap(target, project(route[i]), project(route[i + 1]).Minus(project(route[i])), t)
  {
  }

  // ------------------------------------------------------------------ how far along the route a place is

  /** A vertex in the plane in which the place is the origin. */
  function Relative(perLon: Globe, place: Coordinate, c: Coordinate): Vector {
    Vector((c.lon - place.lon) * perLon(place.lat), (c.lat - place.lat) * METERS_PER_DEGREE_LAT)
  }

  function Edge(perLon: Globe, place: Coordinate, coords: seq<Coordinate>, i: nat): Vector
    requires i + 1 < |coords|
  {
    Relative(perLon, place, coords[i + 1]).Minus(Relative(perLon, place, coords[i]))
  }

  function EdgeGap(perLon: Globe, place: Coordinate, coords: seq<Coordinate>, i: nat, s: real): real
    requires i + 1 < |coords|
  {
    Gap(ORIGIN, Relative(perLon, place, coords[i]), Edge(perLon, place, coords, i), s)
  }

  function EdgeShare(perLon: Globe, place: Coordinate, coords: seq<Coordinate>, i: nat): (t: real)
    requires i + 1 < |coords|
    ensures 0.0 <= t <= 1.0
  {
    Clamped(ORIGIN, Relative(perLon, place, coords[i]), Edge(perLon, place, coords, i))
  }

  /** Metres to vertex i. */
  function MetersTo(hypot: Hypot, perLon: Globe, place: Coordinate, coords: seq<Coordinate>, i: nat): real
    requires i < |coords| || i == 0
  {
    if i == 0 then 0.0
    else MetersTo(hypot, perLon, place, coords, i - 1) + hypot(Edge(perLon, place, coords, i - 1))
  }

  /** The first of the first n edges that comes nearest to the place. */
  function NearestEdge(perLon: Globe, place: Coordinate, coords: seq<Coordinate>, n: nat): (k: nat)
    requires 0 < n < |coords|
    ensures k < n
  {
    if n == 1 then 0
    else
      var k := NearestEdge(perLon, place, coords, n - 1);
      if EdgeGap(perLon, place, coords, n - 1, EdgeShare(perLon, place, coords, n - 1))
         < EdgeGap(perLon, place, coords, k, EdgeShare(perLon, place, coords, k))
      then n - 1 else k
  }

  /** The least squared distance to the first n edges. */
  function BestGap(perLon: Globe, place: Coordinate, coords: seq<Coordinate>, n: nat): real
    requires 0 < n < |coords|
  {
    var k := NearestEdge(perLon, place, coords, n);
    EdgeGap(perLon, place, coords, k, EdgeShare(perLon, place, coords, k))
  }

  /** Metres along the line to where the first n edges come nearest. */
  function BestMeters(hypot: Hypot, perLon: Globe, place: Coordinate, coords: seq<Coordinate>, n: nat): real
    requires 0 < n < |coords|
  {
    var k := NearestEdge(perLon, place, coords, n);
    MetersTo(hypot, perLon, place, coords, k)
    + EdgeShare(perLon, place, coords, k) * hypot(Edge(perLon, place, coords, k))
  }

  /** Metres along the line to the nearest point. */
  function Along(hypot: Hypot, perLon: Globe, coords: seq<Coordinate>, place: Coordinate): real {
    if |coords| < 2 then 0.0 else BestMeters(hypot, perLon, place, coords, |coords| - 1)
  }

  lemma OneMoreEdge(hypot: Hypot, perLon: Globe, place: Coordinate, coords: seq<Coordinate>, i: nat)
    requires i + 1 < |coords|
    ensures var t := EdgeShare(perLon, place, coords, i);
            var gap := EdgeGap(perLon, place, coords, i, t);
            var meters := MetersTo(hypot, perLon, place, coords, i) + t * hypot(Edge(perLon, place, coords, i));
            if i == 0 || gap < BestGap(perLon, place, coords, i) then
              BestGap(perLon, place, coords, i + 1) == gap && BestMeters(hypot, perLon, place, coords, i + 1) == meters
            else
              && BestGap(perLon, place, coords, i + 1) == BestGap(perLon, place, coords, i)
              && BestMeters(hypot, perLon, place, coords, i + 1) == BestMeters(hypot, perLon, place, coords, i)
  {
    hide EdgeShare, EdgeGap, MetersTo, Edge;
  }

  /** No point of the line is nearer to the place than the one `Along` measures to. */
  lemma {:induction false} NearestEdgeIsNearest(perLon: Globe, place: Coordinate, coords: seq<Coordinate>, n: nat,
                                                i: nat, s: real)
    requires i < n < |coords| && 0.0 <= s <= 1.0
    ensures var k := NearestEdge(perLon, place, coords, n);
            EdgeGap(perLon, place, coords, k, EdgeShare(perLon, place, coords, k)) <=
            EdgeGap(perLon, place, coords, i, s)
  {
    hide Gap, Clamped, Relative, Edge;
    if i == n - 1 {
      ClampedIsLeast(ORIGIN, Relative(perLon, place, coords[i]), Edge(perLon, place, coords, i), s);
    } else {
      NearestEdgeIsNearest(perLon, place, coords, n - 1, i, s);
    }
  }

  lemma {:induction false} MetersGrow(hypot: Hypot, perLon: Globe, place: Coordinate, coords: seq<Coordinate>, i: nat, j: nat)
    requires IsHypot(hypot) && i <= j < |coords|
    ensures MetersTo(hypot, perLon, place, coords, i) <= MetersTo(hypot, perLon, place, coords, j)
    decreases j
  {
    if i < j {
      MetersGrow(hypot, perLon, place, coords, i, j - 1);
      assert hypot(Edge(perLon, place, coords, j - 1)) >= 0.0;
    }
  }

  lemma ShareOf(t: real, length: real)
    requires 0.0 <= t <= 1.0 && length >= 0.0
    ensures 0.0 <= t * length <= length
  {
    assert t * length >= 0.0;
    assert (1.0 - t) * length >= 0.0;
  }

  /** A position lies between the start and the end of the line. */
  lemma AlongIsOnTheLine(hypot: Hypot, perLon: Globe, coords: seq<Coordinate>, place: Coordinate)
    requires IsHypot(hypot) && |coords| >= 2
    ensures 0.0 <= Along(hypot, perLon, coords, place) <= MetersTo(hypot, perLon, place, coords, |coords| - 1)
  {
    hide Gap, Clamped, Relative, Edge, EdgeShare, NearestEdge, MetersTo;
    var k := NearestEdge(perLon, place, coords, |coords| - 1);
    var length, t := hypot(Edge(perLon, place, coords, k)), EdgeShare(perLon, place, coords, k);
    assert length >= 0.0;
    ShareOf(t, length);
    MetersGrow(hypot, perLon, place, coords, 0, k);
    MetersGrow(hypot, perLon, place, coords, k + 1, |coords| - 1);
    MetersStep(hypot, perLon, place, coords, k);
    assert Along(hypot, perLon, coords, place) == MetersTo(hypot, perLon, place, coords, k) + t * length;
  }

  lemma MetersStep(hypot: Hypot, perLon: Globe, place: Coordinate, coords: seq<Coordinate>, k: nat)
    requires k + 1 < |coords|
    ensures MetersTo(hypot, perLon, place, coords, k + 1) ==
            MetersTo(hypot, perLon, place, coords, k) + hypot(Edge(perLon, place, coords, k))
    ensures MetersTo(hypot, perLon, place, coords, 0) == 0.0
  {
  }

  /** `alongMeters`. */
  method AlongMeters(hypot: Hypot, perLon: Globe, coords: seq<Coordinate>, place: Coordinate) returns (meters: real)
    ensures meters == Along(hypot, perLon, coords, place)
  {
    hide Edge, EdgeGap, EdgeShare, BestGap, BestMeters;
    var best: Option<real> := None;
    var along := 0.0;
    meters := 0.0;
    var i := 1;
    while i < |coords|
      invariant 1 <= i && (i <= |coords| || i == 1)
      invariant along == MetersTo(hypot, perLon, place, coords, i - 1)
      invariant (best.None? <==> i == 1) && (best.None? ==> meters == 0.0)
      invariant best.Some? ==> best.value == BestGap(perLon, place, coords, i - 1)
      invariant best.Some? ==> meters == BestMeters(hypot, perLon, place, coords, i - 1)
    {
      OneMoreEdge(hypot, perLon, place, coords, i - 1);
      var length := hypot(Edge(perLon, place, coords, i - 1));
      var t := EdgeShare(perLon, place, coords, i - 1);
      var gap := EdgeGap(perLon, place, coords, i - 1, t);
      if best.None? || gap < best.value {
        best := Some(gap);
        meters := along + t * length;
      }
      along := along + length;
      i := i + 1;
    }
  }

  // ------------------------------------------------------------------ where a stop goes

  /** One past the last position that is not beyond the target. */
  function LastAtMost(positions: seq<real>, target: real): (index: nat)
    ensures index <= |positions|
  {
    if positions == [] then 0
    else if positions[|positions| - 1] <= target then |positions|
    else LastAtMost(positions[..|positions| - 1], target)
  }

  predicate Located(vias: seq<Option<Coordinate>>) {
    forall i :: 0 <= i < |vias| ==> vias[i].Some?
  }

  function Positions(hypot: Hypot, perLon: Globe, coords: seq<Coordinate>, vias: seq<Option<Coordinate>>): (r: seq<real>)
    requires |coords| >= 2 && Located(vias)
    ensures |r| == |vias|
  {
    seq(|vias|, i requires 0 <= i < |vias| => Along(hypot, perLon, coords, vias[i].value))
  }

  function InsertAt(hypot: Hypot, perLon: Globe, route: Option<seq<Coordinate>>, vias: seq<Option<Coordinate>>,
                    poi: Coordinate): (index: nat)
    ensures index <= |vias|
  {
    if route.None? || |route.value| < 2 || !Located(vias) then |vias|
    else LastAtMost(Positions(hypot, perLon, route.value, vias), Along(hypot, perLon, route.value, poi))
  }

  lemma NoPositions(hypot: Hypot, perLon: Globe, coords: seq<Coordinate>, target: real)
    requires |coords| >= 2
    ensures LastAtMost(Positions(hypot, perLon, coords, []), target) == 0
  {
  }

  lemma OneMorePosition(hypot: Hypot, perLon: Globe, coords: seq<Coordinate>, vias: seq<Option<Coordinate>>, i: nat,
                        target: real)
    requires |coords| >= 2 && i < |vias| && Located(vias[..i]) && vias[i].Some?
    ensures Located(vias[..i + 1])
    ensures LastAtMost(Positions(hypot, perLon, coords, vias[..i + 1]), target) ==
            if Along(hypot, perLon, coords, vias[i].value) <= target then i + 1
            else LastAtMost(Positions(hypot, perLon, coords, vias[..i]), target)
  {
    hide Along;
    var positions := Positions(hypot, perLon, coords, vias[..i + 1]);
    assert positions[..i] == Positions(hypot, perLon, coords, vias[..i]);
  }

  /** `insertionIndex`. */
  method InsertionIndex(hypot: Hypot, perLon: Globe, route: Option<seq<Coordinate>>, vias: seq<Option<Coordinate>>,
                        poi: Coordinate) returns (index: nat)
    ensures index == InsertAt(hypot, perLon, route, vias, poi)
  {
    if route.None? || |route.value| < 2 {
      return |vias|;
    }
    hide Along, LastAtMost, Positions;
    var coords := route.value;
    var target := AlongMeters(hypot, perLon, coords, poi);
    index := 0;
    NoPositions(hypot, perLon, coords, target);
    for i := 0 to |vias|
      invariant Located(vias[..i])
      invariant index == LastAtMost(Positions(hypot, perLon, coords, vias[..i]), target)
    {
      if vias[i].None? {
        assert !Located(vias);
        return |vias|;
      }
      OneMorePosition(hypot, perLon, coords, vias, i, target);
      var meters := AlongMeters(hypot, perLon, coords, vias[i].value);
      if meters <= target {
        index := i + 1;
      }
    }
    assert vias[..|vias|] == vias;
  }

  predicate NonDecreasing(positions: seq<real>) {
    forall i, j :: 0 <= i <= j < |positions| ==> positions[i] <= positions[j]
  }

  function Inserted<T>(items: seq<T>, index: nat, item: T): seq<T>
    requires index <= |items|
  {
    items[..index] + [item] + items[index..]
  }

  lemma {:induction false} LastAtMostIs(positions: seq<real>, target: real)
    ensures var index := LastAtMost(positions, target);
            && (index > 0 ==> positions[index - 1] <= target)
            && forall i :: index <= i < |positions| ==> positions[i] > target
  {
    if positions == [] {
    } else if positions[|positions| - 1] > target {
      LastAtMostIs(positions[..|positions| - 1], target);
    }
  }

  lemma InsertedAt(positions: seq<real>, index: nat, target: real, i: nat)
    requires index <= |positions| && i <= |positions|
    ensures |Inserted(positions, index, target)| == |positions| + 1
    ensures Inserted(positions, index, target)[i] ==
            if i < index then positions[i] else if i == index then target else positions[i - 1]
  {
  }

  lemma PairInOrder(positions: seq<real>, index: nat, target: real, i: nat, j: nat)
    requires NonDecreasing(positions) && index <= |positions| && i <= j <= |positions|
    requires index > 0 ==> positions[index - 1] <= target
    requires index < |positions| ==> target < positions[index]
    ensures |Inserted(positions, index, target)| == |positions| + 1
    ensures Inserted(positions, index, target)[i] <= Inserted(positions, index, target)[j]
  {
    hide Inserted;
    InsertedAt(positions, index, target, i);
    InsertedAt(positions, index, target, j);
  }

  lemma InsertedInOrder(positions: seq<real>, target: real)
    requires NonDecreasing(positions)
    ensures NonDecreasing(Inserted(positions, LastAtMost(positions, target), target))
  {
    var index := LastAtMost(positions, target);
    LastAtMostIs(positions, target);
    InsertedAt(positions, index, target, 0);
    forall i, j | 0 <= i <= j < |Inserted(positions, index, target)|
      ensures Inserted(positions, index, target)[i] <= Inserted(positions, index, target)[j]
    {
      hide Inserted, LastAtMost, NonDecreasing;
      PairInOrder(positions, index, target, i, j);
    }
  }

  lemma OrderWithout(positions: seq<real>, index: nat, target: real)
    requires index <= |positions| && NonDecreasing(Inserted(positions, index, target))
    ensures NonDecreasing(positions)
  {
    var all := Inserted(positions, index, target);
    forall i, j | 0 <= i <= j < |positions| ensures positions[i] <= positions[j] {
      var a, b := if i < index then i else i + 1, if j < index then j else j + 1;
      InsertedAt(positions, index, target, a);
      InsertedAt(positions, index, target, b);
      assert all[a] <= all[b];
    }
  }

  /** Main result: a stop put in at its index leaves the stops in travel order exactly when they were. */
  lemma InsertingKeepsOrder(positions: seq<real>, target: real)
    ensures NonDecreasing(Inserted(positions, LastAtMost(positions, target), target)) <==> NonDecreasing(positions)
  {
    if NonDecreasing(positions) {
      InsertedInOrder(positions, target);
    }
    if NonDecreasing(Inserted(positions, LastAtMost(positions, target), target)) {
      OrderWithout(positions, LastAtMost(positions, target), target);
    }
  }

  // ------------------------------------------------------------------ the menu and the trip

  datatype Key = Start | Finish | Via(index: nat)

  datatype Trip = Trip(hasOrigin: bool, hasDestination: bool, origin: Option<Coordinate>,
                       destination: Option<Coordinate>, vias: seq<Option<Coordinate>>, route: Option<seq<Coordinate>>)

  /** The options of the menu: a stop at every position while there is room. */
  function Slots(viaCount: nat): seq<Key> {
    [Start] + (if viaCount < MAX_VIA then seq(viaCount + 1, k requires 0 <= k => Via(k)) else []) + [Finish]
  }

  /** The route on the map, or the straight lines between the places when all are known. */
  function LineOf(trip: Trip): Option<seq<Coordinate>> {
    if trip.route.Some? && |trip.route.value| >= 2 then trip.route
    else if trip.origin.Some? && trip.destination.Some? && Located(trip.vias) then
      Some([trip.origin.value] + seq(|trip.vias|, i requires 0 <= i < |trip.vias| => trip.vias[i].value)
           + [trip.destination.value])
    else None
  }

  function Suggest(hypot: Hypot, perLon: Globe, trip: Trip, point: Coordinate): Key {
    if !trip.hasOrigin then Start
    else if !trip.hasDestination then Finish
    else if |trip.vias| >= MAX_VIA then Finish
    else Via(InsertAt(hypot, perLon, LineOf(trip), trip.vias, point))
  }

  /** The stop a drag of the route makes: where it was grabbed, at the place it was dropped. */
  function Reshape(hypot: Hypot, perLon: Globe, trip: Trip, grab: Coordinate): Option<Key> {
    if !trip.hasOrigin || !trip.hasDestination || |trip.vias| >= MAX_VIA then None
    else
      var key := Suggest(hypot, perLon, trip, grab);
      if key.Via? then Some(key) else None
  }

  datatype Places = Places(origin: string, destination: string, vias: seq<string>)

  function Place(places: Places, key: Key, text: string): Option<Places> {
    match key
    case Start => Some(places.(origin := text))
    case Finish => Some(places.(destination := text))
    case Via(k) =>
      if |places.vias| >= MAX_VIA then None
      else
        var index := if k <= |places.vias| then k else |places.vias|;
        Some(places.(vias := Inserted(places.vias, index, text)))
  }

  /** What is suggested is on the menu and can be placed, and a trip never gets more stops than allowed. */
  lemma SuggestionFits(hypot: Hypot, perLon: Globe, trip: Trip, point: Coordinate, places: Places, text: string)
    requires |places.vias| == |trip.vias| <= MAX_VIA
    ensures Suggest(hypot, perLon, trip, point) in Slots(|trip.vias|)
    ensures var placed := Place(places, Suggest(hypot, perLon, trip, point), text);
            placed.Some? && |placed.value.vias| <= MAX_VIA
    ensures Reshape(hypot, perLon, trip, point).Some? <==> Suggest(hypot, perLon, trip, point).Via?
  {
    hide InsertAt, LineOf;
    var key, slots := Suggest(hypot, perLon, trip, point), Slots(|trip.vias|);
    if key.Via? {
      assert slots[1 + key.index] == key;
    } else {
      assert slots[0] == Start && slots[|slots| - 1] == Finish;
    }
  }

  /**
   * Main result: with stops in travel order along the line, the suggested stop is between the right
   * ones; for a drag the same holds of the point where the route was grabbed.
   */
  lemma SuggestionKeepsOrder(hypot: Hypot, perLon: Globe, trip: Trip, point: Coordinate)
    requires Suggest(hypot, perLon, trip, point).Via?
    requires LineOf(trip).Some? && |LineOf(trip).value| >= 2 && Located(trip.vias)
    ensures var line, k := LineOf(trip).value, Suggest(hypot, perLon, trip, point).index;
            && k <= |trip.vias|
            && Located(Inserted(trip.vias, k, Some(point)))
            && (NonDecreasing(Positions(hypot, perLon, line, trip.vias)) <==>
                NonDecreasing(Positions(hypot, perLon, line, Inserted(trip.vias, k, Some(point)))))
  {
    hide Along, LineOf, LastAtMost, NonDecreasing;
    var line, k := LineOf(trip).value, Suggest(hypot, perLon, trip, point).index;
    var target := Along(hypot, perLon, line, point);
    var before, after := Positions(hypot, perLon, line, trip.vias),
                         Positions(hypot, perLon, line, Inserted(trip.vias, k, Some(point)));
    InsertingKeepsOrder(before, target);
    assert after == Inserted(before, k, target);
  }

  /** A stop with no known position, or no line to measure along, sends the new one to the end. */
  lemma UnplaceableGoesLast(hypot: Hypot, perLon: Globe, trip: Trip, point: Coordinate)
    requires trip.hasOrigin && trip.hasDestination && |trip.vias| < MAX_VIA
    requires !Located(trip.vias) || LineOf(trip).None?
    ensures Suggest(hypot, perLon, trip, point) == Via(|trip.vias|)
  {
  }
}
